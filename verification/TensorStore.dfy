/** The first two phases of a worker's task processing, on its table of tensors. */
module TensorStore {
  import opened Wrappers
  import opened TaskGraphs
  import opened Protocol

  /** What a task is told lies in this worker's own table. */
  ghost predicate LocalOnes(rank: Worker, jobs: seq<Job>, store: set<TensorId>) {
    forall j, t | j in jobs && t in j.locations && rank in j.locations[t] :: t in store
  }

  class Store {
    const rank: Worker
    var tensors: set<TensorId>

    constructor (rank: Worker)
      ensures this.rank == rank && tensors == {}
    {
      this.rank := rank;
      tensors := {};
    }

    /** Phase 0: a tensor that is not there is skipped. */
    method Free(frees: seq<TensorId>)
      modifies this
      ensures tensors == old(tensors) - set t | t in frees
    {
      for i := 0 to |frees|
        invariant tensors == old(tensors) - set t | t in frees[..i]
      {
        assert frees[..i + 1] == frees[..i] + [frees[i]];
        if frees[i] in tensors {
          tensors := tensors - {frees[i]};
        }
      }
      assert frees[..|frees|] == frees;
    }

    /** Phase 1 for one task: remote tensors are fetched and kept, local ones must be there. */
    method Gather(j: Job) returns (missing: Option<TensorId>)
      modifies this
      ensures missing.None? ==> tensors == old(tensors) + j.locations.Keys
      ensures missing.Some? ==>
                missing.value in j.locations && rank in j.locations[missing.value] && missing.value !in old(tensors)
    {
      var todo := j.locations.Keys;
      ghost var before, all := tensors, j.locations.Keys;
      while todo != {}
        invariant todo <= all && before <= tensors && tensors + todo == before + all
        invariant forall t | t in tensors :: t in before || t !in todo
        decreases |todo|
      {
        var t :| t in todo;
        if rank !in j.locations[t] {
          tensors := tensors + {t};
        } else if t !in tensors {
          return Some(t);
        }
        todo := todo - {t};
      }
      return None;
    }

    /** Both phases for a group; nothing is missing when what is said to be here is, once the frees are done. */
    method Begin(m: Message) returns (missing: Option<TensorId>)
      modifies this
      ensures LocalOnes(rank, m.jobs, old(tensors) - set t | t in m.frees) ==> missing.None?
      ensures missing.None? ==> tensors == old(tensors) - (set t | t in m.frees) + Located(m.jobs)
    {
      Free(m.frees);
      ghost var kept := tensors;
      assert Located(m.jobs[..0]) == {};
      for i := 0 to |m.jobs|
        invariant tensors == kept + Located(m.jobs[..i])
      {
        missing := Gather(m.jobs[i]);
        if missing.Some? {
          assert m.jobs[i] in m.jobs;
          return;
        }
        LocatedMore(m.jobs, i);
      }
      assert m.jobs[..|m.jobs|] == m.jobs;
      return None;
    }
  }

  lemma LocatedMore(jobs: seq<Job>, i: nat)
    requires i < |jobs|
    ensures Located(jobs[..i + 1]) == Located(jobs[..i]) + jobs[i].locations.Keys
  {
    assert jobs[..i + 1] == jobs[..i] + [jobs[i]];
  }
}
