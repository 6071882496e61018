/** Lazy inputs: attached, or registered until exactly one notification. */
module ProtocolLazy {
  import opened Wrappers
  import opened TaskGraphs
  import opened Protocol

  predicate Noticed(c: Coord, n: NodeId, t: TensorId) {
    exists m :: m in c.notices && m.node == n && m.tensor == t
  }

  /** No task is told twice of the same tensor. */
  ghost predicate OncePerTensor(notices: seq<Notice>) {
    forall i, j | 0 <= i < j < |notices| :: notices[i].node != notices[j].node || notices[i].tensor != notices[j].tensor
  }

  ghost predicate NoticesOk(c: Coord) {
    forall m | m in c.notices ::
      && m.node in c.sent && m.worker == c.sent[m.node].worker && m.tensor in c.sent[m.node].waiting
      && m.tensor in c.holders && m.source in c.holders[m.tensor]
  }

  ghost predicate WaitersOk(c: Coord) {
    forall t, p | t in c.waiters && p in c.waiters[t] ::
      p.0 in c.sent && p.1 == c.sent[p.0].worker && t in c.sent[p.0].waiting && !Noticed(c, p.0, t)
  }

  ghost predicate NotifiesOk(c: Coord) {
    forall p | p in c.notifies :: p.0 in c.holders && p.1 in c.holders[p.0]
  }

  predicate NotifyPending(c: Coord, t: TensorId) {
    exists p :: p in c.notifies && p.0 == t
  }

  /** A registered tensor that has arrived has a notification under way. */
  ghost predicate WillBeNotified(c: Coord) {
    forall t | t in c.waiters && c.waiters[t] != {} && t in c.holders :: NotifyPending(c, t)
  }

  /** What a sent task waits for is registered or has been notified. */
  ghost predicate NotForgotten(c: Coord) {
    forall n, t | n in c.sent && t in c.sent[n].waiting :: (n, c.sent[n].worker) in WaitersOf(c, t) || Noticed(c, n, t)
  }

  ghost predicate LazyOk(c: Coord) {
    OncePerTensor(c.notices) && NoticesOk(c) && WaitersOk(c) && NotifiesOk(c) && WillBeNotified(c) && NotForgotten(c)
  }

  /**
   * No wake-up is lost or doubled: a lazy input of a sent task was attached, or is registered and
   * not yet arrived or about to be notified, or was notified exactly once.
   */
  lemma LazyTrichotomy(g: Graph, c: Coord, n: NodeId, t: TensorId)
    requires LazyOk(c) && n in c.sent && n in g && t in LazySet(g[n])
    requires ReadSet(g[n]) <= c.sent[n].locations.Keys + c.sent[n].waiting
               && c.sent[n].waiting !! c.sent[n].locations.Keys
    ensures var attached, registered, notified := t in c.sent[n].locations, (n, c.sent[n].worker) in WaitersOf(c, t),
              Noticed(c, n, t);
            && (attached || registered || notified)
            && !(attached && registered) && !(attached && notified) && !(registered && notified)
            && (registered && t in c.holders ==> NotifyPending(c, t))
    ensures forall i, j | 0 <= i < |c.notices| && 0 <= j < |c.notices| && c.notices[i].node == c.notices[j].node == n
                          && c.notices[i].tensor == c.notices[j].tensor == t :: i == j
  {
    assert t in ReadSet(g[n]);
    if Noticed(c, n, t) {
      var m :| m in c.notices && m.node == n && m.tensor == t;
    }
  }

  // ---------------------------------------------------------------- steps

  lemma DispatchLazy(g: Graph, c: Coord, w: Worker, group: seq<NodeId>)
    requires LazyOk(c) && forall n | n in group :: n in g && n !in c.sent
    ensures LazyOk(Dispatch(g, c, w, group))
  {
    var c' := Dispatch(g, c, w, group);
    forall t ensures WaitersOf(c', t) == WaitersOf(c, t) + NewWaiters(g, c, w, group, t) {
      if t !in c'.waiters {
        forall n | n in group && n in g ensures !(t in LazySet(g[n]) && t !in c.holders) {
          assert t !in Awaited(g, c, group);
        }
      }
    }
    forall n, t ensures Noticed(c', n, t) <==> Noticed(c, n, t) {}
    DispatchWaiters(g, c, w, group);
    forall n, t | n in c'.sent && t in c'.sent[n].waiting
      ensures (n, c'.sent[n].worker) in WaitersOf(c', t) || Noticed(c', n, t)
    {
      if n in group { assert (n, w) in NewWaiters(g, c, w, group, t); }
    }
  }

  lemma DispatchWaiters(g: Graph, c: Coord, w: Worker, group: seq<NodeId>)
    requires LazyOk(c) && forall n | n in group :: n in g && n !in c.sent
    ensures WaitersOk(Dispatch(g, c, w, group)) && WillBeNotified(Dispatch(g, c, w, group))
  {
    hide Dispatch, NewWaiters, WaitersOf, NotForgotten, Noticed, NoticesOk, OncePerTensor, NotifyPending, NotifiesOk;
    var c' := Dispatch(g, c, w, group);
    DispatchFields(g, c, w, group);
    forall t, p | t in c'.waiters && p in c'.waiters[t]
      ensures p.0 in c'.sent && p.1 == c'.sent[p.0].worker && t in c'.sent[p.0].waiting && !Noticed(c', p.0, t)
    {
      DispatchWaiter(g, c, w, group, t, p);
    }
    forall t | t in c'.waiters && c'.waiters[t] != {} && t in c'.holders ensures NotifyPending(c', t) {
      DispatchPending(g, c, w, group, t);
    }
  }

  lemma DispatchFields(g: Graph, c: Coord, w: Worker, group: seq<NodeId>)
    requires forall n | n in group :: n in g
    ensures var c' := Dispatch(g, c, w, group);
            && c'.holders == c.holders && c'.notifies == c.notifies && c'.notices == c.notices
            && forall t | t in c'.waiters :: c'.waiters[t] == WaitersOf(c, t) + NewWaiters(g, c, w, group, t)
  {
    hide Awaited, NewWaiters, WaitersOf, JobFor, Without;
  }

  lemma DispatchPending(g: Graph, c: Coord, w: Worker, group: seq<NodeId>, t: TensorId)
    requires WillBeNotified(c) && t in c.holders && WaitersOf(c, t) + NewWaiters(g, c, w, group, t) != {}
    requires forall n | n in group :: n in g
    ensures NotifyPending(Dispatch(g, c, w, group), t)
  {
    hide NotifyPending;
    assert NewWaiters(g, c, w, group, t) == {};
    DispatchFields(g, c, w, group);
    PendingSame(c, Dispatch(g, c, w, group), t);
  }

  lemma PendingSame(c: Coord, c': Coord, t: TensorId)
    requires c'.notifies == c.notifies
    ensures NotifyPending(c', t) == NotifyPending(c, t)
  {
  }

  lemma DispatchWaiter(g: Graph, c: Coord, w: Worker, group: seq<NodeId>, t: TensorId, p: (NodeId, Worker))
    requires NoticesOk(c) && WaitersOk(c) && forall n | n in group :: n in g && n !in c.sent
    requires p in WaitersOf(c, t) + NewWaiters(g, c, w, group, t)
    ensures var c' := Dispatch(g, c, w, group);
            p.0 in c'.sent && p.1 == c'.sent[p.0].worker && t in c'.sent[p.0].waiting && !Noticed(c', p.0, t)
  {
    if p in WaitersOf(c, t) {
      assert !Noticed(c, p.0, t);
    } else {
      assert p.0 in group && p.0 !in c.sent;
    }
  }

  lemma ReceiveLazy(c: Coord, w: Worker, t: TensorId)
    requires LazyOk(c)
    ensures LazyOk(ReceiveTensor(c, w, t))
  {
    var c' := ReceiveTensor(c, w, t);
    forall n, u ensures Noticed(c', n, u) <==> Noticed(c, n, u) {}
    forall u | u in c'.waiters && c'.waiters[u] != {} && u in c'.holders ensures NotifyPending(c', u) {
      if u == t {
        assert (t, w) in c'.notifies;
      } else {
        assert NotifyPending(c, u);
        var p :| p in c.notifies && p.0 == u;
        assert p in c'.notifies;
      }
    }
  }

  lemma NoticedAfter(c: Coord, t: TensorId, source: Worker, listing: seq<Notice>, n: NodeId, u: TensorId)
    requires Lists(listing, NoticesFor(c, t, source))
    ensures Noticed(Notify(c, t, source, listing), n, u) <==>
              Noticed(c, n, u) || (u == t && exists w :: (n, w) in WaitersOf(c, t))
  {
    var c' := Notify(c, t, source, listing);
    if Noticed(c', n, u) {
      var m :| m in c'.notices && m.node == n && m.tensor == u;
      if m in listing {
        assert m in NoticesFor(c, t, source);
        assert (n, m.worker) in WaitersOf(c, t);
      }
    }
    if u == t && exists w :: (n, w) in WaitersOf(c, t) {
      var w :| (n, w) in WaitersOf(c, t);
      assert Notice(n, w, t, source) in NoticesFor(c, t, source);
      assert Notice(n, w, t, source) in c'.notices;
    }
    if Noticed(c, n, u) {
      var m :| m in c.notices && m.node == n && m.tensor == u;
      assert m in c'.notices;
    }
  }

  /** Each registered task has one entry, so one notice: workers are a function of tasks. */
  lemma NotifyOnce(c: Coord, t: TensorId, source: Worker, listing: seq<Notice>)
    requires LazyOk(c) && Lists(listing, NoticesFor(c, t, source))
    ensures OncePerTensor(c.notices + listing)
  {
    forall i, j | 0 <= i < j < |c.notices + listing|
      ensures (c.notices + listing)[i].node != (c.notices + listing)[j].node
                || (c.notices + listing)[i].tensor != (c.notices + listing)[j].tensor
    {
      if j >= |c.notices| {
        var m' := listing[j - |c.notices|];
        assert m' in listing && m' in NoticesFor(c, t, source);
        assert (m'.node, m'.worker) in WaitersOf(c, t);
        if i >= |c.notices| {
          var m := listing[i - |c.notices|];
          assert m in listing && m in NoticesFor(c, t, source) && (m.node, m.worker) in WaitersOf(c, t);
        } else {
          assert c.notices[i] in c.notices;
        }
      }
    }
  }

  lemma NotifyLazy(c: Coord, t: TensorId, source: Worker, listing: seq<Notice>)
    requires LazyOk(c) && (t, source) in c.notifies && Lists(listing, NoticesFor(c, t, source))
    ensures LazyOk(Notify(c, t, source, listing))
  {
    hide Lists, NoticesFor, Noticed, OncePerTensor, NoticesOk, NotifiesOk, WillBeNotified;
    var c' := Notify(c, t, source, listing);
    NotifyOnce(c, t, source, listing);
    forall n, u ensures Noticed(c', n, u) <==> Noticed(c, n, u) || (u == t && exists w :: (n, w) in WaitersOf(c, t)) {
      NoticedAfter(c, t, source, listing, n, u);
    }
    NotifyNotices(c, t, source, listing);
    NotifyPendings(c, t, source, listing);
  }

  lemma NotifyNotices(c: Coord, t: TensorId, source: Worker, listing: seq<Notice>)
    requires LazyOk(c) && (t, source) in c.notifies && Lists(listing, NoticesFor(c, t, source))
    ensures NoticesOk(Notify(c, t, source, listing))
  {
    var c' := Notify(c, t, source, listing);
    forall m | m in c'.notices
      ensures m.node in c'.sent && m.worker == c'.sent[m.node].worker && m.tensor in c'.sent[m.node].waiting
              && m.tensor in c'.holders && m.source in c'.holders[m.tensor]
    {
      if m in listing {
        assert m in NoticesFor(c, t, source);
        assert (m.node, m.worker) in WaitersOf(c, t) && t in c.waiters;
      }
    }
  }

  lemma NotifyPendings(c: Coord, t: TensorId, source: Worker, listing: seq<Notice>)
    requires LazyOk(c) && (t, source) in c.notifies
    ensures NotifiesOk(Notify(c, t, source, listing)) && WillBeNotified(Notify(c, t, source, listing))
  {
    var c' := Notify(c, t, source, listing);
    forall p | p in c'.notifies ensures p in c.notifies {}
    forall u | u in c'.waiters && c'.waiters[u] != {} && u in c'.holders ensures NotifyPending(c', u) {
      assert NotifyPending(c, u);
      var p :| p in c.notifies && p.0 == u;
      assert p in c'.notifies;
    }
  }

  /** Steps that leave the lazy tables alone. */
  lemma SameLazy(c: Coord, c': Coord)
    requires LazyOk(c) && c'.notices == c.notices && c'.waiters == c.waiters && c'.notifies == c.notifies
    requires c'.sent == c.sent && c'.holders == c.holders
    ensures LazyOk(c')
  {
    forall n, t ensures Noticed(c', n, t) <==> Noticed(c, n, t) {}
    forall t ensures NotifyPending(c', t) <==> NotifyPending(c, t) {}
  }
}
