/** Where the concurrent-writeback protocol falls short of its intent, and exactly when. */
module CwbLimits {
  import opened CwbProtocol
  import opened CwbInvariant
  import opened CwbTheorems

  // ------------------------------------------------ a failed post that stays queued

  /** The post was refused by the driver and has returned, yet its node is still queued. */
  predicate Orphan(s: State, n: nat) {
    n < |s.calls| && s.calls[n].phase == Failed(Driver) && n in s.queue
  }

  /** A post refused by the driver takes its node out again exactly when that is the last of the queue then;
      otherwise the queue is left as it was and the node stays behind. */
  lemma RollbackRemovesExactlyBack(es: seq<Event>, c: nat)
    requires Runs(EMPTY, es) && Enabled(Exec(EMPTY, es), Rollback(c))
    requires Exec(EMPTY, es).calls[c].phase.reason.Driver?
    ensures var s := Exec(EMPTY, es);
      var t := Apply(s, Rollback(c));
      && |s.queue| > 0
      && (Orphan(t, c) <==> s.queue[|s.queue| - 1] != c)
      && (!Orphan(t, c) <==> s.queue == t.queue + [c])
      && (Orphan(t, c) <==> t.queue == s.queue)
  {
    ReachableInv(es);
    RollbackOutcome(Exec(EMPTY, es), c);
  }

  lemma RollbackOutcome(s: State, c: nat)
    requires CallsOk(s) && Conserved(s) && Enabled(s, Rollback(c)) && s.calls[c].phase.reason.Driver?
    ensures var t := Apply(s, Rollback(c));
      && |s.queue| > 0
      && (Orphan(t, c) <==> s.queue[|s.queue| - 1] != c)
      && (!Orphan(t, c) <==> s.queue == t.queue + [c])
      && (Orphan(t, c) <==> t.queue == s.queue)
  {
    assert CallOk(s, c);
    LiveDistinct(s);
    RollbackPops(s, c);
  }

  lemma RollbackPops(s: State, c: nat)
    requires c in s.queue && Distinct(s.queue) && Enabled(s, Rollback(c)) && s.calls[c].phase.reason.Driver?
    ensures var t := RollbackNode(s, c);
      && t.calls[c].phase == Failed(Driver)
      && (s.queue[|s.queue| - 1] == c ==> s.queue == t.queue + [c] && c !in t.queue)
      && (s.queue[|s.queue| - 1] != c ==> t.queue == s.queue)
  {
    var t := RollbackNode(s, c);
    if s.queue[|s.queue| - 1] == c {
      assert s.queue == t.queue + [c];
    }
  }

  lemma OrphanWorkerStep(s: State, e: Event, n: nat)
    requires Ids(s) && WorkersOk(s) && WorkerSees(s) && Enabled(s, e) && (e.Wake? || e.Look? || e.Notify?)
    requires |s.queue| > 0 && s.queue[0] == n && !s.calls[n].completed
    ensures var t := Apply(s, e);
      t.queue == s.queue && t.calls == s.calls && t.delivered + InHand(t) == s.delivered + InHand(s)
  {
    assert e.worker == |s.workers| - 1;
  }

  lemma OrphanStep(s: State, e: Event, n: nat)
    requires Inv(s) && Enabled(s, e) && Orphan(s, n) && s.queue[0] == n
    ensures var t := Apply(s, e);
      Orphan(t, n) && t.queue[0] == n && t.delivered + InHand(t) == s.delivered + InHand(s)
  {
    assert CallOk(s, n);
    if e.Wake? || e.Look? || e.Notify? {
      OrphanWorkerStep(s, e, n);
    } else {
      OrphanOtherStep(s, e, n);
    }
  }

  lemma OrphanOtherStep(s: State, e: Event, n: nat)
    requires Enabled(s, e) && !e.Wake? && !e.Look? && !e.Notify?
    requires WorkersOk(s) && Orphan(s, n) && s.queue[0] == n
    ensures var t := Apply(s, e);
      Orphan(t, n) && t.queue[0] == n && t.delivered == s.delivered && InHand(t) == InHand(s)
  {
    match e
    case Rollback(c) => OrphanRollback(s, c, n);
    case Finish(c) => OrphanFinish(s, c, n);
    case CwbDone(handle, status, wake) => OrphanDone(s, handle, status, wake, n);
    case Begin(_, _) =>
    case Push(_) =>
    case DriverReply(_, _) =>
    case CloseBuffer(_) =>
  }

  lemma OrphanRollback(s: State, c: nat, n: nat)
    requires Enabled(s, Rollback(c)) && Orphan(s, n) && s.queue[0] == n
    ensures var t := RollbackNode(s, c);
      Orphan(t, n) && t.queue[0] == n && t.delivered == s.delivered && InHand(t) == InHand(s)
  {
    assert c != n;
  }

  lemma OrphanFinish(s: State, c: nat, n: nat)
    requires Enabled(s, Finish(c)) && WorkersOk(s) && Orphan(s, n) && s.queue[0] == n
    ensures var t := FinishCall(s, c);
      Orphan(t, n) && t.queue[0] == n && t.delivered == s.delivered && InHand(t) == InHand(s)
  {
  }

  lemma OrphanDone(s: State, handle: nat, status: int, wake: nat, n: nat)
    requires Enabled(s, CwbDone(handle, status, wake)) && Orphan(s, n) && s.queue[0] == n
    ensures var t := NotifyDone(s, handle, status, wake);
      Orphan(t, n) && t.queue[0] == n && t.delivered == s.delivered && InHand(t) == InHand(s)
  {
  }

  /** An orphan at the front blocks the display for good: whatever happens later it stays at the front,
      so the client never hears about another node than the one the worker already held. */
  lemma {:induction false} OrphanBlocksForever(s: State, es: seq<Event>, n: nat)
    requires Inv(s) && Runs(s, es) && Orphan(s, n) && s.queue[0] == n
    ensures var t := Exec(s, es);
      && Orphan(t, n) && t.queue[0] == n
      && t.delivered + InHand(t) == s.delivered + InHand(s)
    decreases |es|
  {
    if |es| == 0 {
    } else {
      OrphanStep(s, es[0], n);
      StepKeeps(s, es[0]);
      OrphanBlocksForever(Apply(s, es[0]), es[1..], n);
    }
  }

  lemma StillQueued(queue: seq<nat>, n: nat)
    requires n in queue
    ensures queue[|queue| - 1] != n ==> n in queue[..|queue| - 1]
    ensures queue[0] != n ==> n in queue[1..]
  {
    var i :| 0 <= i < |queue| && queue[i] == n;
    assert i < |queue| - 1 ==> queue[..|queue| - 1][i] == n;
    assert i > 0 ==> queue[1..][i - 1] == n;
  }

  lemma OrphanStaysStep(s: State, e: Event, n: nat)
    requires Ids(s) && CallsOk(s) && WorkersOk(s) && WorkerSees(s) && Enabled(s, e) && Orphan(s, n)
    ensures Orphan(Apply(s, e), n)
  {
    assert CallOk(s, n);
    if e.Wake? || e.Look? {
      OrphanStaysWorker(s, e, n);
    } else {
      OrphanStaysOther(s, e, n);
    }
  }

  lemma OrphanStaysWorker(s: State, e: Event, n: nat)
    requires Ids(s) && WorkersOk(s) && WorkerSees(s) && Enabled(s, e) && (e.Wake? || e.Look?)
    requires Orphan(s, n) && !s.calls[n].completed
    ensures Orphan(Apply(s, e), n)
  {
    assert e.worker == |s.workers| - 1;
    StillQueued(s.queue, n);
  }

  lemma OrphanStaysOther(s: State, e: Event, n: nat)
    requires Enabled(s, e) && !e.Wake? && !e.Look? && Orphan(s, n)
    ensures Orphan(Apply(s, e), n)
  {
    StillQueued(s.queue, n);
  }

  /** Wherever in the queue an orphan is, it stays queued in every run. */
  lemma {:induction false} OrphanStays(s: State, es: seq<Event>, n: nat)
    requires Inv(s) && Runs(s, es) && Orphan(s, n)
    ensures Inv(Exec(s, es)) && Orphan(Exec(s, es), n)
    decreases |es|
  {
    if |es| == 0 {
    } else {
      OrphanStaysStep(s, es[0], n);
      StepKeeps(s, es[0]);
      OrphanStays(Apply(s, es[0]), es[1..], n);
    }
  }

  /** Leaving elements out keeps the order of the others. */
  lemma {:induction false} WithoutOrder(a: seq<nat>, drop: set<nat>, i: nat, j: nat) returns (p: nat, q: nat)
    requires i < j < |a| && a[i] !in drop && a[j] !in drop
    ensures p < q < |Without(a, drop)| && Without(a, drop)[p] == a[i] && Without(a, drop)[q] == a[j]
    decreases |a|
  {
    var front := a[..|a| - 1];
    if j < |a| - 1 {
      p, q := WithoutOrder(front, drop, i, j);
    } else {
      assert front[i] in Without(front, drop);
      p :| 0 <= p < |Without(front, drop)| && Without(front, drop)[p] == a[i];
      q := |Without(front, drop)|;
    }
  }

  /** No node pushed behind an orphan, before or after it was left behind, is ever delivered: not even taken
      up by the worker. */
  lemma BehindOrphanNeverDelivered(s: State, es: seq<Event>, n: nat, i: nat, j: nat)
    requires Inv(s) && Runs(s, es) && Orphan(s, n)
    requires i < j < |Exec(s, es).pushed| && Exec(s, es).pushed[i] == n
    ensures var t := Exec(s, es); t.pushed[j] !in t.delivered && t.pushed[j] !in InHand(t)
  {
    OrphanStays(s, es, n);
    BehindQueued(Exec(s, es), n, i, j);
  }

  lemma BehindQueued(s: State, n: nat, i: nat, j: nat)
    requires Conserved(s) && n in s.queue && i < j < |s.pushed| && s.pushed[i] == n
    ensures s.pushed[j] !in s.delivered && s.pushed[j] !in InHand(s)
  {
    LiveDistinct(s);
    if s.pushed[j] in s.delivered + InHand(s) {
      var p, q := WithoutOrder(s.pushed, s.dropped, i, j);
    }
  }

  /** Two overlapping posts of different buffers, the first of which the driver refuses. */
  const OVERLAP := [Begin(7, true), Begin(8, true), Push(0), Push(1), DriverReply(0, false), CloseBuffer(0),
                    Rollback(0)]

  /** Step `i` of `es`, run from `s`, leads to `t`. */
  predicate Leads(s: State, es: seq<Event>, i: nat, t: State)
    requires i < |es|
  {
    Enabled(s, es[i]) && Apply(s, es[i]) == t
  }

  lemma Prepend(s: State, es: seq<Event>, i: nat, t: State)
    requires i < |es| && Leads(s, es, i, t) && Runs(t, es[i + 1..])
    ensures Runs(s, es[i..]) && Exec(s, es[i..]) == Exec(t, es[i + 1..])
  {
    assert es[i..][0] == es[i] && es[i..][1..] == es[i + 1..];
  }

  const FIRST := Call(7, true, NotYet, false, Created)
  const SECOND := Call(8, true, NotYet, false, Created)
  const BEGUN := EMPTY.(calls := [FIRST, SECOND])
  const BOTH_QUEUED := EMPTY.(calls := [FIRST.(phase := Queued), SECOND.(phase := Queued)], queue := [0, 1],
                              pushed := [0, 1])
  const FIRST_CLOSED := BOTH_QUEUED.(calls := [FIRST.(phase := Closed(Driver)), SECOND.(phase := Queued)],
                                     closes := [0])
  const FIRST_FAILED := FIRST_CLOSED.(calls := [FIRST.(phase := Failed(Driver)), SECOND.(phase := Queued)])

  lemma OverlapPushes()
    ensures Leads(EMPTY, OVERLAP, 0, EMPTY.(calls := [FIRST]))
    ensures Leads(EMPTY.(calls := [FIRST]), OVERLAP, 1, BEGUN)
    ensures var one := BEGUN.(calls := [FIRST.(phase := Queued), SECOND], queue := [0], pushed := [0]);
      Leads(BEGUN, OVERLAP, 2, one) && Leads(one, OVERLAP, 3, BOTH_QUEUED)
  {
  }

  lemma OverlapRefusal()
    ensures var refused := BOTH_QUEUED.(calls := [FIRST.(phase := Refused(Driver)), SECOND.(phase := Queued)]);
      Leads(BOTH_QUEUED, OVERLAP, 4, refused) && Leads(refused, OVERLAP, 5, FIRST_CLOSED)
    ensures Leads(FIRST_CLOSED, OVERLAP, 6, FIRST_FAILED)
  {
  }

  lemma OverlapTail()
    ensures Runs(BOTH_QUEUED, OVERLAP[4..]) && Exec(BOTH_QUEUED, OVERLAP[4..]) == FIRST_FAILED
  {
    OverlapRefusal();
    assert OVERLAP[7..] == [];
    Prepend(FIRST_CLOSED, OVERLAP, 6, FIRST_FAILED);
    var refused := BOTH_QUEUED.(calls := [FIRST.(phase := Refused(Driver)), SECOND.(phase := Queued)]);
    Prepend(refused, OVERLAP, 5, FIRST_CLOSED);
    Prepend(BOTH_QUEUED, OVERLAP, 4, refused);
  }

  /** Such a run reaches a state with an orphan at the front. */
  lemma OverlapLeavesOrphan()
    ensures Runs(EMPTY, OVERLAP)
    ensures var s := Exec(EMPTY, OVERLAP); Orphan(s, 0) && s.queue == [0, 1]
  {
    OverlapPushes();
    OverlapTail();
    assert OVERLAP[0..] == OVERLAP;
    var one := BEGUN.(calls := [FIRST.(phase := Queued), SECOND], queue := [0], pushed := [0]);
    Prepend(one, OVERLAP, 3, BOTH_QUEUED);
    Prepend(BEGUN, OVERLAP, 2, one);
    Prepend(EMPTY.(calls := [FIRST]), OVERLAP, 1, BEGUN);
    Prepend(EMPTY, OVERLAP, 0, EMPTY.(calls := [FIRST]));
  }

  // ------------------------------------------------ back() of an empty deque

  lemma WorkerMeetsNode(s: State, e: Event)
    requires Ids(s) && WorkersOk(s) && WorkerSees(s) && Enabled(s, e) && (e.Wake? || e.Look?)
    ensures !Apply(s, e).fault
  {
    assert e.worker == |s.workers| - 1;
  }

  lemma RollbackMeetsNode(s: State, c: nat)
    requires CallsOk(s) && Enabled(s, Rollback(c))
    ensures Apply(s, Rollback(c)).fault <==> s.calls[c].phase.reason.Duplicate? && s.queue == []
  {
    assert CallOk(s, c);
  }

  /** The rollback section looks at back() of an empty deque exactly when the post was refused as a
      duplicate and the queue has been drained since; no other step ever meets an empty deque. */
  lemma EmptyDequeExactly(es: seq<Event>, e: Event)
    requires Runs(EMPTY, es) && Enabled(Exec(EMPTY, es), e)
    ensures var s := Exec(EMPTY, es);
      Apply(s, e).fault <==> (e.Rollback? && s.calls[e.call].phase.reason.Duplicate? && s.queue == [])
  {
    ReachableInv(es);
    if e.Wake? || e.Look? {
      WorkerMeetsNode(Exec(EMPTY, es), e);
    } else if e.Rollback? {
      RollbackMeetsNode(Exec(EMPTY, es), e.call);
    }
  }

  /** A post of a queued buffer is refused; the queued one completes and drains before the rollback. */
  const DRAINED := [Begin(5, true), Push(0), Begin(5, true), Push(1), CloseBuffer(1), DriverReply(0, true), Finish(0),
                    CwbDone(5, 0, 0), Look(0), Rollback(1)]

  const POST := Call(5, true, NotYet, false, Created)
  const AGAIN := Call(5, true, NotYet, false, Refused(Duplicate))
  const POST_QUEUED := EMPTY.(calls := [POST.(phase := Queued)], queue := [0], pushed := [0])
  const AGAIN_REFUSED := POST_QUEUED.(calls := [POST.(phase := Queued), AGAIN])
  const AGAIN_CLOSED := AGAIN_REFUSED.(calls := [POST.(phase := Queued), AGAIN.(phase := Closed(Duplicate))],
                                       closes := [1])
  const POST_DONE := AGAIN_CLOSED.(calls := [POST.(phase := Done, completed := true),
                                            AGAIN.(phase := Closed(Duplicate))],
                                   running := true, workers := [Running])
  const POST_NOTIFIED := POST_DONE.(calls := [POST.(phase := Done, completed := true, notified := Success),
                                            AGAIN.(phase := Closed(Duplicate))])
  const POST_POPPED := POST_NOTIFIED.(queue := [], workers := [Notifying(0)])
  const BACK_OF_EMPTY := POST_POPPED.(calls := [POST.(phase := Done, completed := true, notified := Success),
                                             AGAIN.(phase := Failed(Duplicate))], fault := true)

  lemma DrainedPosts()
    ensures Leads(EMPTY, DRAINED, 0, EMPTY.(calls := [POST]))
    ensures Leads(EMPTY.(calls := [POST]), DRAINED, 1, POST_QUEUED)
    ensures var both := POST_QUEUED.(calls := [POST.(phase := Queued), POST]);
      Leads(POST_QUEUED, DRAINED, 2, both) && Leads(both, DRAINED, 3, AGAIN_REFUSED)
    ensures Leads(AGAIN_REFUSED, DRAINED, 4, AGAIN_CLOSED)
  {
    var both := POST_QUEUED.(calls := [POST.(phase := Queued), POST]);
    assert both.calls[both.queue[0]].handleId == 5;
  }

  lemma DrainedAccepts()
    ensures var accepted := AGAIN_CLOSED.(calls := [POST.(phase := Accepted), AGAIN.(phase := Closed(Duplicate))]);
      Leads(AGAIN_CLOSED, DRAINED, 5, accepted) && Leads(accepted, DRAINED, 6, POST_DONE)
  {
  }

  lemma DrainedDelivers()
    ensures Leads(POST_DONE, DRAINED, 7, POST_NOTIFIED)
    ensures Leads(POST_NOTIFIED, DRAINED, 8, POST_POPPED)
    ensures Leads(POST_POPPED, DRAINED, 9, BACK_OF_EMPTY)
  {
    assert !SomeWaiting(POST_DONE.workers);
    assert FindPending(POST_DONE.queue, POST_DONE.calls, 5, 0) == 0;
    assert POST_POPPED.queue == POST_NOTIFIED.queue[1..];
  }

  lemma DrainedTail()
    ensures Runs(AGAIN_CLOSED, DRAINED[5..]) && Exec(AGAIN_CLOSED, DRAINED[5..]).fault
  {
    DrainedAccepts();
    DrainedDelivers();
    assert DRAINED[10..] == [];
    Prepend(POST_POPPED, DRAINED, 9, BACK_OF_EMPTY);
    Prepend(POST_NOTIFIED, DRAINED, 8, POST_POPPED);
    Prepend(POST_DONE, DRAINED, 7, POST_NOTIFIED);
    var accepted := AGAIN_CLOSED.(calls := [POST.(phase := Accepted), AGAIN.(phase := Closed(Duplicate))]);
    Prepend(accepted, DRAINED, 6, POST_DONE);
    Prepend(AGAIN_CLOSED, DRAINED, 5, accepted);
  }

  lemma DrainedMiddle()
    ensures Runs(POST_QUEUED, DRAINED[2..]) && Exec(POST_QUEUED, DRAINED[2..]).fault
  {
    DrainedPosts();
    DrainedTail();
    Prepend(AGAIN_REFUSED, DRAINED, 4, AGAIN_CLOSED);
    var both := POST_QUEUED.(calls := [POST.(phase := Queued), POST]);
    Prepend(both, DRAINED, 3, AGAIN_REFUSED);
    Prepend(POST_QUEUED, DRAINED, 2, both);
  }

  /** Such a run makes the rollback section call back() on an empty deque. */
  lemma DrainedDuplicateFaults()
    ensures Runs(EMPTY, DRAINED) && Exec(EMPTY, DRAINED).fault
  {
    DrainedPosts();
    DrainedMiddle();
    assert DRAINED[0..] == DRAINED;
    Prepend(EMPTY.(calls := [POST]), DRAINED, 1, POST_QUEUED);
    Prepend(EMPTY, DRAINED, 0, EMPTY.(calls := [POST]));
  }

  // ------------------------------------------------ completions

  /** OnCWBDone returns 0 exactly when an un-notified node of that handle is queued; then that node,
      which is the only one, gets the verdict and every other node keeps its own.  Otherwise nothing
      changes. */
  lemma DoneMarksTheOneNode(es: seq<Event>, handle: nat, status: int, wake: nat)
    requires Runs(EMPTY, es) && Enabled(Exec(EMPTY, es), CwbDone(handle, status, wake))
    ensures var s := Exec(EMPTY, es);
      var t := Apply(s, CwbDone(handle, status, wake));
      && (DoneFound(s, handle) <==>
           exists i :: 0 <= i < |s.queue| &&
             s.calls[s.queue[i]].handleId == handle && s.calls[s.queue[i]].notified.NotYet?)
      && (!DoneFound(s, handle) ==> t == s)
      && t.queue == s.queue && |t.calls| == |s.calls|
      && (forall i :: 0 <= i < |s.queue| ==>
            t.calls[s.queue[i]].notified ==
            if s.calls[s.queue[i]].handleId == handle && s.calls[s.queue[i]].notified.NotYet?
            then (if status == 0 then Success else Failure)
            else s.calls[s.queue[i]].notified)
  {
    ReachableInv(es);
    var s := Exec(EMPTY, es);
    LiveDistinct(s);
    var k := FindPending(s.queue, s.calls, handle, 0);
    if k < |s.queue| {
      assert s.calls[s.queue[k]].handleId == handle;
    }
  }

  lemma VerdictStep(s: State, e: Event, n: nat)
    requires Enabled(s, e) && n < |s.calls|
    ensures var t := Apply(s, e);
      n < |t.calls| && (!s.calls[n].notified.NotYet? ==> t.calls[n].notified == s.calls[n].notified) &&
      (s.calls[n].completed ==> t.calls[n].completed)
  {
  }

  /** Once a node has a verdict or is completed, no later step takes that back. */
  lemma {:induction false} VerdictIsFinal(s: State, es: seq<Event>, n: nat)
    requires Inv(s) && Runs(s, es) && n < |s.calls|
    ensures var t := Exec(s, es);
      n < |t.calls| && (!s.calls[n].notified.NotYet? ==> t.calls[n].notified == s.calls[n].notified) &&
      (s.calls[n].completed ==> t.calls[n].completed)
    decreases |es|
  {
    if |es| == 0 {
    } else {
      VerdictStep(s, es[0], n);
      StepKeeps(s, es[0]);
      VerdictIsFinal(Apply(s, es[0]), es[1..], n);
    }
  }
}
