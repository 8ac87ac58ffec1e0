/** Every step of the concurrent-writeback protocol keeps its invariant. */
module CwbInvariant {
  import opened CwbProtocol

  // ------------------------------------------------ a new call

  lemma BeginCalls(s: State, handleId: nat, hasCallback: bool)
    requires CallsOk(s) && Ids(s) && Conserved(s) && Below(s.closes, |s.calls|) && Below(s.delivered, |s.calls|)
    ensures CallsOk(BeginCall(s, handleId, hasCallback))
  {
    var t := BeginCall(s, handleId, hasCallback);
    forall n | 0 <= n < |t.calls| ensures CallOk(t, n) {
      if n < |s.calls| { assert CallOk(s, n); }
    }
  }

  lemma BeginKeeps(s: State, handleId: nat, hasCallback: bool)
    requires Inv(s)
    ensures Inv(BeginCall(s, handleId, hasCallback))
  {
    BeginCalls(s, handleId, hasCallback);
    BeginQueue(s, handleId, hasCallback);
    OwedStable(s.delivered, s.calls, BeginCall(s, handleId, hasCallback).calls);
  }

  lemma BeginQueue(s: State, handleId: nat, hasCallback: bool)
    requires Ids(s) && WorkersOk(s) && WorkerSees(s) && QueueOk(s)
    ensures var t := BeginCall(s, handleId, hasCallback); Ids(t) && WorkersOk(t) && WorkerSees(t) && QueueOk(t)
  {
  }

  // ------------------------------------------------ a phase change that moves nothing

  /** The phase `p` fits where node and buffer `c` are. */
  ghost predicate Fits(s: State, c: nat, p: Phase)
    requires c < |s.calls|
  {
    CallOk(SetPhase(s, c, p), c)
  }

  lemma PhaseCalls(s: State, c: nat, p: Phase)
    requires CallsOk(s) && c < |s.calls| && Fits(s, c, p)
    ensures CallsOk(SetPhase(s, c, p))
  {
    var t := SetPhase(s, c, p);
    forall n | 0 <= n < |t.calls| ensures CallOk(t, n) {
      assert CallOk(s, n);
    }
  }

  lemma PhaseClient(s: State, c: nat, p: Phase)
    requires ClientOk(s) && c < |s.calls|
    ensures ClientOk(SetPhase(s, c, p))
  {
    OwedStable(s.delivered, s.calls, SetPhase(s, c, p).calls);
  }

  lemma PhaseQueue(s: State, c: nat, p: Phase)
    requires Ids(s) && WorkersOk(s) && WorkerSees(s) && QueueOk(s) && c < |s.calls|
    ensures var t := SetPhase(s, c, p); Ids(t) && WorkersOk(t) && WorkerSees(t) && QueueOk(t)
  {
  }

  lemma PhaseConserved(s: State, c: nat, p: Phase)
    requires Conserved(s) && c < |s.calls|
    ensures Conserved(SetPhase(s, c, p))
  {
  }

  lemma PhaseKeeps(s: State, c: nat, p: Phase)
    requires Inv(s) && c < |s.calls| && Fits(s, c, p) && !p.Done? && !s.calls[c].phase.Done?
    ensures Inv(SetPhase(s, c, p))
  {
    PhaseQueue(s, c, p);
    PhaseConserved(s, c, p);
    PhaseCalls(s, c, p);
    PhaseClient(s, c, p);
  }

  // ------------------------------------------------ push

  lemma EnqueueCalls(s: State, c: nat)
    requires CallsOk(s) && Conserved(s) && c < |s.calls| && s.calls[c].phase.Created?
    ensures CallsOk(Enqueue(s, c))
  {
    var t := Enqueue(s, c);
    forall n | 0 <= n < |t.calls| ensures CallOk(t, n) {
      assert CallOk(s, n);
    }
  }

  lemma EnqueueOrder(s: State, c: nat)
    requires Without(s.pushed, s.dropped) == s.delivered + InHand(s) + s.queue && c !in s.dropped && c < |s.calls|
    ensures var t := Enqueue(s, c); Without(t.pushed, t.dropped) == t.delivered + InHand(t) + t.queue
  {
    WithoutAppend(s.pushed, s.dropped, c);
    assert s.delivered + InHand(s) + s.queue + [c] == s.delivered + InHand(s) + (s.queue + [c]);
  }

  lemma DistinctAppend(a: seq<nat>, x: nat)
    requires Distinct(a) && x !in a
    ensures Distinct(a + [x])
  {
  }

  lemma EnqueueConserved(s: State, c: nat)
    requires CallsOk(s) && Conserved(s) && c < |s.calls| && s.calls[c].phase.Created?
    ensures Conserved(Enqueue(s, c))
  {
    assert CallOk(s, c);
    assert c !in s.pushed && c !in s.dropped;
    EnqueueOrder(s, c);
    DistinctAppend(s.pushed, c);
  }

  lemma EnqueueRest(s: State, c: nat)
    requires Ids(s) && WorkersOk(s) && WorkerSees(s) && QueueOk(s)
    requires c < |s.calls| && !s.calls[c].completed
    requires !HandleQueued(s.queue, s.calls, s.calls[c].handleId)
    ensures var t := Enqueue(s, c); Ids(t) && WorkersOk(t) && WorkerSees(t) && QueueOk(t)
  {
  }

  lemma PushKeeps(s: State, c: nat)
    requires Inv(s) && c < |s.calls| && s.calls[c].phase.Created?
    ensures Inv(PushNode(s, c))
  {
    assert CallOk(s, c);
    if HandleQueued(s.queue, s.calls, s.calls[c].handleId) {
      PhaseKeeps(s, c, Refused(Duplicate));
    } else {
      EnqueueCalls(s, c);
      EnqueueConserved(s, c);
      EnqueueRest(s, c);
      PhaseClient(s, c, Queued);
    }
  }

  // ------------------------------------------------ driver reply, close, rollback

  lemma DriverKeeps(s: State, c: nat, ok: bool)
    requires Inv(s) && Enabled(s, DriverReply(c, ok))
    ensures Inv(Apply(s, DriverReply(c, ok)))
  {
    assert CallOk(s, c);
    PhaseKeeps(s, c, if ok then Accepted else Refused(Driver));
  }

  lemma CloseCalls(s: State, c: nat)
    requires CallsOk(s) && c < |s.calls| && s.calls[c].phase.Refused?
    ensures CallsOk(CloseCall(s, c))
  {
    var t := CloseCall(s, c);
    forall n | 0 <= n < |t.calls| ensures CallOk(t, n) {
      assert CallOk(s, n);
    }
  }

  lemma CloseClient(s: State, c: nat)
    requires ClientOk(s) && c < |s.calls| && s.calls[c].phase.Refused? && c !in s.closes
    ensures ClientOk(CloseCall(s, c))
  {
    OwedStable(s.delivered, s.calls, CloseCall(s, c).calls);
  }

  lemma CloseConserved(s: State, c: nat)
    requires Conserved(s) && c < |s.calls| && s.calls[c].phase.Refused?
    ensures Conserved(CloseCall(s, c))
  {
    var t := CloseCall(s, c);
    assert InHand(t) == InHand(s);
    assert |t.calls| == |s.calls|;
  }

  lemma CloseRest(s: State, c: nat)
    requires Ids(s) && WorkersOk(s) && WorkerSees(s) && QueueOk(s) && c < |s.calls| && s.calls[c].phase.Refused?
    ensures var t := CloseCall(s, c); Ids(t) && WorkersOk(t) && WorkerSees(t) && QueueOk(t)
  {
  }

  lemma CloseKeeps(s: State, c: nat)
    requires Inv(s) && c < |s.calls| && s.calls[c].phase.Refused?
    ensures Inv(CloseCall(s, c))
  {
    assert CallOk(s, c);
    CloseCalls(s, c);
    CloseClient(s, c);
    CloseConserved(s, c);
    CloseRest(s, c);
  }

  lemma UnqueueCalls(s: State, c: nat)
    requires CallsOk(s) && Distinct(s.queue) && c < |s.calls| && s.calls[c].phase == Failed(Driver)
    requires |s.queue| > 0 && s.queue[|s.queue| - 1] == c
    ensures CallsOk(Unqueue(s, c))
  {
    var t := Unqueue(s, c);
    assert s.queue == t.queue + [c];
    forall n | 0 <= n < |t.calls| ensures CallOk(t, n) {
      assert CallOk(s, n);
    }
  }

  lemma UnqueueConserved(s: State, c: nat)
    requires Conserved(s) && |s.queue| > 0 && s.queue[|s.queue| - 1] == c
    ensures Conserved(Unqueue(s, c))
  {
    var t := Unqueue(s, c);
    LiveDistinct(s);
    assert c in s.queue;
    var front := s.delivered + InHand(s) + t.queue;
    assert s.delivered + InHand(s) + s.queue == front + [c];
    WithoutMore(s.pushed, s.dropped, front, c);
  }

  lemma UnqueueKeeps(s: State, c: nat)
    requires Inv(s) && c < |s.calls| && s.calls[c].phase == Failed(Driver)
    requires |s.queue| > 0 && s.queue[|s.queue| - 1] == c
    ensures Inv(Unqueue(s, c))
  {
    assert CallOk(s, c);
    LiveDistinct(s);
    UnqueueCalls(s, c);
    UnqueueConserved(s, c);
    UnqueueQueue(s, c);
  }

  lemma UnqueueQueue(s: State, c: nat)
    requires Ids(s) && WorkersOk(s) && WorkerSees(s) && QueueOk(s) && c < |s.calls| && !s.calls[c].completed
    requires |s.queue| > 0 && s.queue[|s.queue| - 1] == c
    ensures var t := Unqueue(s, c); Ids(t) && WorkersOk(t) && WorkerSees(t) && QueueOk(t)
  {
  }

  lemma FailKeeps(s: State, c: nat)
    requires Inv(s) && c < |s.calls| && s.calls[c].phase.Closed?
    ensures Inv(SetPhase(s, c, Failed(s.calls[c].phase.reason)))
  {
    assert CallOk(s, c);
    PhaseKeeps(s, c, Failed(s.calls[c].phase.reason));
  }

  lemma FaultKeeps(s: State)
    requires Inv(s)
    ensures Inv(s.(fault := true))
  {
    FaultCalls(s);
  }

  lemma FaultCalls(s: State)
    requires CallsOk(s)
    ensures CallsOk(s.(fault := true))
  {
    var t := s.(fault := true);
    forall n | 0 <= n < |t.calls| ensures CallOk(t, n) {
      assert CallOk(s, n);
    }
  }

  lemma RollbackKeeps(s: State, c: nat)
    requires Inv(s) && c < |s.calls| && s.calls[c].phase.Closed?
    ensures Inv(RollbackNode(s, c))
  {
    var reason := s.calls[c].phase.reason;
    FailKeeps(s, c);
    var t := SetPhase(s, c, Failed(reason));
    if !reason.NoNode? {
      if |s.queue| == 0 {
        FaultKeeps(t);
      } else if s.queue[|s.queue| - 1] == c {
        OnlyDriverRefusalsQueued(s, c);
        UnqueueKeeps(t, c);
      }
    }
  }

  lemma OnlyDriverRefusalsQueued(s: State, c: nat)
    requires Inv(s) && c < |s.calls| && s.calls[c].phase.Closed? && c in s.queue
    ensures s.calls[c].phase == Closed(Driver)
  {
    LiveDistinct(s);
    assert CallOk(s, c);
  }

  // ------------------------------------------------ acceptance

  lemma FinishCalls(s: State, c: nat)
    requires CallsOk(s) && c < |s.calls| && s.calls[c].phase.Accepted?
    ensures CallsOk(FinishCall(s, c))
  {
    var t := FinishCall(s, c);
    forall n | 0 <= n < |t.calls| ensures CallOk(t, n) {
      assert CallOk(s, n);
    }
  }

  lemma FinishRest(s: State, c: nat)
    requires Ids(s) && WorkersOk(s) && WorkerSees(s) && QueueOk(s)
    requires c < |s.calls| && |s.queue| > 0
    ensures var t := FinishCall(s, c); Ids(t) && WorkersOk(t) && WorkerSees(t) && QueueOk(t) && InHand(t) == InHand(s)
  {
  }

  lemma FinishKeeps(s: State, c: nat)
    requires Inv(s) && c < |s.calls| && s.calls[c].phase.Accepted?
    ensures Inv(FinishCall(s, c))
  {
    var t := FinishCall(s, c);
    assert CallOk(s, c);
    FinishCalls(s, c);
    FinishRest(s, c);
    OwedStable(s.delivered, s.calls, t.calls);
  }

  // ------------------------------------------------ completion

  lemma DoneCalls(s: State, handle: nat, status: int, wake: nat)
    requires CallsOk(s) && Enabled(s, CwbDone(handle, status, wake))
    ensures CallsOk(NotifyDone(s, handle, status, wake))
  {
    var t := NotifyDone(s, handle, status, wake);
    forall n | 0 <= n < |t.calls| ensures CallOk(t, n) {
      assert CallOk(s, n);
    }
  }

  lemma DoneRest(s: State, handle: nat, status: int, wake: nat)
    requires WorkersOk(s) && WorkerSees(s) && QueueOk(s) && Distinct(s.queue)
    requires Enabled(s, CwbDone(handle, status, wake))
    ensures var t := NotifyDone(s, handle, status, wake);
      Ids(t) && WorkersOk(t) && WorkerSees(t) && QueueOk(t) && InHand(t) == InHand(s)
  {
    DoneQueue(s, handle, status, wake);
    if |s.workers| > 0 && s.workers[|s.workers| - 1].Waiting? {
      assert SomeWaiting(s.workers) && wake == |s.workers| - 1;
    }
  }

  lemma DoneQueue(s: State, handle: nat, status: int, wake: nat)
    requires WorkersOk(s) && QueueOk(s) && Enabled(s, CwbDone(handle, status, wake))
    ensures var t := NotifyDone(s, handle, status, wake); Ids(t) && QueueOk(t)
  {
  }

  lemma DoneKeeps(s: State, handle: nat, status: int, wake: nat)
    requires Inv(s) && Enabled(s, CwbDone(handle, status, wake))
    ensures Inv(NotifyDone(s, handle, status, wake))
  {
    LiveDistinct(s);
    DoneCalls(s, handle, status, wake);
    DoneRest(s, handle, status, wake);
    DoneClient(s, handle, status, wake);
  }

  lemma DoneClient(s: State, handle: nat, status: int, wake: nat)
    requires ClientOk(s) && Enabled(s, CwbDone(handle, status, wake))
    ensures ClientOk(NotifyDone(s, handle, status, wake))
  {
    OwedStable(s.delivered, s.calls, NotifyDone(s, handle, status, wake).calls);
  }

  // ------------------------------------------------ the worker

  lemma PopCalls(s: State, w: nat)
    requires CallsOk(s) && w < |s.workers| && |s.queue| > 0
    requires s.queue[0] < |s.calls| && s.calls[s.queue[0]].phase.Done?
    ensures CallsOk(PopFront(s, w, s.queue[0]))
  {
    var t := PopFront(s, w, s.queue[0]);
    assert s.queue == [s.queue[0]] + t.queue;
    forall n | 0 <= n < |t.calls| ensures CallOk(t, n) {
      assert CallOk(s, n);
    }
  }

  lemma PopConserved(s: State, w: nat)
    requires Conserved(s) && w == |s.workers| - 1 && (s.workers[w].Running? || s.workers[w].Waiting?) && |s.queue| > 0
    ensures Conserved(PopFront(s, w, s.queue[0]))
  {
    var t := PopFront(s, w, s.queue[0]);
    assert s.queue == [s.queue[0]] + t.queue;
    assert t.delivered + InHand(t) + t.queue == s.delivered + InHand(s) + s.queue;
  }

  lemma PopKeeps(s: State, w: nat)
    requires Inv(s) && w < |s.workers| && (s.workers[w].Running? || s.workers[w].Waiting?)
    requires |s.queue| > 0 && s.calls[s.queue[0]].completed && !s.calls[s.queue[0]].notified.NotYet?
    ensures Inv(PopFront(s, w, s.queue[0]))
  {
    assert w == |s.workers| - 1;
    assert CallOk(s, s.queue[0]);
    PopCalls(s, w);
    PopConserved(s, w);
  }

  lemma LookKeeps(s: State, w: nat)
    requires Inv(s) && w < |s.workers| && s.workers[w].Running?
    ensures Inv(LookAtFront(s, w))
  {
    assert w == |s.workers| - 1;
    if |s.queue| > 0 && s.calls[s.queue[0]].completed {
      if s.calls[s.queue[0]].notified.NotYet? {
        StirKeeps(s, w, Waiting(s.queue[0], false));
      } else {
        PopKeeps(s, w);
      }
    } else if |s.queue| == 0 {
      QuitKeeps(s, w);
    }
  }

  /** The worker going to sleep or back to the top of its loop. */
  lemma StirKeeps(s: State, w: nat, v: Worker)
    requires Inv(s) && w < |s.workers| && (s.workers[w].Running? || s.workers[w].Waiting?)
    requires v.Running? || (|s.queue| > 0 && v == Waiting(s.queue[0], false) &&
             s.calls[s.queue[0]].completed && s.calls[s.queue[0]].notified.NotYet?)
    ensures Inv(s.(workers := s.workers[w := v]))
  {
    var t := s.(workers := s.workers[w := v]);
    assert w == |s.workers| - 1;
    assert InHand(t) == InHand(s);
    assert forall n :: 0 <= n < |s.calls| ==> CallOk(t, n) == CallOk(s, n);
  }

  lemma QuitKeeps(s: State, w: nat)
    requires Inv(s) && w < |s.workers| && s.workers[w].Running? && |s.queue| == 0
    ensures Inv(s.(running := false, workers := s.workers[w := Exited]))
  {
    var t := s.(running := false, workers := s.workers[w := Exited]);
    assert w == |s.workers| - 1;
    assert InHand(t) == InHand(s);
    assert forall n :: 0 <= n < |s.calls| ==> CallOk(t, n) == CallOk(s, n);
  }

  lemma WakeKeeps(s: State, w: nat)
    requires Inv(s) && w < |s.workers| && s.workers[w].Waiting?
    ensures Inv(WakeUp(s, w))
  {
    assert w == |s.workers| - 1;
    if s.calls[s.workers[w].node].notified.NotYet? {
      StirKeeps(s, w, Running);
    } else {
      PopKeeps(s, w);
    }
  }

  lemma TellCalls(s: State, w: nat)
    requires CallsOk(s) && Enabled(s, Notify(w)) && s.calls[s.workers[w].node].completed
    ensures CallsOk(TellClient(s, w))
  {
    var t := TellClient(s, w);
    forall n | 0 <= n < |t.calls| ensures CallOk(t, n) {
      assert CallOk(s, n);
    }
  }

  lemma TellConserved(s: State, w: nat)
    requires WorkersOk(s) && Conserved(s) && w < |s.workers| && Enabled(s, Notify(w))
    ensures Conserved(TellClient(s, w))
  {
    var t := TellClient(s, w);
    assert w == |s.workers| - 1;
    assert t.delivered + InHand(t) + t.queue == s.delivered + InHand(s) + s.queue;
  }

  lemma OpenWhileHeld(s: State, w: nat)
    requires CallsOk(s) && WorkersOk(s) && WorkerSees(s) && Conserved(s) && Enabled(s, Notify(w))
    ensures s.workers[w].node !in s.closes
  {
    assert w == |s.workers| - 1;
    assert s.workers[w].node in InHand(s);
    LiveDistinct(s);
    assert CallOk(s, s.workers[w].node);
  }

  lemma TellClientOk(s: State, w: nat)
    requires ClientOk(s) && Enabled(s, Notify(w))
    requires s.workers[w].node !in s.closes && !s.calls[s.workers[w].node].notified.NotYet?
    ensures ClientOk(TellClient(s, w))
  {
    var t := TellClient(s, w);
    assert t.delivered[..|s.delivered|] == s.delivered;
  }

  lemma TellRest(s: State, w: nat)
    requires WorkersOk(s) && WorkerSees(s) && QueueOk(s) && Enabled(s, Notify(w))
    ensures var t := TellClient(s, w); Ids(t) && WorkersOk(t) && WorkerSees(t) && QueueOk(t)
  {
    assert w == |s.workers| - 1;
  }

  lemma TellKeeps(s: State, w: nat)
    requires Inv(s) && Enabled(s, Notify(w))
    ensures Inv(TellClient(s, w))
  {
    assert w == |s.workers| - 1;
    OpenWhileHeld(s, w);
    TellCalls(s, w);
    TellConserved(s, w);
    TellClientOk(s, w);
    TellRest(s, w);
  }

  // ------------------------------------------------ every step, every run

  lemma StepKeeps(s: State, e: Event)
    requires Inv(s) && Enabled(s, e)
    ensures Inv(Apply(s, e))
  {
    match e
    case Begin(h, cb) => BeginKeeps(s, h, cb);
    case Push(c) => PushKeeps(s, c);
    case DriverReply(c, ok) => DriverKeeps(s, c, ok);
    case CloseBuffer(c) => CloseKeeps(s, c);
    case Rollback(c) => RollbackKeeps(s, c);
    case Finish(c) => FinishKeeps(s, c);
    case CwbDone(h, status, wake) => DoneKeeps(s, h, status, wake);
    case Look(w) => LookKeeps(s, w);
    case Wake(w) => WakeKeeps(s, w);
    case Notify(w) => TellKeeps(s, w);
  }

  lemma {:induction false} RunKeeps(s: State, es: seq<Event>)
    requires Inv(s) && Runs(s, es)
    ensures Inv(Exec(s, es))
    decreases |es|
  {
    if |es| == 0 {
    } else {
      StepKeeps(s, es[0]);
      RunKeeps(Apply(s, es[0]), es[1..]);
    }
  }
}
