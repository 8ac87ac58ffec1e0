/** What the concurrent-writeback protocol guarantees in every interleaving, and where it does not. */
module CwbTheorems {
  import opened CwbProtocol
  import opened CwbInvariant

  lemma {:induction false} ReachableInv(es: seq<Event>)
    requires Runs(EMPTY, es)
    ensures Inv(Exec(EMPTY, es))
  {
    RunKeeps(EMPTY, es);
  }

  // ------------------------------------------------ the worker pops what it examined

  /** A worker that wakes with its node notified pops exactly the node it examined before cv.wait
      gave up the lock, and never meets an empty deque. */
  lemma PopsExaminedNode(es: seq<Event>, w: nat)
    requires Runs(EMPTY, es) && Enabled(Exec(EMPTY, es), Wake(w))
    ensures var s := Exec(EMPTY, es);
      var n := s.workers[w].node;
      && s.calls[n].completed
      && var t := Apply(s, Wake(w));
      && !t.fault
      && (s.calls[n].notified.NotYet? ==> t == s.(workers := s.workers[w := Running]))
      && (!s.calls[n].notified.NotYet? ==> s.queue == [n] + t.queue && t.workers[w] == Notifying(n))
  {
    ReachableInv(es);
    assert w == |Exec(EMPTY, es).workers| - 1;
  }

  /** The front node a worker has gone to sleep on stays the front node whatever the other threads
      do, as long as the worker sleeps. */
  lemma {:induction false} FrontStaysWhileAsleep(s: State, es: seq<Event>, w: nat)
    requires Inv(s) && Runs(s, es) && w < |s.workers| && s.workers[w].Waiting?
    requires forall e :: e in es ==> !e.Wake?
    ensures var t := Exec(s, es);
      && w < |t.workers| && t.workers[w].Waiting? && t.workers[w].node == s.workers[w].node
      && |t.queue| > 0 && t.queue[0] == s.workers[w].node
    decreases |es|
  {
    assert w == |s.workers| - 1;
    if |es| == 0 {
    } else {
      assert es[0] in es;
      SleeperUntouched(s, es[0], w);
      StepKeeps(s, es[0]);
      FrontStaysWhileAsleep(Apply(s, es[0]), es[1..], w);
    }
  }

  lemma SleeperUntouched(s: State, e: Event, w: nat)
    requires Inv(s) && Enabled(s, e) && !e.Wake? && w < |s.workers| && s.workers[w].Waiting?
    ensures var t := Apply(s, e);
      w < |t.workers| && t.workers[w].Waiting? && t.workers[w].node == s.workers[w].node
  {
    assert w == |s.workers| - 1;
  }

  // ------------------------------------------------ buffers and callbacks

  /** Every buffer is closed at most once, by its poster or by the worker and never by both. */
  lemma ClosedAtMostOnce(es: seq<Event>)
    requires Runs(EMPTY, es)
    ensures var s := Exec(EMPTY, es);
      && Distinct(s.closes)
      && (forall n :: 0 <= n < |s.calls| && (s.calls[n].phase.Closed? || s.calls[n].phase.Failed?) ==>
            n in s.closes && n !in s.delivered)
      && (forall n :: n in s.delivered ==> n in s.closes)
  {
    ReachableInv(es);
    var s := Exec(EMPTY, es);
    forall n | 0 <= n < |s.calls| && (s.calls[n].phase.Closed? || s.calls[n].phase.Failed?)
      ensures n in s.closes && n !in s.delivered
    {
      assert CallOk(s, n);
    }
    forall n | n in s.delivered ensures n in s.closes {
      assert CallOk(s, n);
    }
  }

  /** Client callbacks follow push order with rolled-back nodes left out, across worker restarts:
      what was delivered, the node in the worker's hand and the queue always make up the pushes. */
  lemma DeliveryFollowsPushOrder(es: seq<Event>)
    requires Runs(EMPTY, es)
    ensures var s := Exec(EMPTY, es);
      && Without(s.pushed, s.dropped) == s.delivered + InHand(s) + s.queue
      && s.delivered <= Without(s.pushed, s.dropped)
      && Below(s.delivered, |s.calls|)
      && s.callbacks == Owed(s.delivered, s.calls)
  {
    ReachableInv(es);
  }

  /** Each callback is for a node whose post returned 0, carries that node's verdict, and the
      verdict is Success or Failure. */
  lemma CallbacksAreVerdicts(es: seq<Event>, i: nat)
    requires Runs(EMPTY, es) && i < |Exec(EMPTY, es).callbacks|
    ensures var s := Exec(EMPTY, es);
      var (n, verdict) := s.callbacks[i];
      && n in s.delivered && n < |s.calls|
      && s.calls[n].phase.Done? && s.calls[n].hasCallback
      && verdict == s.calls[n].notified && !verdict.NotYet?
  {
    ReachableInv(es);
    var s := Exec(EMPTY, es);
    OwedMember(s.delivered, s.calls, i);
    var n := s.callbacks[i].0;
    assert CallOk(s, n);
    var k :| 0 <= k < |s.delivered| && s.delivered[k] == n;
  }

  lemma {:induction false} OwedMember(delivered: seq<nat>, calls: seq<Call>, i: nat)
    requires Below(delivered, |calls|) && i < |Owed(delivered, calls)|
    ensures var (n, verdict) := Owed(delivered, calls)[i];
      n in delivered && n < |calls| && calls[n].hasCallback && verdict == calls[n].notified
    decreases |delivered|
  {
    var front := delivered[..|delivered| - 1];
    if i < |Owed(front, calls)| {
      OwedMember(front, calls, i);
    }
  }

  // ------------------------------------------------ the worker thread

  /** At most one worker is alive, one is alive exactly while async_thread_running is set, a completed
      node in the queue always has one, and no wake-up is lost: a worker asleep without a signal
      sleeps on a front node that is still un-notified. */
  lemma OneWorkerNoLostWakeup(es: seq<Event>)
    requires Runs(EMPTY, es)
    ensures var s := Exec(EMPTY, es);
      && (forall v, w | 0 <= v < |s.workers| && 0 <= w < |s.workers| ::
            !s.workers[v].Exited? && !s.workers[w].Exited? ==> v == w)
      && (s.running <==> exists w :: 0 <= w < |s.workers| && !s.workers[w].Exited?)
      && Below(s.queue, |s.calls|)
      && (forall i :: 0 <= i < |s.queue| && s.calls[s.queue[i]].completed ==> s.running)
      && (forall w :: 0 <= w < |s.workers| && s.workers[w].Waiting? && !s.workers[w].signalled ==>
            |s.queue| > 0 && s.queue[0] == s.workers[w].node && s.calls[s.queue[0]].notified.NotYet?)
  {
    ReachableInv(es);
    var s := Exec(EMPTY, es);
    if s.running {
      assert !s.workers[|s.workers| - 1].Exited?;
    }
    forall v, w | 0 <= v < |s.workers| && 0 <= w < |s.workers| && !s.workers[v].Exited? && !s.workers[w].Exited?
      ensures v == w
    {
    }
  }

  /** `k` turns of the worker loop, each popping one node and telling the client. */
  function Turns(w: nat, k: nat): seq<Event> {
    if k == 0 then [] else [Look(w), Notify(w)] + Turns(w, k - 1)
  }

  predicate Deliverable(s: State) {
    Below(s.queue, |s.calls|) &&
    forall i :: 0 <= i < |s.queue| ==> s.calls[s.queue[i]].completed && !s.calls[s.queue[i]].notified.NotYet?
  }

  predicate ReadyToDrain(s: State, w: nat) {
    Ids(s) && !s.fault && Deliverable(s) && w < |s.workers| && s.workers[w].Running?
  }

  /** One turn of the worker loop over a deliverable front node. */
  lemma OneTurn(s: State, w: nat, rest: seq<Event>) returns (v: State)
    requires ReadyToDrain(s, w) && |s.queue| > 0
    ensures ReadyToDrain(v, w) && v.workers == s.workers && v.calls == s.calls
    ensures v.queue == s.queue[1..] && v.delivered == s.delivered + [s.queue[0]]
    ensures Runs(v, rest) ==>
      Runs(s, [Look(w), Notify(w)] + rest) && Exec(s, [Look(w), Notify(w)] + rest) == Exec(v, rest)
  {
    v := TellClient(LookAtFront(s, w), w);
    if Runs(v, rest) {
      TurnFirst(s, w, rest);
    }
  }

  lemma {:induction false} DrainTurns(s: State, w: nat)
    requires ReadyToDrain(s, w)
    ensures Runs(s, Turns(w, |s.queue|))
    ensures var t := Exec(s, Turns(w, |s.queue|));
      && ReadyToDrain(t, w) && t.queue == [] && t.delivered == s.delivered + s.queue
      && t.calls == s.calls && t.workers == s.workers
    decreases |s.queue|
  {
    if |s.queue| > 0 {
      var v := OneTurn(s, w, Turns(w, |s.queue| - 1));
      DrainTurns(v, w);
      assert s.delivered + s.queue == v.delivered + v.queue;
    }
  }

  /** The worker's next look at the queue ends it. */
  predicate Ends(t: State, w: nat) {
    Enabled(t, Look(w)) && Apply(t, Look(w)).workers[w].Exited? && !Apply(t, Look(w)).running
  }

  /** The run empties the queue, telling the client about the node in the worker's hand and every queued one
      in queue order, and then the worker ends. */
  predicate Drains(s: State, w: nat, es: seq<Event>) {
    Runs(s, es) &&
    var t := Exec(s, es);
    t.queue == [] && t.delivered == s.delivered + InHand(s) + s.queue && t.calls == s.calls && Ends(t, w)
  }

  predicate OnlyWorker(s: State, w: nat) {
    w == |s.workers| - 1
  }

  lemma TurnsDrain(s: State, w: nat)
    requires ReadyToDrain(s, w) && OnlyWorker(s, w)
    ensures Drains(s, w, Turns(w, |s.queue|))
  {
    DrainTurns(s, w);
    assert s.delivered + [] + s.queue == s.delivered + s.queue;
  }

  lemma DrainsCons(s: State, e: Event, t: State, w: nat, es: seq<Event>)
    requires Enabled(s, e) && t == Apply(s, e) && Drains(t, w, es)
    requires t.calls == s.calls && t.delivered + InHand(t) + t.queue == s.delivered + InHand(s) + s.queue
    ensures Drains(s, w, [e] + es)
  {
    assert ([e] + es)[0] == e && ([e] + es)[1..] == es;
    assert Exec(s, [e] + es) == Exec(t, es);
  }

  lemma NotifyDrains(s: State, w: nat)
    requires Ids(s) && !s.fault && Deliverable(s) && OnlyWorker(s, w) && s.workers[w].Notifying?
    ensures Drains(s, w, [Notify(w)] + Turns(w, |s.queue|))
  {
    var t := TellClient(s, w);
    TurnsDrain(t, w);
    DrainsCons(s, Notify(w), t, w, Turns(w, |s.queue|));
  }

  lemma WakeDrains(s: State, w: nat)
    requires Ids(s) && !s.fault && Deliverable(s) && OnlyWorker(s, w) && s.workers[w].Waiting?
    requires |s.queue| > 0 && s.queue[0] == s.workers[w].node
    ensures Drains(s, w, [Wake(w)] + ([Notify(w)] + Turns(w, |s.queue| - 1)))
  {
    var t := WakeUp(s, w);
    assert s.queue == [s.queue[0]] + t.queue;
    NotifyDrains(t, w);
    assert t.delivered + InHand(t) + t.queue == s.delivered + [] + s.queue;
    DrainsCons(s, Wake(w), t, w, [Notify(w)] + Turns(w, |t.queue|));
  }

  /** From wherever the worker is: the rest of its turn first, then a turn for every node left. */
  function DrainRun(s: State, w: nat): seq<Event>
    requires w < |s.workers|
  {
    match s.workers[w]
    case Waiting(_, _) => [Wake(w)] + ([Notify(w)] + Turns(w, if |s.queue| > 0 then |s.queue| - 1 else 0))
    case Notifying(_) => [Notify(w)] + Turns(w, |s.queue|)
    case _ => Turns(w, |s.queue|)
  }

  lemma LiveWorkerDrains(s: State, w: nat)
    requires Ids(s) && WorkersOk(s) && WorkerSees(s) && !s.fault && Deliverable(s)
    requires w < |s.workers| && !s.workers[w].Exited?
    ensures Drains(s, w, DrainRun(s, w))
  {
    assert OnlyWorker(s, w);
    match s.workers[w]
    case Waiting(_, _) => WakeDrains(s, w);
    case Notifying(_) => NotifyDrains(s, w);
    case _ => TurnsDrain(s, w);
  }

  /** When every queued node is completed and notified, the live worker - at the top of its loop, blocked in
      cv.wait or telling the client - empties the queue in as many turns as it has nodes, telling the client
      about each node in queue order, and ends. */
  lemma WorkerDrains(s: State, w: nat)
    requires Inv(s) && !s.fault && Deliverable(s) && w < |s.workers| && !s.workers[w].Exited?
    ensures Drains(s, w, DrainRun(s, w)) && Inv(Exec(s, DrainRun(s, w)))
  {
    LiveWorkerDrains(s, w);
    RunKeeps(s, DrainRun(s, w));
  }

  lemma TurnFirst(s: State, w: nat, rest: seq<Event>)
    requires Enabled(s, Look(w)) && Enabled(LookAtFront(s, w), Notify(w))
    requires Runs(TellClient(LookAtFront(s, w), w), rest)
    ensures var es := [Look(w), Notify(w)] + rest;
      Runs(s, es) && Exec(s, es) == Exec(TellClient(LookAtFront(s, w), w), rest)
  {
    var es := [Look(w), Notify(w)] + rest;
    var u := LookAtFront(s, w);
    assert es[0] == Look(w) && es[1..] == [Notify(w)] + rest;
    assert es[1..][0] == Notify(w) && es[1..][1..] == rest;
    assert Runs(u, es[1..]);
  }
}
