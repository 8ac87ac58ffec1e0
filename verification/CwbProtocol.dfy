/** The concurrent-writeback queue of one display as a step system: every lock-held section of
    PostBuffer, OnCWBDone and ProcessCWBStatus is one atomic step, and so is every section of
    theirs that runs outside the session lock.  Any number of posters, completions and workers
    may interleave.

    Call number `n` of PostBuffer owns node `n` and the cloned buffer `n`. */
module CwbProtocol {

  datatype Notified = Failure | Success | NotYet

  /** Why a post is refused.  Only a post refused by the driver has pushed its node. */
  datatype Reason = NoNode | Duplicate | Driver

  /** How far a call of PostBuffer has come. */
  datatype Phase =
    | Created                   // node allocated, queue not yet searched
    | Queued                    // node pushed, SetReadbackBuffer outstanding
    | Accepted                  // driver accepted, last locked section outstanding
    | Refused(reason: Reason)   // error known, buffer still open
    | Closed(reason: Reason)    // buffer closed, rollback section outstanding
    | Failed(reason: Reason)    // returned -1
    | Done                      // returned 0

  datatype Call = Call(handleId: nat, hasCallback: bool, notified: Notified, completed: bool, phase: Phase)

  /** How far one run of ProcessCWBStatus has come. */
  datatype Worker =
    | Running                              // about to take the session lock
    | Waiting(node: nat, signalled: bool)  // blocked in cv.wait for `node`
    | Notifying(node: nat)                 // `node` popped, client not yet told
    | Exited

  datatype State = State(
    queue: seq<nat>,                       // session_map.queue
    calls: seq<Call>,
    running: bool,                         // session_map.async_thread_running
    workers: seq<Worker>,                  // every async task ever started
    pushed: seq<nat>,                      // history: nodes pushed, in push order
    dropped: set<nat>,                     // history: nodes taken out again by a rollback
    delivered: seq<nat>,                   // history: nodes the worker finished with
    callbacks: seq<(nat, Notified)>,       // history: notifyCWBBufferDone calls
    closes: seq<nat>,                      // history: buffers closed
    fault: bool)                           // back() or pop_front() on an empty deque

  datatype Event =
    | Begin(handleId: nat, hasCallback: bool)      // handleId 0: the id could not be read
    | Push(call: nat)
    | DriverReply(call: nat, ok: bool)
    | CloseBuffer(call: nat)
    | Rollback(call: nat)
    | Finish(call: nat)
    | CwbDone(handle: nat, status: int, wake: nat)  // `wake`: the worker cv.notify_one picks
    | Look(worker: nat)
    | Wake(worker: nat)                             // signalled or spurious
    | Notify(worker: nat)

  const EMPTY := State([], [], false, [], [], {}, [], [], [], false)

  // ---------------------------------------------------------------- steps

  predicate Below(a: seq<nat>, n: nat) {
    forall i :: 0 <= i < |a| ==> a[i] < n
  }

  /** First queue position from `from` on that holds an un-notified node of `handle`, or |queue|. */
  function FindPending(queue: seq<nat>, calls: seq<Call>, handle: nat, from: nat): (i: nat)
    requires from <= |queue| && Below(queue, |calls|)
    ensures from <= i <= |queue|
    ensures i < |queue| ==> calls[queue[i]].notified.NotYet? && calls[queue[i]].handleId == handle
    ensures forall j :: from <= j < i ==> !(calls[queue[j]].notified.NotYet? && calls[queue[j]].handleId == handle)
    decreases |queue| - from
  {
    if from == |queue| then from
    else if calls[queue[from]].notified.NotYet? && calls[queue[from]].handleId == handle then from
    else FindPending(queue, calls, handle, from + 1)
  }

  predicate HandleQueued(queue: seq<nat>, calls: seq<Call>, handle: nat)
    requires Below(queue, |calls|)
  {
    exists i :: 0 <= i < |queue| && calls[queue[i]].handleId == handle
  }

  predicate SomeWaiting(workers: seq<Worker>) {
    exists w :: 0 <= w < |workers| && workers[w].Waiting?
  }

  predicate Ids(s: State) {
    && Below(s.queue, |s.calls|)
    && (forall w :: 0 <= w < |s.workers| && s.workers[w].Waiting? ==> s.workers[w].node < |s.calls|)
    && (forall w :: 0 <= w < |s.workers| && s.workers[w].Notifying? ==> s.workers[w].node < |s.calls|)
  }

  predicate Enabled(s: State, e: Event) {
    Ids(s) && !s.fault &&
    match e
    case Begin(_, _) => true
    case Push(c) => c < |s.calls| && s.calls[c].phase.Created?
    case DriverReply(c, _) => c < |s.calls| && s.calls[c].phase.Queued?
    case CloseBuffer(c) => c < |s.calls| && s.calls[c].phase.Refused?
    case Rollback(c) => c < |s.calls| && s.calls[c].phase.Closed?
    case Finish(c) => c < |s.calls| && s.calls[c].phase.Accepted?
    case CwbDone(_, _, wake) => SomeWaiting(s.workers) ==> wake < |s.workers| && s.workers[wake].Waiting?
    case Look(w) => w < |s.workers| && s.workers[w].Running?
    case Wake(w) => w < |s.workers| && s.workers[w].Waiting?
    case Notify(w) => w < |s.workers| && s.workers[w].Notifying?
  }

  function SetPhase(s: State, c: nat, p: Phase): State
    requires c < |s.calls|
  {
    s.(calls := s.calls[c := s.calls[c].(phase := p)])
  }

  function BeginCall(s: State, handleId: nat, hasCallback: bool): State {
    var phase := if handleId == 0 then Refused(NoNode) else Created;
    s.(calls := s.calls + [Call(handleId, hasCallback, NotYet, false, phase)])
  }

  function Enqueue(s: State, c: nat): State
    requires c < |s.calls|
  {
    SetPhase(s, c, Queued).(queue := s.queue + [c], pushed := s.pushed + [c])
  }

  function PushNode(s: State, c: nat): State
    requires Ids(s) && c < |s.calls|
  {
    if HandleQueued(s.queue, s.calls, s.calls[c].handleId) then
      SetPhase(s, c, Refused(Duplicate))
    else
      Enqueue(s, c)
  }

  function CloseCall(s: State, c: nat): State
    requires c < |s.calls| && s.calls[c].phase.Refused?
  {
    SetPhase(s, c, Closed(s.calls[c].phase.reason)).(closes := s.closes + [c])
  }

  /** pop_back of node `c`. */
  function Unqueue(s: State, c: nat): State
    requires |s.queue| > 0
  {
    s.(queue := s.queue[..|s.queue| - 1], dropped := s.dropped + {c})
  }

  function RollbackNode(s: State, c: nat): State
    requires c < |s.calls| && s.calls[c].phase.Closed?
  {
    var reason := s.calls[c].phase.reason;
    var t := SetPhase(s, c, Failed(reason));
    if reason.NoNode? then t
    else if |s.queue| == 0 then t.(fault := true)
    else if s.queue[|s.queue| - 1] == c then Unqueue(t, c)
    else t
  }

  function FinishCall(s: State, c: nat): State
    requires c < |s.calls|
  {
    var start := !s.running && |s.queue| != 0;
    s.(calls := s.calls[c := s.calls[c].(phase := Done, completed := true)],
       running := s.running || start,
       workers := if start then s.workers + [Running] else s.workers)
  }

  function Verdict(status: int): Notified {
    if status != 0 then Failure else Success
  }

  function NotifyDone(s: State, handle: nat, status: int, wake: nat): State
    requires Ids(s) && (SomeWaiting(s.workers) ==> wake < |s.workers| && s.workers[wake].Waiting?)
  {
    var i := FindPending(s.queue, s.calls, handle, 0);
    if i == |s.queue| then s
    else
      var n := s.queue[i];
      s.(calls := s.calls[n := s.calls[n].(notified := Verdict(status))],
         workers := if SomeWaiting(s.workers)
                    then s.workers[wake := s.workers[wake].(signalled := true)] else s.workers)
  }

  /** OnCWBDone returns 0 exactly when this holds, and -1 otherwise. */
  predicate DoneFound(s: State, handle: nat)
    requires Ids(s)
  {
    FindPending(s.queue, s.calls, handle, 0) < |s.queue|
  }

  function PopFront(s: State, w: nat, node: nat): State
    requires w < |s.workers|
  {
    if |s.queue| == 0 then s.(fault := true)
    else s.(queue := s.queue[1..], workers := s.workers[w := Notifying(node)])
  }

  function LookAtFront(s: State, w: nat): State
    requires Ids(s) && w < |s.workers|
  {
    if |s.queue| == 0 then s.(running := false, workers := s.workers[w := Exited])
    else
      var n := s.queue[0];
      if !s.calls[n].completed then s
      else if s.calls[n].notified.NotYet? then s.(workers := s.workers[w := Waiting(n, false)])
      else PopFront(s, w, n)
  }

  function WakeUp(s: State, w: nat): State
    requires Ids(s) && w < |s.workers| && s.workers[w].Waiting?
  {
    var n := s.workers[w].node;
    if s.calls[n].notified.NotYet? then s.(workers := s.workers[w := Running])
    else PopFront(s, w, n)
  }

  function TellClient(s: State, w: nat): State
    requires Ids(s) && w < |s.workers| && s.workers[w].Notifying?
  {
    var n := s.workers[w].node;
    s.(workers := s.workers[w := Running], delivered := s.delivered + [n],
       callbacks := if s.calls[n].hasCallback then s.callbacks + [(n, s.calls[n].notified)] else s.callbacks,
       closes := s.closes + [n])
  }

  function Apply(s: State, e: Event): State
    requires Enabled(s, e)
  {
    match e
    case Begin(h, cb) => BeginCall(s, h, cb)
    case Push(c) => PushNode(s, c)
    case DriverReply(c, ok) => SetPhase(s, c, if ok then Accepted else Refused(Driver))
    case CloseBuffer(c) => CloseCall(s, c)
    case Rollback(c) => RollbackNode(s, c)
    case Finish(c) => FinishCall(s, c)
    case CwbDone(h, status, wake) => NotifyDone(s, h, status, wake)
    case Look(w) => LookAtFront(s, w)
    case Wake(w) => WakeUp(s, w)
    case Notify(w) => TellClient(s, w)
  }

  // ---------------------------------------------------------------- runs

  predicate Runs(s: State, es: seq<Event>)
    decreases |es|
  {
    |es| == 0 || (Enabled(s, es[0]) && Runs(Apply(s, es[0]), es[1..]))
  }

  function Exec(s: State, es: seq<Event>): State
    requires Runs(s, es)
    decreases |es|
  {
    if |es| == 0 then s else Exec(Apply(s, es[0]), es[1..])
  }

  // ---------------------------------------------------------------- invariant

  ghost predicate Distinct(a: seq<nat>) {
    forall i, j :: 0 <= i < j < |a| ==> a[i] != a[j]
  }

  /** `a` without the members of `drop`, in order. */
  function Without(a: seq<nat>, drop: set<nat>): (r: seq<nat>)
    ensures forall x :: x in r <==> x in a && x !in drop
  {
    if |a| == 0 then []
    else Without(a[..|a| - 1], drop) + (if a[|a| - 1] in drop then [] else [a[|a| - 1]])
  }

  /** The node a worker holds between pop_front and the end of the client notification. */
  function InHand(s: State): seq<nat> {
    if |s.workers| > 0 && s.workers[|s.workers| - 1].Notifying? then [s.workers[|s.workers| - 1].node] else []
  }

  predicate InQueuePhase(p: Phase) {
    p.Queued? || p.Accepted? || p == Refused(Driver) || p == Closed(Driver)
  }

  predicate PushedPhase(p: Phase) {
    InQueuePhase(p) || p == Failed(Driver) || p.Done?
  }

  /** Phase, flag and whereabouts of node and buffer `n` agree. */
  ghost predicate CallOk(s: State, n: nat)
    requires n < |s.calls|
  {
    var p := s.calls[n].phase;
    && (InQueuePhase(p) ==> n in s.queue)
    && (n in s.pushed ==> PushedPhase(p))
    && (n in s.dropped ==> p == Failed(Driver))
    && (s.calls[n].completed <==> p.Done?)
    && (n in s.delivered ==> p.Done?)
    && (n in s.closes <==> (p.Closed? || p.Failed? || n in s.delivered))
  }

  ghost predicate CallsOk(s: State) {
    forall n :: 0 <= n < |s.calls| ==> CallOk(s, n)
  }

  /** At most the newest worker is alive, and it is alive exactly while the flag is set. */
  ghost predicate WorkersOk(s: State) {
    && (forall w :: 0 <= w < |s.workers| - 1 ==> s.workers[w].Exited?)
    && (s.running <==> |s.workers| > 0 && !s.workers[|s.workers| - 1].Exited?)
  }

  /** What a blocked or notifying worker may rely on. */
  ghost predicate WorkerSees(s: State) {
    |s.workers| > 0 ==>
      match s.workers[|s.workers| - 1]
      case Waiting(n, signalled) =>
        |s.queue| > 0 && s.queue[0] == n && n < |s.calls| && s.calls[n].completed &&
        (!signalled ==> s.calls[n].notified.NotYet?)
      case Notifying(n) => n < |s.calls| && s.calls[n].completed && !s.calls[n].notified.NotYet?
      case _ => true
  }

  /** Queued handles are pairwise different, and a completed node is being served. */
  ghost predicate QueueOk(s: State) {
    && Below(s.queue, |s.calls|)
    && (forall i, j :: 0 <= i < j < |s.queue| ==> s.calls[s.queue[i]].handleId != s.calls[s.queue[j]].handleId)
    && (forall i :: 0 <= i < |s.queue| && s.calls[s.queue[i]].completed ==> s.running)
  }

  /** Nothing pushed is lost, doubled or reordered. */
  ghost predicate Conserved(s: State) {
    && Below(s.pushed, |s.calls|)
    && Distinct(s.pushed)
    && (forall n :: n in s.dropped ==> n in s.pushed)
    && Without(s.pushed, s.dropped) == s.delivered + InHand(s) + s.queue
  }

  /** The callbacks owed for delivered nodes: one each, in order, with the node's verdict. */
  function Owed(delivered: seq<nat>, calls: seq<Call>): seq<(nat, Notified)>
    requires Below(delivered, |calls|)
  {
    if |delivered| == 0 then []
    else
      var n := delivered[|delivered| - 1];
      Owed(delivered[..|delivered| - 1], calls) + (if calls[n].hasCallback then [(n, calls[n].notified)] else [])
  }

  ghost predicate ClientOk(s: State) {
    && Distinct(s.closes)
    && Below(s.closes, |s.calls|)
    && Below(s.delivered, |s.calls|)
    && (forall i :: 0 <= i < |s.delivered| ==> !s.calls[s.delivered[i]].notified.NotYet?)
    && s.callbacks == Owed(s.delivered, s.calls)
  }

  ghost predicate Inv(s: State) {
    Ids(s) && CallsOk(s) && WorkersOk(s) && WorkerSees(s) && QueueOk(s) && Conserved(s) && ClientOk(s)
  }

  // ---------------------------------------------------------------- sequence facts

  lemma {:induction false} WithoutMore(a: seq<nat>, drop: set<nat>, front: seq<nat>, x: nat)
    requires Distinct(a) && Without(a, drop) == front + [x]
    ensures Without(a, drop + {x}) == front
    decreases |a|
  {
    if |a| == 0 {
    } else {
      var b, y := a[..|a| - 1], a[|a| - 1];
      if y in drop {
        WithoutMore(b, drop, front, x);
      } else {
        var kept := Without(b, drop);
        assert kept == (kept + [y])[..|kept|] == (front + [x])[..|front|] == front;
        assert y == (kept + [y])[|kept|] == x;
        WithoutIrrelevant(b, drop, x);
      }
    }
  }

  lemma {:induction false} WithoutIrrelevant(a: seq<nat>, drop: set<nat>, x: nat)
    requires x !in a
    ensures Without(a, drop + {x}) == Without(a, drop)
    decreases |a|
  {
    if |a| == 0 {
    } else {
      WithoutIrrelevant(a[..|a| - 1], drop, x);
    }
  }

  lemma {:induction false} WithoutDistinct(a: seq<nat>, drop: set<nat>)
    requires Distinct(a)
    ensures Distinct(Without(a, drop))
    decreases |a|
  {
    if |a| == 0 {
    } else {
      WithoutDistinct(a[..|a| - 1], drop);
    }
  }

  lemma WithoutAppend(a: seq<nat>, drop: set<nat>, x: nat)
    ensures Without(a + [x], drop) == Without(a, drop) + (if x in drop then [] else [x])
  {
    assert (a + [x])[..|a|] == a;
  }

  lemma {:induction false} OwedStable(delivered: seq<nat>, calls: seq<Call>, calls': seq<Call>)
    requires |calls| <= |calls'| && Below(delivered, |calls|)
    requires forall i :: 0 <= i < |delivered| ==>
      var n := delivered[i];
      calls'[n].hasCallback == calls[n].hasCallback && calls'[n].notified == calls[n].notified
    ensures Owed(delivered, calls') == Owed(delivered, calls)
    decreases |delivered|
  {
    if |delivered| == 0 {
    } else {
      OwedStable(delivered[..|delivered| - 1], calls, calls');
    }
  }

  /** Delivered, held and queued nodes are pairwise different. */
  lemma LiveDistinct(s: State)
    requires Conserved(s)
    ensures Distinct(s.delivered + InHand(s) + s.queue)
    ensures Distinct(s.queue)
    ensures forall n :: n in s.queue ==> n !in s.delivered && n !in InHand(s)
    ensures forall n :: n in InHand(s) ==> n !in s.delivered
    ensures forall n :: n in s.queue || n in InHand(s) || n in s.delivered ==> n in s.pushed && n !in s.dropped
  {
    WithoutDistinct(s.pushed, s.dropped);
    var live := s.delivered + InHand(s) + s.queue;
    var d, h := |s.delivered|, |InHand(s)|;
    assert forall i :: 0 <= i < d ==> live[i] == s.delivered[i];
    assert forall i :: 0 <= i < h ==> live[d + i] == InHand(s)[i];
    assert forall i :: 0 <= i < |s.queue| ==> live[d + h + i] == s.queue[i];
  }

}
