/** The callback queue and its thread as a step system: any number of pushers, one consumer at a time and
    one caller of Register at a time, interleaved at the queue's lock. */
module CallbackQueue {

  datatype Item = Refresh(display: nat) | Hotplug(display: nat, connected: bool)

  /** Where PerformHWCCallback is. */
  datatype Consumer =
    | NoThread                     // never started, or joined
    | AtWait                       // about to look at wait()'s condition
    | FallingAsleep                // condition false, the queue's lock still held
    | Asleep(signalled: bool)      // blocked in cond_.wait
    | Returned                     // wait() returned
    | AskingEmpty                  // has read callback_running_ as false
    | AtPop                        // about to pop
    | Dispatching(item: Item)
    | Exited                       // left the loop, not joined yet

  /** Where a de-registering Register is. */
  datatype Registrar = Idle | Cleared | Joining

  /** `notifies`: pushers that have pushed but not yet called notify_one.  `clearedAt`: how much had been
      pushed when callback_running_ was last cleared.  `missed`: the last notify() of a de-registration found
      the consumer falling asleep. */
  datatype State = State(queue: seq<Item>, running: bool, consumer: Consumer, registrar: Registrar, notifies: nat,
                         refresh: bool, hotplug: bool, pushed: seq<Item>, consumed: seq<Item>, told: seq<(Item, bool)>,
                         clearedAt: nat, missed: bool)

  datatype Event =
    | Push(item: Item)
    | NotifyPushed                 // a pusher's notify_one
    | Evaluate                     // wait() evaluates its condition
    | FallAsleep                   // and releases the lock to block
    | WakeUp                       // signalled or spurious
    | ReadRunning
    | AskEmpty
    | Pop
    | Dispatch
    | SetCallbacks(refresh: bool, hotplug: bool)
    | StartThread                  // Register finds no joinable thread
    | ClearRunning                 // Register with a null pointer
    | NotifyStop                   // and its notify()
    | Join

  const EMPTY := State([], false, NoThread, Idle, 0, false, false, [], [], [], 0, false)

  // ---------------------------------------------------------------- steps

  predicate Enabled(s: State, e: Event) {
    match e
    case Push(_) => !s.consumer.FallingAsleep?
    case NotifyPushed => s.notifies > 0
    case Evaluate => s.consumer.AtWait?
    case FallAsleep => s.consumer.FallingAsleep?
    case WakeUp => s.consumer.Asleep?
    case ReadRunning => s.consumer.Returned?
    case AskEmpty => s.consumer.AskingEmpty?
    case Pop => s.consumer.AtPop? && s.queue != []
    case Dispatch => s.consumer.Dispatching?
    case SetCallbacks(_, _) => true
    case StartThread => s.registrar.Idle? && s.consumer.NoThread?
    case ClearRunning => s.registrar.Idle? && !s.consumer.NoThread?
    case NotifyStop => s.registrar.Cleared?
    case Join => s.registrar.Joining? && s.consumer.Exited?
  }

  /** HWCCallbacks::Refresh drops the event when no client has registered for it. */
  function PushItem(s: State, item: Item): State {
    if item.Refresh? && !s.refresh then s
    else s.(queue := s.queue + [item], pushed := s.pushed + [item], notifies := s.notifies + 1)
  }

  function NotifyOne(c: Consumer): Consumer {
    if c.Asleep? then Asleep(true) else c
  }

  function EvaluateWait(s: State): State {
    s.(consumer := if s.queue != [] || !s.running then Returned else FallingAsleep)
  }

  function PopItem(s: State): State
    requires s.queue != []
  {
    s.(queue := s.queue[1..], consumed := s.consumed + [s.queue[0]], consumer := Dispatching(s.queue[0]))
  }

  function DispatchItem(s: State): State
    requires s.consumer.Dispatching?
  {
    var item := s.consumer.item;
    s.(told := s.told + [(item, if item.Refresh? then s.refresh else s.hotplug)], consumer := AtWait)
  }

  function Step(s: State, e: Event): State
    requires Enabled(s, e)
  {
    match e
    case Push(item) => PushItem(s, item)
    case NotifyPushed => s.(notifies := s.notifies - 1, consumer := NotifyOne(s.consumer))
    case Evaluate => EvaluateWait(s)
    case FallAsleep => s.(consumer := Asleep(false))
    case WakeUp => s.(consumer := AtWait)
    case ReadRunning => s.(consumer := if s.running then AtPop else AskingEmpty)
    case AskEmpty => s.(consumer := if s.queue == [] then Exited else AtPop)
    case Pop => PopItem(s)
    case Dispatch => DispatchItem(s)
    case SetCallbacks(refresh, hotplug) => s.(refresh := refresh, hotplug := hotplug)
    case StartThread => s.(running := true, consumer := AtWait)
    case ClearRunning => s.(running := false, registrar := Cleared, clearedAt := |s.pushed|)
    case NotifyStop => s.(registrar := Joining, consumer := NotifyOne(s.consumer), missed := s.consumer.FallingAsleep?)
    case Join => s.(registrar := Idle, consumer := NoThread)
  }

  predicate Runs(s: State, events: seq<Event>)
    decreases |events|
  {
    events == [] || (Enabled(s, events[0]) && Runs(Step(s, events[0]), events[1..]))
  }

  function Exec(s: State, events: seq<Event>): State
    requires Runs(s, events)
    decreases |events|
  {
    if events == [] then s else Exec(Step(s, events[0]), events[1..])
  }

  // ---------------------------------------------------------------- what every interleaving keeps

  /** Consumed, then queued, is what was pushed; every consumed item was told, or found its callback gone,
      in that order, but for the one under way. */
  predicate Delivery(s: State) {
    && s.pushed == s.consumed + s.queue
    && |s.consumed| == |s.told| + (if s.consumer.Dispatching? then 1 else 0)
    && (forall i :: 0 <= i < |s.told| ==> s.told[i].0 == s.consumed[i])
    && (s.consumer.Dispatching? ==> s.consumer.item == s.consumed[|s.consumed| - 1])
  }

  /** The flag is up exactly while a thread runs that nobody is stopping. */
  predicate Flag(s: State) {
    && (s.running <==> s.registrar.Idle? && !s.consumer.NoThread?)
    && (s.consumer.NoThread? ==> s.registrar.Idle?)
    && (s.consumer.AskingEmpty? || s.consumer.Exited? ==> !s.running)
    && (!s.running ==> s.clearedAt <= |s.pushed|)
  }

  predicate WaitMeans(s: State) {
    && (s.consumer.Returned? ==> s.queue != [] || !s.running)
    && (s.consumer.AtPop? ==> s.queue != [])
    && (s.consumer.FallingAsleep? ==> s.queue == [])
  }

  /** A push is never slept through. */
  predicate NoLostPush(s: State) {
    s.consumer == Asleep(false) && s.queue != [] ==> s.notifies > 0
  }

  predicate Drained(s: State) {
    s.consumer.Exited? ==> s.clearedAt <= |s.consumed|
  }

  /** A stopped consumer sleeps on only if it was falling asleep when it was notified. */
  predicate Stopping(s: State) {
    s.registrar.Joining? && (s.consumer.FallingAsleep? || s.consumer == Asleep(false)) ==> s.missed
  }

  predicate Inv(s: State) {
    Delivery(s) && Flag(s) && WaitMeans(s) && NoLostPush(s) && Drained(s) && Stopping(s)
  }

  lemma DeliveryKept(s: State, e: Event)
    requires Delivery(s) && Enabled(s, e)
    ensures Delivery(Step(s, e))
  {
    var t := Step(s, e);
    if e.Pop? {
      assert s.queue == [s.queue[0]] + t.queue;
    }
  }

  lemma StepKeeps(s: State, e: Event)
    requires Inv(s) && Enabled(s, e)
    ensures Inv(Step(s, e))
  {
    DeliveryKept(s, e);
  }

  lemma {:induction false} RunKeeps(s: State, events: seq<Event>)
    requires Inv(s) && Runs(s, events)
    ensures Inv(Exec(s, events))
    decreases |events|
  {
    if events == [] {
    } else {
      StepKeeps(s, events[0]);
      RunKeeps(Step(s, events[0]), events[1..]);
    }
  }

  // ---------------------------------------------------------------- delivery

  /** In every reachable state what was consumed, then what is queued, is what was pushed, and the clients
      were told in that order. */
  lemma DeliveredInOrder(events: seq<Event>)
    requires Runs(EMPTY, events)
    ensures var s := Exec(EMPTY, events);
      && s.pushed == s.consumed + s.queue
      && |s.told| <= |s.consumed| <= |s.told| + 1
      && (forall i :: 0 <= i < |s.told| ==> s.told[i].0 == s.pushed[i])
  {
    RunKeeps(EMPTY, events);
  }

  /** With one consumer, pop never blocks after wait. */
  lemma PopNeverBlocks(events: seq<Event>)
    requires Runs(EMPTY, events) && Exec(EMPTY, events).consumer.AtPop?
    ensures Enabled(Exec(EMPTY, events), Pop)
  {
    RunKeeps(EMPTY, events);
  }

  /** A consumer asleep with events queued has a notification under way. */
  lemma PushWakes(events: seq<Event>)
    requires Runs(EMPTY, events)
    requires Exec(EMPTY, events).consumer == Asleep(false) && Exec(EMPTY, events).queue != []
    ensures Enabled(Exec(EMPTY, events), NotifyPushed)
    ensures Step(Exec(EMPTY, events), NotifyPushed).consumer == Asleep(true)
  {
    RunKeeps(EMPTY, events);
  }

  /** The client hears of every event exactly when its callback of that very kind is set at that moment, and
      only a refresh that nobody registered for is never queued. */
  lemma EachKindItsOwn(events: seq<Event>, item: Item)
    requires Runs(EMPTY, events)
    ensures var s := Exec(EMPTY, events);
      && (Enabled(s, Push(item)) ==>
            var t := Step(s, Push(item));
            if item.Refresh? && !s.refresh then t == s
            else t.queue == s.queue + [item] && t.pushed == s.pushed + [item] && t.notifies == s.notifies + 1)
      && (s.consumer == Dispatching(item) ==>
            var t := Step(s, Dispatch);
            t.told == s.told + [(item, match item { case Refresh(_) => s.refresh case Hotplug(_, _) => s.hotplug })])
  {
  }

  lemma {:induction false} HistoryGrows(s: State, events: seq<Event>)
    requires Runs(s, events) && forall i :: 0 <= i < |events| ==> !events[i].ClearRunning?
    ensures s.pushed <= Exec(s, events).pushed && Exec(s, events).clearedAt == s.clearedAt
    decreases |events|
  {
    if events == [] {
    } else {
      assert !events[0].ClearRunning?;
      HistoryGrows(Step(s, events[0]), events[1..]);
    }
  }

  /** When a de-registering Register can return, everything pushed before it cleared the flag has been
      consumed and dealt with, whatever was pushed meanwhile. */
  lemma DeregistrationDrains(s: State, events: seq<Event>)
    requires Inv(s) && Enabled(s, ClearRunning) && Runs(Step(s, ClearRunning), events)
    requires forall i :: 0 <= i < |events| ==> !events[i].ClearRunning?
    requires Enabled(Exec(Step(s, ClearRunning), events), Join)
    ensures var t := Exec(Step(s, ClearRunning), events);
      s.pushed <= t.consumed && |t.told| == |t.consumed|
  {
    var c := Step(s, ClearRunning);
    StepKeeps(s, ClearRunning);
    RunKeeps(c, events);
    HistoryGrows(c, events);
    var t := Exec(c, events);
    assert t.consumed <= t.pushed;
    assert |s.pushed| <= |t.consumed|;
  }

  // ---------------------------------------------------------------- the notification that is missed

  predicate Sleeping(c: Consumer) {
    c.FallingAsleep? || c == Asleep(false)
  }

  /** The consumer sleeps through the notify() of a de-registration exactly when that comes between its
      look at the condition and its falling asleep: notify() does not take the queue's lock. */
  lemma StopMissedIff(events: seq<Event>)
    requires Runs(EMPTY, events) && Enabled(Exec(EMPTY, events), NotifyStop)
    ensures var s := Exec(EMPTY, events);
      Sleeping(Step(s, NotifyStop).consumer) <==> s.consumer.FallingAsleep?
  {
    RunKeeps(EMPTY, events);
  }

  /** Nothing is pushed, and the consumer wakes only when it has been signalled. */
  predicate Unaided(s: State, e: Event) {
    !e.Push? && (e.WakeUp? ==> s.consumer == Asleep(true))
  }

  predicate UnaidedRun(s: State, events: seq<Event>)
    decreases |events|
  {
    events == [] || (Enabled(s, events[0]) && Unaided(s, events[0]) && UnaidedRun(Step(s, events[0]), events[1..]))
  }

  lemma {:induction false} UnaidedRuns(s: State, events: seq<Event>)
    requires UnaidedRun(s, events)
    ensures Runs(s, events)
    decreases |events|
  {
    if events == [] {
    } else {
      UnaidedRuns(Step(s, events[0]), events[1..]);
    }
  }

  /** Some run in which nothing is pushed and nothing wakes spuriously lets join return. */
  ghost predicate CanJoin(s: State) {
    exists events :: JoinsAfter(s, events)
  }

  ghost predicate JoinsAfter(s: State, events: seq<Event>) {
    UnaidedRun(s, events) && Runs(s, events) && Enabled(Exec(s, events), Join)
  }

  lemma JoinsCons(s: State, e: Event, rest: seq<Event>)
    requires Enabled(s, e) && Unaided(s, e) && JoinsAfter(Step(s, e), rest)
    ensures JoinsAfter(s, [e] + rest)
  {
    assert ([e] + rest)[1..] == rest;
  }

  /** The consumer's own next step. */
  function Next(s: State): Event {
    match s.consumer
    case AtWait => Evaluate
    case Asleep(_) => WakeUp
    case Returned => ReadRunning
    case AskingEmpty => AskEmpty
    case AtPop => Pop
    case _ => Dispatch
  }

  function Rank(c: Consumer): nat {
    match c
    case Asleep(_) => 6
    case AtWait => 5
    case Returned => 4
    case AskingEmpty => 3
    case AtPop => 2
    case Dispatching(_) => 7
    case _ => 0
  }

  /** If the notification was not missed, the consumer's own steps empty the queue and end the thread, so
      that join can return. */
  lemma {:induction false} StopHeardFinishes(s: State) returns (events: seq<Event>)
    requires Inv(s) && s.registrar.Joining? && !Sleeping(s.consumer)
    ensures JoinsAfter(s, events)
    decreases |s.queue|, Rank(s.consumer)
  {
    if s.consumer.Exited? {
      events := [];
    } else {
      var e := Next(s);
      StepKeeps(s, e);
      var rest := StopHeardFinishes(Step(s, e));
      JoinsCons(s, e, rest);
      events := [e] + rest;
    }
  }

  /** A pusher that has pushed before and has yet to notify wakes the consumer after all. */
  lemma LateNotifyFinishes(s: State) returns (events: seq<Event>)
    requires Inv(s) && s.registrar.Joining? && s.consumer.FallingAsleep? && s.notifies > 0
    ensures JoinsAfter(s, events)
  {
    var asleep := Step(s, FallAsleep);
    var signalled := Step(asleep, NotifyPushed);
    StepKeeps(s, FallAsleep);
    StepKeeps(asleep, NotifyPushed);
    var rest := StopHeardFinishes(signalled);
    JoinsCons(asleep, NotifyPushed, rest);
    JoinsCons(s, FallAsleep, [NotifyPushed] + rest);
    events := [FallAsleep] + ([NotifyPushed] + rest);
  }

  /** Whoever joins waits for ever: nobody is left to notify. */
  predicate Stuck(s: State) {
    s.registrar.Joining? && Sleeping(s.consumer) && s.queue == [] && s.notifies == 0
  }

  lemma {:induction false} StuckStays(s: State, events: seq<Event>)
    requires Stuck(s) && UnaidedRun(s, events)
    ensures Runs(s, events) && Stuck(Exec(s, events))
    decreases |events|
  {
    if events == [] {
    } else {
      StuckStays(Step(s, events[0]), events[1..]);
    }
  }

  /** De-registering gets stuck exactly when it notifies while the consumer is between its look at the
      condition and its sleep, and no earlier pusher has yet to notify. */
  lemma StopSticksIff(events: seq<Event>)
    requires Runs(EMPTY, events) && Enabled(Exec(EMPTY, events), NotifyStop)
    ensures var s := Exec(EMPTY, events);
      Stuck(Step(s, NotifyStop)) <==> s.consumer.FallingAsleep? && s.notifies == 0
  {
    RunKeeps(EMPTY, events);
  }

  /** Then, and only then, join can return in no run without a further push or a spurious wake-up. */
  lemma StopReturnsIff(events: seq<Event>)
    requires Runs(EMPTY, events) && Enabled(Exec(EMPTY, events), NotifyStop)
    ensures var s := Exec(EMPTY, events);
      CanJoin(Step(s, NotifyStop)) <==> !(s.consumer.FallingAsleep? && s.notifies == 0)
  {
    RunKeeps(EMPTY, events);
    var s := Exec(EMPTY, events);
    var t := Step(s, NotifyStop);
    StepKeeps(s, NotifyStop);
    if s.consumer.FallingAsleep? && s.notifies == 0 {
      forall later ensures !JoinsAfter(t, later) {
        StopMissedBlocksForever(s, later);
      }
    } else if s.consumer.FallingAsleep? {
      var later := LateNotifyFinishes(t);
    } else {
      var later := StopHeardFinishes(t);
    }
  }

  /** However the run goes on without a push or a spurious wake-up, join does not return. */
  lemma StopMissedBlocksForever(s: State, later: seq<Event>)
    requires Inv(s) && Enabled(s, NotifyStop) && s.consumer.FallingAsleep? && s.notifies == 0
    ensures !JoinsAfter(Step(s, NotifyStop), later)
  {
    if UnaidedRun(Step(s, NotifyStop), later) {
      StuckStays(Step(s, NotifyStop), later);
    }
  }

  lemma StuckReachable()
    ensures var a := Step(Step(EMPTY, StartThread), Evaluate);
      var b := Step(a, ClearRunning);
      b.consumer.FallingAsleep? && b.notifies == 0 && Enabled(b, NotifyStop) && Stuck(Step(b, NotifyStop))
  {
  }

  // ---------------------------------------------------------------- the objects

  class HWCCallbacks {
    var queue: seq<Item>             // callback_queue_
    var callbackRunning: bool
    var refresh: bool                // refresh_ is set
    var hotplug: bool                // hotplug_ is set
    var joinable: bool               // callback_thread_.joinable()

    // Where the threads are, and the histories the theorems speak of.
    ghost var consumer: Consumer
    ghost var registrar: Registrar
    ghost var notifies: nat
    ghost var pushed: seq<Item>
    ghost var consumed: seq<Item>
    ghost var told: seq<(Item, bool)>
    ghost var clearedAt: nat
    ghost var missed: bool

    constructor ()
      ensures View() == EMPTY && !joinable
    {
      queue, callbackRunning, refresh, hotplug, joinable := [], false, false, false, false;
      consumer, registrar := NoThread, Idle;
      notifies, pushed, consumed, told, clearedAt, missed := 0, [], [], [], 0, false;
    }

    ghost function View(): State
      reads this
    {
      State(queue, callbackRunning, consumer, registrar, notifies, refresh, hotplug, pushed, consumed, told, clearedAt,
            missed)
    }

    /** CallbackQueue::push, its locked section. */
    method PushLocked(item: Item)
      requires Enabled(View(), Push(item)) && (item.Refresh? ==> refresh)
      modifies this
      ensures View() == old(Step(View(), Push(item)))
      ensures queue == old(queue) + [item] && pushed == old(pushed) + [item] && notifies == old(notifies) + 1
    {
      queue := queue + [item];
      pushed := pushed + [item];
      notifies := notifies + 1;
    }

    /** HWCCallbacks::Refresh up to notify_one. */
    method RefreshDisplay(display: nat) returns (dropped: bool)
      requires Enabled(View(), Push(Refresh(display)))
      modifies this
      ensures View() == old(Step(View(), Push(Refresh(display)))) && dropped == !refresh
      ensures queue == if refresh then old(queue) + [Refresh(display)] else old(queue)
    {
      if !refresh {
        return true;
      }
      PushLocked(Refresh(display));
      dropped := false;
    }

    /** The condition of wait(), evaluated under the lock. */
    method EvaluateCondition() returns (holds: bool)
      requires Enabled(View(), Evaluate)
      modifies this`consumer
      ensures View() == old(Step(View(), Evaluate)) && holds == (queue != [] || !callbackRunning)
      ensures consumer == if holds then Returned else FallingAsleep
    {
      holds := queue != [] || !callbackRunning;
      consumer := if holds then Returned else FallingAsleep;
    }

    /** PerformHWCCallback between wait and pop: whether to leave the loop. */
    method ReadFlag() returns (ask: bool)
      requires Enabled(View(), ReadRunning)
      modifies this`consumer
      ensures View() == old(Step(View(), ReadRunning)) && ask == !callbackRunning
      ensures consumer == if ask then AskingEmpty else AtPop
    {
      ask := !callbackRunning;
      consumer := if ask then AskingEmpty else AtPop;
    }

    method AskIfEmpty() returns (leave: bool)
      requires Enabled(View(), AskEmpty)
      modifies this`consumer
      ensures View() == old(Step(View(), AskEmpty)) && leave == (queue == [])
      ensures consumer == if leave then Exited else AtPop
    {
      leave := queue == [];
      consumer := if leave then Exited else AtPop;
    }

    method PopFront() returns (head: Item)
      requires Enabled(View(), Pop)
      modifies this
      ensures View() == old(Step(View(), Pop)) && old(queue) == [head] + queue
      ensures consumed == old(consumed) + [head] && consumer == Dispatching(head)
    {
      head := queue[0];
      queue := queue[1..];
      consumed := consumed + [head];
      consumer := Dispatching(head);
    }

    /** The switch of PerformHWCCallback. */
    method DispatchParam(param: Item) returns (called: bool)
      requires consumer == Dispatching(param)
      modifies this
      ensures View() == old(Step(View(), Dispatch))
      ensures told == old(told) + [(param, called)] && consumer == AtWait
      ensures called == match param { case Refresh(_) => refresh case Hotplug(_, _) => hotplug }
    {
      match param {
        case Refresh(_) => called := refresh;
        case Hotplug(_, _) => called := hotplug;
      }
      told := told + [(param, called)];
      consumer := AtWait;
    }

    /** Register once the pointer is stored: starts the thread when there is none, then begins to stop it
        when the pointer is null. */
    method StartOrStop(pointerNull: bool)
      requires registrar == Idle && (joinable <==> !consumer.NoThread?)
      modifies this
      ensures joinable && !consumer.NoThread?
      ensures callbackRunning == (if pointerNull then false else if old(joinable) then old(callbackRunning) else true)
      ensures var started := if old(consumer).NoThread? then old(Step(View(), StartThread)) else old(View());
        View() == if pointerNull then Step(started, ClearRunning) else started
    {
      if !joinable {
        Start();
      }
      if pointerNull {
        ClearFlag();
      }
    }

    method Start()
      requires Enabled(View(), StartThread)
      modifies this`callbackRunning, this`joinable, this`consumer
      ensures joinable && View() == old(Step(View(), StartThread))
    {
      callbackRunning := true;
      joinable := true;
      consumer := AtWait;
    }

    method ClearFlag()
      requires Enabled(View(), ClearRunning)
      modifies this`callbackRunning, this`registrar, this`clearedAt
      ensures View() == old(Step(View(), ClearRunning))
    {
      callbackRunning := false;
      registrar := Cleared;
      clearedAt := |pushed|;
    }

    /** callback_thread_.join() returns. */
    method JoinThread()
      requires Enabled(View(), Join)
      modifies this`joinable, this`consumer, this`registrar
      ensures View() == old(Step(View(), Join)) && !joinable
    {
      joinable := false;
      consumer, registrar := NoThread, Idle;
    }
  }
}
