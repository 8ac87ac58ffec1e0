/** The trusted-UI transition of one display: which events it accepts in which order, and whether it keeps
    off the hardware in between. */
module SecureEvents {

  datatype SecureEvent = DisplayStart | DisplayEnd | Prepare | Start | End | UnPrepare | Max

  datatype Driver = Accepts(needsRefresh: bool) | Refuses

  datatype Error = None | Parameters | DriverError | NotSupported

  datatype Status = Resume | Online | Pause | Offline | Unknown

  /** `trace`: the state-changing events handled in full, oldest first.  `outright`: the event the display
      is in was handled in full, not just noted. */
  datatype State = State(event: SecureEvent, paused: bool, pausePending: bool, trace: seq<SecureEvent>, outright: bool)

  datatype Event =
    | Handle(event: SecureEvent, driver: Driver)
    | Note(event: SecureEvent)                 // HandleSecureEvent with update_event_only
    | PostHandle(event: SecureEvent, ok: bool)
    | Commit                                   // PostCommitLayerStack
    | Toggle(enable: bool)                     // ToggleScreenUpdates
    | SetStatus(status: Status)                // SetDisplayStatus

  const INITIAL := State(Max, false, false, [], false)

  // ---------------------------------------------------------------- operations

  function Validate(current: SecureEvent, event: SecureEvent): Error {
    match event
    case Prepare => if current != Max then Parameters else None
    case UnPrepare => if current != Prepare then Parameters else None
    case Start => if current != Prepare then Parameters else None
    case End => if current != Start then Parameters else None
    case _ => Parameters
  }

  /** The event changes the state: it is not the current one, it is valid, and the driver takes it. */
  predicate Succeeds(s: State, event: SecureEvent, driver: Driver) {
    event != s.event && Validate(s.event, event).None? && driver.Accepts?
  }

  function HandleSecureEvent(s: State, event: SecureEvent, driver: Driver): State {
    if !Succeeds(s, event, driver) then s
    else
      var t := s.(trace := s.trace + [event], event := event, outright := true);
      match event
      case Prepare => if driver.needsRefresh then t.(pausePending := true) else t.(paused := true)
      case Start => if driver.needsRefresh then t.(pausePending := true) else t.(paused := true)
      case _ => t.(paused := false, pausePending := false, event := if driver.needsRefresh then event else Max)
  }

  function HandleError(s: State, event: SecureEvent, driver: Driver): Error {
    if event == s.event then None
    else if !Validate(s.event, event).None? then Validate(s.event, event)
    else if driver.Refuses? then DriverError
    else None
  }

  function NoteSecureEvent(s: State, event: SecureEvent): State {
    if event == s.event then s else s.(event := if event.Prepare? then Prepare else Max, outright := false)
  }

  function PostHandleSecureEvent(s: State, event: SecureEvent, ok: bool): State {
    if !ok then s else s.(event := if event.End? || event.UnPrepare? then Max else event)
  }

  function PostCommit(s: State): State {
    s.(paused := s.paused || s.pausePending, pausePending := false,
       event := if s.event.DisplayEnd? || s.event.UnPrepare? then Max else s.event)
  }

  function ToggleScreenUpdates(s: State, enable: bool): State {
    if s.event != Max then s else s.(paused := !enable)
  }

  function SetDisplayStatus(s: State, status: Status): State {
    if s.event != Max then s
    else match status
      case Resume => s.(paused := false)
      case Pause => s.(paused := true)
      case _ => s
  }

  function Step(s: State, e: Event): State {
    match e
    case Handle(event, driver) => HandleSecureEvent(s, event, driver)
    case Note(event) => NoteSecureEvent(s, event)
    case PostHandle(event, ok) => PostHandleSecureEvent(s, event, ok)
    case Commit => PostCommit(s)
    case Toggle(enable) => ToggleScreenUpdates(s, enable)
    case SetStatus(status) => SetDisplayStatus(s, status)
  }

  /** PostHandleSecureEvent is called for the event just handled. */
  predicate Follows(s: State, e: Event) {
    e.PostHandle? ==> s.trace != [] && s.trace[|s.trace| - 1] == e.event
  }

  predicate Full(e: Event) {
    !e.Note?
  }

  predicate FullRun(s: State, events: seq<Event>)
    decreases |events|
  {
    events == [] || (Full(events[0]) && Follows(s, events[0]) && FullRun(Step(s, events[0]), events[1..]))
  }

  function Exec(s: State, events: seq<Event>): State
    decreases |events|
  {
    if events == [] then s else Exec(Step(s, events[0]), events[1..])
  }

  // ---------------------------------------------------------------- the order of events

  /** A beginning of any number of rounds, each Prepare UnPrepare or Prepare Start End. */
  predicate Rounds(trace: seq<SecureEvent>)
    decreases |trace|
  {
    || trace == [] || trace == [Prepare] || trace == [Prepare, Start]
    || ([Prepare, UnPrepare] <= trace && Rounds(trace[2..]))
    || ([Prepare, Start, End] <= trace && Rounds(trace[3..]))
  }

  /** Where in a round a trace stops. */
  datatype Phase = Idle | Prepared | Started

  function PhaseOf(event: SecureEvent): Phase {
    match event
    case Prepare => Prepared
    case Start => Started
    case _ => Idle
  }

  predicate StopsIn(trace: seq<SecureEvent>, phase: Phase) {
    match phase
    case Idle => trace == [] || trace[|trace| - 1].UnPrepare? || trace[|trace| - 1].End?
    case Prepared => trace != [] && trace[|trace| - 1].Prepare?
    case Started => trace != [] && trace[|trace| - 1].Start?
  }

  /** What may follow a trace that stops there. */
  predicate Continues(phase: Phase, event: SecureEvent) {
    match phase
    case Idle => event.Prepare?
    case Prepared => event.UnPrepare? || event.Start?
    case Started => event.End?
  }

  /** What validation admits in a state may follow there; not the other way round, for after an End or an
      UnPrepare that waits for a commit nothing is admitted yet. */
  lemma AdmittedContinues(current: SecureEvent, event: SecureEvent)
    requires Validate(current, event).None?
    ensures Continues(PhaseOf(current), event)
  {
  }

  /** An event that validation admits continues the rounds. */
  lemma AdmittedExtends(trace: seq<SecureEvent>, current: SecureEvent, event: SecureEvent)
    requires Rounds(trace) && StopsIn(trace, PhaseOf(current)) && Validate(current, event).None?
    ensures Rounds(trace + [event])
  {
    AdmittedContinues(current, event);
    RoundsExtend(trace, PhaseOf(current), event);
  }

  lemma {:induction false} RoundsExtend(trace: seq<SecureEvent>, phase: Phase, event: SecureEvent)
    requires Rounds(trace) && StopsIn(trace, phase) && Continues(phase, event)
    ensures Rounds(trace + [event])
    decreases |trace|
  {
    var longer := trace + [event];
    if trace == [] {
      assert longer == [Prepare];
    } else if trace == [Prepare] {
      assert longer == [Prepare, event];
      assert longer[2..] == [];
    } else if trace == [Prepare, Start] {
      assert longer == [Prepare, Start, End];
      assert longer[3..] == [];
    } else {
      var n := if [Prepare, UnPrepare] <= trace && Rounds(trace[2..]) then 2 else 3;
      assert StopsIn(trace[n..], phase);
      RoundsExtend(trace[n..], phase, event);
      assert longer[n..] == trace[n..] + [event];
      assert longer[..n] == trace[..n];
      assert trace[..n] <= longer;
      if n == 2 {
        assert trace[..2] == [Prepare, UnPrepare];
      } else {
        assert trace[..3] == [Prepare, Start, End];
      }
    }
  }

  predicate Held(s: State) {
    s.paused || s.pausePending
  }

  /** What every run of fully handled events keeps. */
  predicate FullInv(s: State) {
    && Rounds(s.trace) && StopsIn(s.trace, PhaseOf(s.event))
    && (s.event.Prepare? || s.event.Start? ==> Held(s))
    && !s.event.DisplayStart? && !s.event.DisplayEnd?
  }

  lemma FullStepKeeps(s: State, e: Event)
    requires FullInv(s) && Full(e) && Follows(s, e)
    ensures FullInv(Step(s, e))
  {
    if e.Handle? {
      HandleKeeps(s, e.event, e.driver);
    }
  }

  lemma HandleKeeps(s: State, event: SecureEvent, driver: Driver)
    requires FullInv(s)
    ensures FullInv(HandleSecureEvent(s, event, driver))
  {
    if Succeeds(s, event, driver) {
      AdmittedExtends(s.trace, s.event, event);
      HandleStops(s, event, driver);
    }
  }

  lemma HandleStops(s: State, event: SecureEvent, driver: Driver)
    requires Succeeds(s, event, driver)
    ensures var t := HandleSecureEvent(s, event, driver);
      t.trace == s.trace + [event] && StopsIn(t.trace, PhaseOf(t.event))
  {
  }

  /** With full handling only, the events that take effect come in rounds, and while the display is
      prepared or started it is paused, or will be by its next commit: whatever commits, screen toggles,
      status changes and refused events come in between. */
  lemma {:induction false} FullRunKeeps(s: State, events: seq<Event>)
    requires FullInv(s) && FullRun(s, events)
    ensures FullInv(Exec(s, events))
    decreases |events|
  {
    if events == [] {
    } else {
      FullStepKeeps(s, events[0]);
      FullRunKeeps(Step(s, events[0]), events[1..]);
    }
  }

  /** From its start on, a display that handles its events in full is in rounds and held while it should be. */
  lemma ReachableInRounds(events: seq<Event>)
    requires FullRun(INITIAL, events)
    ensures FullInv(Exec(INITIAL, events))
  {
    FullRunKeeps(INITIAL, events);
  }

  predicate Passive(e: Event) {
    e.Commit? || e.Toggle? || e.SetStatus?
  }

  lemma {:induction false} StaysPaused(s: State, events: seq<Event>)
    requires s.event.Prepare? || s.event.Start?
    requires s.paused && forall i :: 0 <= i < |events| ==> Passive(events[i])
    ensures Exec(s, events).paused && Exec(s, events).event == s.event
    decreases |events|
  {
    if events == [] {
    } else {
      assert Passive(events[0]);
      StaysPaused(Step(s, events[0]), events[1..]);
    }
  }

  /** Once a Prepare or Start has taken effect, the next commit at the latest pauses the display, and no
      screen toggle, status change or further commit resumes it. */
  lemma PausedAfterCommit(s: State, event: SecureEvent, driver: Driver, events: seq<Event>)
    requires Succeeds(s, event, driver) && (event.Prepare? || event.Start?)
    requires events != [] && events[0].Commit? && forall i :: 0 <= i < |events| ==> Passive(events[i])
    ensures var t := Exec(HandleSecureEvent(s, event, driver), events);
      t.paused && t.event == event
  {
    var t := Step(HandleSecureEvent(s, event, driver), events[0]);
    StaysPaused(t, events[1..]);
  }

  /** The display is let go exactly by handling End or UnPrepare, whose success clears pause and pending
      pause alike. */
  lemma ReleasedIff(s: State, e: Event)
    requires FullInv(s) && Full(e) && Follows(s, e) && (s.event.Prepare? || s.event.Start?)
    ensures !Held(Step(s, e)) <==>
      e.Handle? && Succeeds(s, e.event, e.driver) && (e.event.End? || e.event.UnPrepare?)
  {
  }

  // ---------------------------------------------------------------- events only noted

  /** What runs keep that also contain events which are only noted: the target display is prepared that
      way before its Start is handled. */
  predicate MixedInv(s: State) {
    (s.event.Start? ==> Held(s)) && (s.event.Prepare? && s.outright ==> Held(s))
  }

  /** PostHandleSecureEvent for the event the display is in, or one that ends the transition. */
  predicate Current(s: State, e: Event) {
    e.PostHandle? ==> e.event == s.event || e.event.End? || e.event.UnPrepare?
  }

  predicate MixedRun(s: State, events: seq<Event>)
    decreases |events|
  {
    events == [] || (Current(s, events[0]) && MixedRun(Step(s, events[0]), events[1..]))
  }

  /** A started display is paused or about to be, however it was prepared. */
  lemma {:induction false} MixedRunKeeps(s: State, events: seq<Event>)
    requires MixedInv(s) && MixedRun(s, events)
    ensures MixedInv(Exec(s, events))
    decreases |events|
  {
    if events == [] {
    } else {
      MixedRunKeeps(Step(s, events[0]), events[1..]);
    }
  }

  lemma ReachableHeld(events: seq<Event>)
    requires MixedRun(INITIAL, events) && Exec(INITIAL, events).event.Start?
    ensures Held(Exec(INITIAL, events))
  {
    MixedRunKeeps(INITIAL, events);
  }

  /** A display not held comes to be prepared without being held exactly when the Prepare is only noted, or
      the event is posted without having been handled. */
  lemma UnheldPrepareIff(s: State, e: Event)
    requires !Held(s) && !s.event.Prepare?
    ensures Step(s, e).event.Prepare? && !Held(Step(s, e)) <==>
      (e.Note? && e.event.Prepare?) || (e.PostHandle? && e.ok && e.event.Prepare?)
  {
  }

  /** With a noted Prepare, the fully handled events alone no longer come in rounds. */
  lemma NotedPrepareSkipsRound(needsRefresh: bool)
    ensures var s := HandleSecureEvent(NoteSecureEvent(INITIAL, Prepare), Start, Accepts(needsRefresh));
      s.event == Start && Held(s) && s.trace == [Start] && !Rounds(s.trace)
  {
    var s := HandleSecureEvent(NoteSecureEvent(INITIAL, Prepare), Start, Accepts(needsRefresh));
    assert s.trace[0] == Start;
  }

  // ---------------------------------------------------------------- the display

  class HWCDisplay {
    var secureEvent: SecureEvent     // secure_event_; Max when there is none
    var displayPaused: bool
    var displayPausePending: bool
    ghost var trace: seq<SecureEvent>
    ghost var outright: bool

    constructor ()
      ensures View() == INITIAL
    {
      secureEvent, displayPaused, displayPausePending, trace, outright := Max, false, false, [], false;
    }

    ghost function View(): State
      reads this
    {
      State(secureEvent, displayPaused, displayPausePending, trace, outright)
    }

    method ValidateTUITransition(event: SecureEvent) returns (error: Error)
      ensures error == Validate(secureEvent, event)
      ensures error == None <==>
        || (event == Prepare && secureEvent == Max) || (event == UnPrepare && secureEvent == Prepare)
        || (event == Start && secureEvent == Prepare) || (event == End && secureEvent == Start)
      ensures error != None ==> error == Parameters
    {
      error := None;
      match event {
        case Prepare =>
          if secureEvent != Max {
            return Parameters;
          }
        case UnPrepare =>
          if secureEvent != Prepare {
            return Parameters;
          }
        case Start =>
          if secureEvent != Prepare {
            return Parameters;
          }
        case End =>
          if secureEvent != Start {
            return Parameters;
          }
        case _ =>
          return Parameters;
      }
    }

    method HandleSecureEvent(event: SecureEvent, driver: Driver, updateEventOnly: bool) returns (error: Error)
      modifies this
      ensures View() == old(if updateEventOnly then NoteSecureEvent(View(), event)
                            else Step(View(), Handle(event, driver)))
      ensures error == if updateEventOnly then None else HandleError(old(View()), event, driver)
      ensures event == old(secureEvent) || error != None ==> View() == old(View())
      ensures event != old(secureEvent) && updateEventOnly ==>
        && secureEvent == (if event == Prepare then Prepare else Max)
        && displayPaused == old(displayPaused) && displayPausePending == old(displayPausePending)
      ensures event != old(secureEvent) && !updateEventOnly && error == None ==>
        && driver.Accepts? && trace == old(trace) + [event]
        && (event == Prepare || event == Start ==>
              && secureEvent == event
              && displayPaused == (old(displayPaused) || !driver.needsRefresh)
              && displayPausePending == (old(displayPausePending) || driver.needsRefresh))
        && (event == End || event == UnPrepare ==>
              && !displayPaused && !displayPausePending
              && secureEvent == (if driver.needsRefresh then event else Max))
      ensures event != old(secureEvent) && !updateEventOnly ==>
        var fits := || (event == Prepare && old(secureEvent) == Max)
                    || (event == UnPrepare && old(secureEvent) == Prepare)
                    || (event == Start && old(secureEvent) == Prepare) || (event == End && old(secureEvent) == Start);
        error == if !fits then Parameters else if driver.Refuses? then DriverError else None
      ensures event == old(secureEvent) || updateEventOnly ==> error == None
    {
      if event == secureEvent {
        return None;
      }
      if updateEventOnly {
        outright := false;
        if event == Prepare {
          secureEvent := Prepare;
        } else {
          secureEvent := Max;
        }
        return None;
      }
      error := ValidateTUITransition(event);
      if error != None {
        return;
      }
      if driver.Refuses? {
        return DriverError;
      }
      trace := trace + [event];
      outright := true;
      if event == End || event == UnPrepare {
        displayPaused := false;
        displayPausePending := false;
        if !driver.needsRefresh {
          secureEvent := Max;
          return;
        }
      } else if driver.needsRefresh {
        displayPausePending := true;
      } else {
        displayPaused := true;
      }
      secureEvent := event;
    }

    method PostHandleSecureEvent(event: SecureEvent, ok: bool)
      modifies this`secureEvent
      ensures View() == old(Step(View(), PostHandle(event, ok)))
      ensures secureEvent == if !ok then old(secureEvent) else if event == End || event == UnPrepare then Max else event
    {
      if ok {
        if event == End || event == UnPrepare {
          secureEvent := Max;
          return;
        }
        secureEvent := event;
      }
    }

    method PostCommitLayerStack()
      modifies this`secureEvent, this`displayPaused, this`displayPausePending
      ensures View() == old(PostCommit(View()))
      ensures displayPaused == old(displayPaused || displayPausePending) && !displayPausePending
      ensures secureEvent == if old(secureEvent) in {DisplayEnd, UnPrepare} then Max else old(secureEvent)
    {
      if displayPausePending {
        displayPaused := true;
        displayPausePending := false;
      }
      if secureEvent == DisplayEnd || secureEvent == UnPrepare {
        secureEvent := Max;
      }
    }

    method ToggleScreenUpdates(enable: bool) returns (error: Error)
      modifies this`displayPaused
      ensures View() == old(Step(View(), Toggle(enable)))
      ensures error == if secureEvent == Max then None else NotSupported
      ensures displayPaused == if secureEvent == Max then !enable else old(displayPaused)
    {
      if secureEvent != Max {
        return NotSupported;
      }
      displayPaused := if enable then false else true;
      error := None;
    }

    method SetDisplayStatus(status: Status) returns (error: Error)
      modifies this`displayPaused
      ensures View() == old(Step(View(), SetStatus(status)))
      ensures error == if secureEvent != Max then NotSupported else if status.Unknown? then Parameters else None
      ensures secureEvent == Max && status == Resume ==> !displayPaused
      ensures secureEvent == Max && status == Pause ==> displayPaused
      ensures secureEvent != Max || (status != Resume && status != Pause) ==> displayPaused == old(displayPaused)
    {
      if secureEvent != Max {
        return NotSupported;
      }
      error := None;
      match status {
        case Resume => displayPaused := false;
        case Pause => displayPaused := true;
        case Online =>
        case Offline =>
        case Unknown => return Parameters;
      }
    }
  }
}
