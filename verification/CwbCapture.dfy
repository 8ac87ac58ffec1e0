/** The two maps a display keeps about concurrent writeback: which client owns each outstanding output
    buffer, and the last answer known for each client.  Each lock-held section is one step. */
module CwbCapture {
  import opened Counting
  import opened KeyOrder

  /** In the order of the enumeration, which is the order std::map iterates them in. */
  datatype Client = NoClient | FrameDump | Color | External | Composer

  datatype Status = Signaled | TimedOut | NotAvailable | NotChecked | Pending | UnknownError

  datatype Fence = Null | Fd(id: nat)

  datatype Response = Response(handle: nat, client: Client, status: Status, fence: Fence)

  /** layer_stack_.output_buffer. */
  datatype Output = NoOutput | Buffer(handle: nat)

  datatype DriverAnswer = Taken | BadParameters | OtherError

  datatype Error = None | BadDisplay | Unsupported | BadParameter

  /** What SetReadbackBuffer finds out about a request before it takes the lock. */
  datatype Request = Request(handle: nat, poweredDown: bool, secureTransition: bool, hasBuffer: bool, fdValid: bool,
                             formatOk: bool, driver: DriverAnswer)

  datatype State = State(buffers: map<nat, Client>, captures: map<Client, Response>, output: Output)

  datatype Event =
    | SetReadback(client: Client, request: Request)
    | SetOutput(output: Output)              // the layer stack is rebuilt
    | FrameOutput                            // HandleFrameOutput
    | CaptureLook                            // HandleFrameCapture looks the colour client up
    | DumpLook                               // HandleFrameDump looks the frame-dump client up
    | DumpTake                               // HandleFrameDump takes the answer
    | NotifyDone(handle: nat, status: int, fence: Fence, handled: bool)   // `handled`: the event handler returned 0
    | GetFence(client: Client, driver: Fence)

  datatype Collected = Collected(state: State, fence: Fence, status: Status)

  const UNSET := Response(0, NoClient, Signaled, Null)
  const EMPTY := State(map[], map[], NoOutput)
  const ETIME := 62

  // ---------------------------------------------------------------- steps

  function Verdict(r: Request): Error {
    if r.poweredDown then BadDisplay
    else if r.secureTransition then Unsupported
    else if !r.hasBuffer || !r.fdValid || !r.formatOk || r.driver.BadParameters? then BadParameter
    else if r.driver.OtherError? then Unsupported
    else None
  }

  /** operator[] of std::map: a missing entry springs up unset. */
  function Touch(captures: map<Client, Response>, c: Client): (t: map<Client, Response>)
    ensures c in t && t.Keys == captures.Keys + {c}
    ensures forall d :: d in captures ==> t[d] == captures[d]
    ensures c !in captures ==> t[c] == UNSET
  {
    if c in captures then captures else captures[c := UNSET]
  }

  function Accept(s: State, handle: nat, c: Client): State {
    var captures := Touch(s.captures, c);
    s.(buffers := if handle in s.buffers then s.buffers else s.buffers[handle := c],
       captures := if captures[c].handle == handle then captures - {c} else captures)
  }

  function SetReadbackBuffer(s: State, c: Client, r: Request): State {
    if Verdict(r).None? then Accept(s, r.handle, c) else s
  }

  /** Told from what the request is made of: it is accepted exactly when the display is on, no trusted-UI
      transition is under way, buffer, descriptor and format are good and the driver took it; otherwise the
      first check that fails decides the error, and both maps stay as they were. */
  lemma RequestOutcome(s: State, c: Client, r: Request)
    ensures Verdict(r) == None <==>
      !r.poweredDown && !r.secureTransition && r.hasBuffer && r.fdValid && r.formatOk && r.driver == Taken
    ensures Verdict(r) == BadDisplay <==> r.poweredDown
    ensures Verdict(r) == BadParameter <==>
      && !r.poweredDown && !r.secureTransition
      && (!r.hasBuffer || !r.fdValid || !r.formatOk || r.driver == BadParameters)
    ensures var t := Step(s, SetReadback(c, r));
      if !r.poweredDown && !r.secureTransition && r.hasBuffer && r.fdValid && r.formatOk && r.driver == Taken
      then t.buffers.Keys == s.buffers.Keys + {r.handle}
      else t == s
  {
  }

  function ClientAt(i: nat): (c: Client)
    requires i < 5
  {
    [NoClient, FrameDump, Color, External, Composer][i]
  }

  /** What HandleFrameOutput looks for among the answers when the output buffer has no owner. */
  predicate Wanted(output: Output, r: Response) {
    if output.Buffer? then r.handle == output.handle else r.handle != 0
  }

  /** First wanted entry in client order from `i` on, or 5. */
  function FindEntry(captures: map<Client, Response>, output: Output, i: nat): (j: nat)
    requires i <= 5
    ensures i <= j <= 5
    ensures j < 5 ==> ClientAt(j) in captures && Wanted(output, captures[ClientAt(j)])
    ensures forall k :: i <= k < j ==> !(ClientAt(k) in captures && Wanted(output, captures[ClientAt(k)]))
    decreases 5 - i
  {
    if i == 5 || (ClientAt(i) in captures && Wanted(output, captures[ClientAt(i)])) then i
    else FindEntry(captures, output, i + 1)
  }

  /** HandleFrameOutput's locked section. */
  function HandleFrameOutput(s: State): State {
    if s.output.Buffer? && s.output.handle in s.buffers then
      var c := s.buffers[s.output.handle];
      var captures := Touch(s.captures, c);
      s.(captures := captures[c := Response(s.output.handle, c, NotChecked, captures[c].fence)])
    else s
  }

  /** The client whose frame handler HandleFrameOutput then runs. */
  function FrameClient(s: State): Client {
    if s.output.Buffer? && s.output.handle in s.buffers then s.buffers[s.output.handle]
    else
      var j := FindEntry(s.captures, s.output, 0);
      if j < 5 then s.captures[ClientAt(j)].client else NoClient
  }

  function StatusOf(status: int): (r: Status)
    ensures r == Signaled <==> status == 0
    ensures r == TimedOut <==> status == -62
    ensures r == UnknownError <==> status != 0 && status != -62
  {
    if status == 0 then Signaled else if status == -ETIME then TimedOut else UnknownError
  }

  function NotifyCwbDone(s: State, handle: nat, status: int, fence: Fence, handled: bool): State {
    if handle !in s.buffers then s
    else
      var c := s.buffers[handle];
      var captures := s.captures[c := Response(handle, c, StatusOf(status), fence)];
      s.(buffers := s.buffers - {handle}, captures := if c.External? && handled then captures - {c} else captures)
  }

  /** First buffer of the client among `keys`, in the order std::map iterates them, or 0. */
  function FirstBuffer(buffers: map<nat, Client>, keys: set<nat>, c: Client): (h: nat)
    requires keys <= buffers.Keys
    ensures h != 0 ==> h in buffers && buffers[h] == c
    ensures h == 0 ==> 0 in keys || forall k :: k in keys ==> buffers[k] != c
    ensures forall k :: k in keys && buffers[k] == c ==> h <= k
  {
    if keys == {} then 0
    else
      var k := Least(keys);
      if buffers[k] == c then k else FirstBuffer(buffers, keys - {k}, c)
  }

  predicate OwnsOutput(s: State, c: Client) {
    s.output.Buffer? && s.output.handle in s.buffers && s.buffers[s.output.handle] == c
  }

  /** The buffer a poll of the client is about, or 0. */
  function Claimed(s: State, c: Client): nat {
    if c in s.captures && s.captures[c].handle != 0 then s.captures[c].handle
    else if s.output.Buffer? then (if OwnsOutput(s, c) then s.output.handle else 0)
    else FirstBuffer(s.buffers, s.buffers.Keys, c)
  }

  /** GetReadbackBufferFenceForClient; `driver` is what the driver knows about the output buffer. */
  function Collect(s: State, c: Client, driver: Fence): Collected {
    if c.NoClient? then Collected(s, Null, UnknownError)
    else
      var captures := Touch(s.captures, c);
      var r := captures[c];
      var handle := Claimed(s, c);
      var fence :=
        if r.handle != 0 then (if r.status.NotChecked? then driver else r.fence)
        else if s.output.Buffer? then driver
        else Null;
      var status := if r.handle != 0 then r.status else if OwnsOutput(s, c) then NotChecked else Signaled;
      Collected(
        if fence.Null? then s.(captures := captures)
        else s.(captures := captures - {c}, buffers := s.buffers - {handle}),
        fence,
        if handle == 0 then NotAvailable else if fence.Null? then Pending else status)
  }

  function Step(s: State, e: Event): State {
    match e
    case SetReadback(c, r) => SetReadbackBuffer(s, c, r)
    case SetOutput(o) => s.(output := o)
    case FrameOutput => HandleFrameOutput(s)
    case CaptureLook => s.(captures := Touch(s.captures, Color))
    case DumpLook => s.(captures := Touch(s.captures, FrameDump))
    case DumpTake => s.(captures := s.captures - {FrameDump})
    case NotifyDone(h, status, fence, handled) => NotifyCwbDone(s, h, status, fence, handled)
    case GetFence(c, driver) => Collect(s, c, driver).state
  }

  function Exec(s: State, events: seq<Event>): State
    decreases |events|
  {
    if events == [] then s else Exec(Step(s, events[0]), events[1..])
  }

  // ---------------------------------------------------------------- the two maps agree

  /** Every accepted readback uses a non-zero handle that belongs to the client asking. */
  predicate Respects(e: Event, owner: nat -> Client) {
    e.SetReadback? && Verdict(e.request).None? ==> e.request.handle != 0 && owner(e.request.handle) == e.client
  }

  predicate Owned(s: State, owner: nat -> Client) {
    forall h :: h in s.buffers ==> h != 0 && s.buffers[h] == owner(h)
  }

  predicate EntryOk(s: State, owner: nat -> Client, c: Client)
    requires c in s.captures
  {
    var r := s.captures[c];
    && r.status != NotAvailable && r.status != Pending
    && (r.handle != 0 ==> r.client == c && owner(r.handle) == c && (r.status.NotChecked? <==> r.handle in s.buffers))
  }

  predicate Inv(s: State, owner: nat -> Client) {
    Owned(s, owner) && forall c :: c in s.captures ==> EntryOk(s, owner, c)
  }

  /** Whatever happens next, an answer with a buffer stays under its own client, and stays "not checked"
      exactly as long as its buffer is outstanding. */
  lemma StepKeeps(s: State, e: Event, owner: nat -> Client)
    requires Inv(s, owner) && Respects(e, owner)
    ensures Inv(Step(s, e), owner)
  {
    var t := Step(s, e);
    forall c | c in t.captures ensures EntryOk(t, owner, c) {
      assert c in s.captures ==> EntryOk(s, owner, c);
    }
  }

  lemma {:induction false} RunKeeps(s: State, events: seq<Event>, owner: nat -> Client)
    requires Inv(s, owner) && forall i :: 0 <= i < |events| ==> Respects(events[i], owner)
    ensures Inv(Exec(s, events), owner)
    decreases |events|
  {
    if events == [] {
    } else {
      assert Respects(events[0], owner);
      StepKeeps(s, events[0], owner);
      RunKeeps(Step(s, events[0]), events[1..], owner);
    }
  }

  /** In every reachable state the two maps agree. */
  lemma ReachableAgrees(events: seq<Event>, owner: nat -> Client)
    requires forall i :: 0 <= i < |events| ==> Respects(events[i], owner)
    ensures Inv(Exec(EMPTY, events), owner)
  {
    RunKeeps(EMPTY, events, owner);
  }

  /** The `i`-th client has an answer about the output buffer or, with no output buffer, about any. */
  predicate Sought(s: State, i: nat)
    requires i < 5
  {
    && ClientAt(i) in s.captures
    && var h := s.captures[ClientAt(i)].handle; if s.output.Buffer? then h == s.output.handle else h != 0
  }

  /** Without an owner of the output buffer, the handler that runs is that of the first such client. */
  lemma FrameClientFirst(s: State, k: nat)
    requires k < 5 && !(s.output.Buffer? && s.output.handle in s.buffers)
    ensures (forall i :: 0 <= i < 5 ==> !Sought(s, i)) ==> FrameClient(s) == NoClient
    ensures Sought(s, k) && (forall i :: 0 <= i < k ==> !Sought(s, i)) ==>
      FrameClient(s) == s.captures[ClientAt(k)].client
  {
    var j := FindEntry(s.captures, s.output, 0);
    assert j < 5 ==> Sought(s, j);
    assert Sought(s, k) <==> ClientAt(k) in s.captures && Wanted(s.output, s.captures[ClientAt(k)]);
  }

  /** HandleFrameOutput runs the handler of the client that owns the output buffer, if anything is known
      about that buffer at all. */
  lemma FrameClientIsOwner(s: State, owner: nat -> Client)
    requires Inv(s, owner) && s.output.Buffer? && s.output.handle != 0
    ensures FrameClient(s) == owner(s.output.handle) || FrameClient(s) == NoClient
    ensures s.output.handle in s.buffers ==> FrameClient(s) == owner(s.output.handle)
  {
    var j := FindEntry(s.captures, s.output, 0);
    if s.output.handle !in s.buffers && j < 5 {
      assert EntryOk(s, owner, ClientAt(j));
    }
  }

  // ---------------------------------------------------------------- each readback is answered once

  predicate Opens(s: State, e: Event, h: nat) {
    e.SetReadback? && Verdict(e.request).None? && e.request.handle == h && h !in s.buffers
  }

  predicate Completes(s: State, e: Event, h: nat) {
    e.NotifyDone? && e.handle == h && h in s.buffers
  }

  /** The client polls the fence before the completion comes. */
  predicate Collects(s: State, e: Event, h: nat) {
    e.GetFence? && h in s.buffers && h !in Collect(s, e.client, e.driver).state.buffers
  }

  function OpensIn(s: State, events: seq<Event>, h: nat): nat
    decreases |events|
  {
    if events == [] then 0 else One(Opens(s, events[0], h)) + OpensIn(Step(s, events[0]), events[1..], h)
  }

  function CompletesIn(s: State, events: seq<Event>, h: nat): nat
    decreases |events|
  {
    if events == [] then 0 else One(Completes(s, events[0], h)) + CompletesIn(Step(s, events[0]), events[1..], h)
  }

  function CollectsIn(s: State, events: seq<Event>, h: nat): nat
    decreases |events|
  {
    if events == [] then 0 else One(Collects(s, events[0], h)) + CollectsIn(Step(s, events[0]), events[1..], h)
  }

  /** Conservation, for every run and every handle, shared or not: each readback of a buffer that opened
      was completed once, collected early once, or is still outstanding. */
  lemma {:induction false} ReadbacksConserved(s: State, events: seq<Event>, h: nat)
    ensures One(h in s.buffers) + OpensIn(s, events, h) ==
            CompletesIn(s, events, h) + CollectsIn(s, events, h) + One(h in Exec(s, events).buffers)
    decreases |events|
  {
    if events == [] {
    } else {
      ReadbackStep(s, events[0], h);
      ReadbacksConserved(Step(s, events[0]), events[1..], h);
    }
  }

  lemma ReadbackStep(s: State, e: Event, h: nat)
    ensures One(h in s.buffers) + One(Opens(s, e, h)) ==
            One(Completes(s, e, h)) + One(Collects(s, e, h)) + One(h in Step(s, e).buffers)
  {
  }

  predicate Reopens(e: Event, h: nat) {
    e.SetReadback? && Verdict(e.request).None? && e.request.handle == h
  }

  predicate ReopensFor(e: Event, h: nat, c: Client) {
    Reopens(e, h) && e.client == c
  }

  /** A repeated completion changes nothing, however much later it comes, until the buffer is set again. */
  lemma {:induction false} RepeatedNotifyIsNoop(s: State, events: seq<Event>, h: nat, status: int, fence: Fence,
                                                handled: bool)
    requires h !in s.buffers && forall i :: 0 <= i < |events| ==> !Reopens(events[i], h)
    ensures var t := Exec(s, events); NotifyCwbDone(t, h, status, fence, handled) == t
    decreases |events|
  {
    if events == [] {
    } else {
      assert !Reopens(events[0], h);
      RepeatedNotifyIsNoop(Step(s, events[0]), events[1..], h, status, fence, handled);
    }
  }

  // ---------------------------------------------------------------- the answer reaches its client

  /** The event leaves the answer of client `c` alone: `c` sets another buffer or none, its own buffer is not
      the frame's output, no buffer of its own completes, and it does not take the answer. */
  predicate Spares(s: State, e: Event, c: Client)
    requires c in s.captures
  {
    match e
    case SetReadback(d, r) => d != c || !Verdict(r).None? || r.handle != s.captures[c].handle
    case SetOutput(o) => true
    case FrameOutput => !OwnsOutput(s, c)
    case CaptureLook => true
    case DumpLook => true
    case DumpTake => c != FrameDump
    case NotifyDone(h, _, _, _) => h !in s.buffers || s.buffers[h] != c
    case GetFence(d, _) => d != c
  }

  predicate SparingRun(s: State, events: seq<Event>, c: Client)
    decreases |events|
  {
    events == [] || (c in s.captures && Spares(s, events[0], c) && SparingRun(Step(s, events[0]), events[1..], c))
  }

  /** Until then a client's answer stays, whatever the other clients and the frames in between do. */
  lemma {:induction false} AnswerKept(s: State, events: seq<Event>, c: Client)
    requires c in s.captures && SparingRun(s, events, c)
    ensures var t := Exec(s, events); c in t.captures && t.captures[c] == s.captures[c]
    decreases |events|
  {
    if events == [] {
    } else {
      AnswerStep(s, events[0], c);
      AnswerKept(Step(s, events[0]), events[1..], c);
    }
  }

  lemma AnswerStep(s: State, e: Event, c: Client)
    requires c in s.captures && Spares(s, e, c)
    ensures c in Step(s, e).captures && Step(s, e).captures[c] == s.captures[c]
  {
  }

  /** A client told that its buffer is done gets, when it polls later, the fence and the verdict of that
      completion, and the poll after that finds nothing; the external client's event handler, if it took
      the completion, has had it already and nothing is kept. */
  lemma CompletionReachesPoll(s: State, h: nat, status: int, fence: Fence, handled: bool, events: seq<Event>, c: Client,
                              driver: Fence)
    requires h != 0 && h in s.buffers && s.buffers[h] == c && c != NoClient && fence != Null
    requires SparingRun(NotifyCwbDone(s, h, status, fence, handled), events, c)
    ensures var done := NotifyCwbDone(s, h, status, fence, handled);
      if c.External? && handled then c !in done.captures
      else
        var first := Collect(Exec(done, events), c, driver);
        first.fence == fence && first.status == StatusOf(status) && c !in first.state.captures
  {
    if !(c.External? && handled) {
      AnswerKept(NotifyCwbDone(s, h, status, fence, handled), events, c);
    }
  }

  // ---------------------------------------------------------------- where it does not hold

  /** The readback of `h` is neither completed nor collected in the run. */
  predicate StaysOpen(s: State, events: seq<Event>, h: nat)
    decreases |events|
  {
    events == [] ||
    (!Completes(s, events[0], h) && !Collects(s, events[0], h) && StaysOpen(Step(s, events[0]), events[1..], h))
  }

  /** The answer kept for client `c` is about buffer `h`. */
  predicate Holding(s: State, c: Client, h: nat) {
    c in s.captures && s.captures[c].handle == h && s.captures[c].client == c
  }

  /** As long as a buffer is outstanding it belongs to the client that opened it, whoever sets it again, and
      no other client gets an answer about it. */
  lemma {:induction false} OwnerStays(s: State, events: seq<Event>, h: nat, c: Client)
    requires h in s.buffers && StaysOpen(s, events, h) && c != NoClient
    ensures var t := Exec(s, events);
      && h in t.buffers && t.buffers[h] == s.buffers[h]
      && (s.buffers[h] != c && !Holding(s, c, h) ==> !Holding(t, c, h))
    decreases |events|
  {
    if events == [] {
    } else {
      OwnerStep(s, events[0], h, c);
      OwnerStays(Step(s, events[0]), events[1..], h, c);
    }
  }

  lemma OwnerStep(s: State, e: Event, h: nat, c: Client)
    requires h in s.buffers && !Completes(s, e, h) && !Collects(s, e, h) && c != NoClient
    ensures var t := Step(s, e);
      && h in t.buffers && t.buffers[h] == s.buffers[h]
      && (s.buffers[h] != c && !Holding(s, c, h) ==> !Holding(t, c, h))
  {
  }

  /** Whatever happens between the acceptance of a readback and the completion of its buffer, the completion
      is recorded for the client that asked exactly when no other client had the buffer outstanding - emplace
      does not overwrite - and the external client's event handler did not take it. */
  lemma AcceptAnsweredIff(s: State, h: nat, c: Client, events: seq<Event>, status: int, fence: Fence, handled: bool)
    requires c != NoClient && StaysOpen(Accept(s, h, c), events, h)
    ensures var t := Exec(Accept(s, h, c), events);
      && h in t.buffers && (t.buffers[h] == c <==> h !in s.buffers || s.buffers[h] == c)
      && var told := NotifyCwbDone(t, h, status, fence, handled).captures;
         (c in told && told[c] == Response(h, c, StatusOf(status), fence)) <==>
         (h !in s.buffers || s.buffers[h] == c) && !(c.External? && handled)
  {
    var a := Accept(s, h, c);
    assert h in a.buffers && !Holding(a, c, h);
    OwnerStays(a, events, h, c);
  }

  /** The second client of a shared buffer is accepted and never answered: not by the first completion nor
      by any later one, until it sets the buffer again. */
  lemma SecondClientNeverAnswered(s: State, h: nat, c: Client, events: seq<Event>)
    requires h in s.buffers && s.buffers[h] != c && c != NoClient
    requires forall i :: 0 <= i < |events| ==> !ReopensFor(events[i], h, c)
    ensures !Holding(Exec(Accept(s, h, c), events), c, h)
  {
    NeverHolds(Accept(s, h, c), events, h, c);
  }

  lemma {:induction false} NeverHolds(s: State, events: seq<Event>, h: nat, c: Client)
    requires c != NoClient && !Holding(s, c, h) && (h in s.buffers ==> s.buffers[h] != c)
    requires forall i :: 0 <= i < |events| ==> !ReopensFor(events[i], h, c)
    ensures !Holding(Exec(s, events), c, h)
    decreases |events|
  {
    if events == [] {
    } else {
      assert !ReopensFor(events[0], h, c);
      NeverHoldsStep(s, events[0], h, c);
      NeverHolds(Step(s, events[0]), events[1..], h, c);
    }
  }

  lemma NeverHoldsStep(s: State, e: Event, h: nat, c: Client)
    requires c != NoClient && !Holding(s, c, h) && (h in s.buffers ==> s.buffers[h] != c)
    requires !ReopensFor(e, h, c)
    ensures !Holding(Step(s, e), c, h) && (h in Step(s, e).buffers ==> Step(s, e).buffers[h] != c)
  {
  }

  /** A buffer shared by two clients: the second is accepted but its completion goes to the first. */
  lemma SharedBufferLosesCompletion()
    ensures var r := Request(7, false, false, true, true, true, Taken);
      var s := Exec(EMPTY, [SetReadback(External, r), SetReadback(Composer, r), NotifyDone(7, 0, Fd(1), false)]);
      && External in s.captures && s.captures[External] == Response(7, External, Signaled, Fd(1))
      && Collect(s, Composer, Null).status == NotAvailable
  {
    var r := Request(7, false, false, true, true, true, Taken);
    var a := SetReadbackBuffer(EMPTY, External, r);
    var b := SetReadbackBuffer(a, Composer, r);
    var d := NotifyCwbDone(b, 7, 0, Fd(1), false);
    assert Exec(d, []) == d;
    assert [NotifyDone(7, 0, Fd(1), false)][1..] == [];
    assert Exec(b, [NotifyDone(7, 0, Fd(1), false)]) == d;
    assert [SetReadback(Composer, r), NotifyDone(7, 0, Fd(1), false)][1..] == [NotifyDone(7, 0, Fd(1), false)];
    assert Exec(a, [SetReadback(Composer, r), NotifyDone(7, 0, Fd(1), false)]) == d;
    assert [SetReadback(External, r), SetReadback(Composer, r), NotifyDone(7, 0, Fd(1), false)][1..] ==
      [SetReadback(Composer, r), NotifyDone(7, 0, Fd(1), false)];
    assert FirstBuffer(d.buffers, {}, Composer) == 0;
    assert d.buffers.Keys == {};
  }
}
