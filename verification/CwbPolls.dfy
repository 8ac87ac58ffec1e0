/** Those who come for an answer to the maps of `CwbCapture`: whose fence a poll hands out, and what a frame
    handler finds that has waited for a completion. */
module CwbPolls {
  import opened CwbCapture

  // ---------------------------------------------------------------- whose fence a poll hands out

  /** The client's completion is known. */
  predicate Answered(s: State, c: Client) {
    c in s.captures && s.captures[c].handle != 0 && !s.captures[c].status.NotChecked?
  }

  /** The client's buffer has been in a frame and its completion is not known. */
  predicate Waiting(s: State, c: Client) {
    c in s.captures && s.captures[c].handle != 0 && s.captures[c].status.NotChecked?
  }

  function BufferOf(handle: nat): Output {
    if handle == 0 then NoOutput else Buffer(handle)
  }

  /** `about` tells the buffer whose writing a fence stands for: that of a completion for the buffer that is
      complete, and the driver's for the frame's output buffer.  Handles that are set are not zero. */
  predicate Truthful(s: State, e: Event, about: Fence -> Output) {
    match e
    case SetReadback(_, r) => Verdict(r).None? ==> r.handle != 0
    case NotifyDone(h, _, fence, _) => fence != Null ==> about(fence) == Buffer(h)
    case GetFence(_, driver) => driver != Null ==> about(driver) == s.output
    case _ => true
  }

  predicate TruthfulRun(s: State, events: seq<Event>, about: Fence -> Output)
    decreases |events|
  {
    events == [] || (Truthful(s, events[0], about) && TruthfulRun(Step(s, events[0]), events[1..], about))
  }

  predicate EntryTrue(r: Response, about: Fence -> Output) {
    r.status != NotAvailable && (r.fence != Null ==> about(r.fence) == Buffer(r.handle))
  }

  /** Every known completion has a fence of its own buffer. */
  predicate AnswersTrue(s: State, about: Fence -> Output) {
    && 0 !in s.buffers
    && forall c :: Answered(s, c) ==> EntryTrue(s.captures[c], about)
  }

  lemma AnswersTrueStep(s: State, e: Event, about: Fence -> Output)
    requires AnswersTrue(s, about) && Truthful(s, e, about)
    ensures AnswersTrue(Step(s, e), about)
  {
    var t := Step(s, e);
    forall c | Answered(t, c) ensures EntryTrue(t.captures[c], about) {
      assert c in s.captures && s.captures[c] == t.captures[c] ==> Answered(s, c);
    }
  }

  lemma {:induction false} AnswersStayTrue(s: State, events: seq<Event>, about: Fence -> Output)
    requires AnswersTrue(s, about) && TruthfulRun(s, events, about)
    ensures AnswersTrue(Exec(s, events), about)
    decreases |events|
  {
    if events == [] {
    } else {
      AnswersTrueStep(s, events[0], about);
      AnswersStayTrue(Step(s, events[0]), events[1..], about);
    }
  }

  /** The poll takes the driver's fence while another buffer, or none of the client's, is the output. */
  predicate Misled(s: State, c: Client) {
    if Waiting(s, c) then s.output != Buffer(s.captures[c].handle) else !Answered(s, c) && !OwnsOutput(s, c)
  }

  /** In every run, the fence a poll hands out is that of the buffer it accounts for, except exactly when no
      completion is known for the client and either the buffer it waits for is no longer the output, or it
      waits for none and the output is not its own.  In this last case it says "not available", for a known
      completion what that said, otherwise "not checked".  The readback and the answer are gone after it. */
  lemma PolledFence(events: seq<Event>, c: Client, driver: Fence, about: Fence -> Output)
    requires TruthfulRun(EMPTY, events + [GetFence(c, driver)], about) && c != NoClient
    ensures var s := Exec(EMPTY, events);
      var got := Collect(s, c, driver);
      got.fence != Null ==>
        && (about(got.fence) == BufferOf(Claimed(s, c)) <==> !Misled(s, c))
        && (Misled(s, c) ==> got.fence == driver && about(driver) == s.output)
        && (got.status == NotAvailable <==> Misled(s, c) && !Waiting(s, c))
        && (got.status == NotChecked <==> !Answered(s, c) && (Waiting(s, c) || !Misled(s, c)))
        && (Answered(s, c) ==> got.fence == s.captures[c].fence && got.status == s.captures[c].status)
        && got.state == s.(captures := s.captures - {c}, buffers := s.buffers - {Claimed(s, c)})
  {
    TruthfulLast(EMPTY, events, GetFence(c, driver), about);
    AnswersStayTrue(EMPTY, events, about);
    PolledNow(Exec(EMPTY, events), c, driver, about);
  }

  lemma {:induction false} TruthfulLast(s: State, events: seq<Event>, e: Event, about: Fence -> Output)
    requires TruthfulRun(s, events + [e], about)
    ensures TruthfulRun(s, events, about) && Truthful(Exec(s, events), e, about)
    decreases |events|
  {
    if events == [] {
      assert (events + [e])[0] == e;
    } else {
      assert (events + [e])[1..] == events[1..] + [e];
      TruthfulLast(Step(s, events[0]), events[1..], e, about);
    }
  }

  lemma PolledNow(s: State, c: Client, driver: Fence, about: Fence -> Output)
    requires AnswersTrue(s, about) && Truthful(s, GetFence(c, driver), about) && c != NoClient
    ensures var got := Collect(s, c, driver);
      got.fence != Null ==>
        && (about(got.fence) == BufferOf(Claimed(s, c)) <==> !Misled(s, c))
        && (Misled(s, c) ==> got.fence == driver && about(driver) == s.output)
        && (got.status == NotAvailable <==> Misled(s, c) && !Waiting(s, c))
        && (got.status == NotChecked <==> !Answered(s, c) && (Waiting(s, c) || !Misled(s, c)))
        && (Answered(s, c) ==> got.fence == s.captures[c].fence && got.status == s.captures[c].status)
        && got.state == s.(captures := s.captures - {c}, buffers := s.buffers - {Claimed(s, c)})
  {
    if Answered(s, c) {
      assert EntryTrue(s.captures[c], about);
    }
  }

  /** A waiting client that is misled loses its own completion: the buffer is no longer outstanding, so
      whatever happens until somebody sets it again, its completion is recorded for nobody.  The buffer whose
      fence was handed out stays with its owner. */
  lemma MisledLosesCompletion(s: State, c: Client, driver: Fence, events: seq<Event>, status: int, fence: Fence,
                              handled: bool)
    requires c != NoClient && Waiting(s, c) && Misled(s, c) && driver != Null
    requires forall i :: 0 <= i < |events| ==> !Reopens(events[i], s.captures[c].handle)
    ensures var h := s.captures[c].handle;
      var got := Collect(s, c, driver);
      var t := Exec(got.state, events);
      && got.fence == driver && got.status == NotChecked
      && NotifyCwbDone(t, h, status, fence, handled) == t && !Holding(t, c, h)
      && (OutputOwned(s) ==> OutputOwned(got.state) && got.state.buffers[s.output.handle] == s.buffers[s.output.handle])
  {
    var h, got := s.captures[c].handle, Collect(s, c, driver);
    RepeatedNotifyIsNoop(got.state, events, h, status, fence, handled);
    NeverHolds(got.state, events, h, c);
  }

  predicate OutputOwned(s: State) {
    s.output.Buffer? && s.output.handle in s.buffers
  }

  /** A misled client that waits for nothing is told "not available", and no readback is touched;
      GetReadbackBufferFence, which looks at the fence only, still reports success. */
  lemma MisledIdle(s: State, c: Client, driver: Fence)
    requires c != NoClient && !Waiting(s, c) && Misled(s, c) && s.output.Buffer? && driver != Null && 0 !in s.buffers
    ensures var got := Collect(s, c, driver);
      got.fence == driver && got.status == NotAvailable && got.state == s.(captures := s.captures - {c})
  {
    assert s.buffers - {0} == s.buffers;
  }

  /** Something of the client's is still to be answered: it has an answer with a buffer or owns the output, or,
      with no output, has any buffer outstanding. */
  predicate Expects(s: State, c: Client) {
    || (c in s.captures && s.captures[c].handle != 0)
    || (if s.output.Buffer? then s.output.handle in s.buffers && s.buffers[s.output.handle] == c
        else exists h :: h in s.buffers && s.buffers[h] == c)
  }

  /** A poll that comes back without a fence changes no readback; it says "pending" exactly when the client
      has something to expect, and "not available" otherwise. */
  lemma PendingIff(s: State, c: Client, driver: Fence)
    requires c != NoClient && 0 !in s.buffers && Collect(s, c, driver).fence == Null
    ensures var got := Collect(s, c, driver);
      && (got.status == Pending <==> Expects(s, c)) && (got.status == NotAvailable <==> !Expects(s, c))
      && got.state.buffers == s.buffers && forall d :: d in s.captures ==> d in got.state.captures
  {
  }

  function Taking(handle: nat): Request {
    Request(handle, false, false, true, true, true, Taken)
  }

  /** A poll of the composer, which has asked for nothing, while an external client's buffer is the output:
      it is handed the driver's fence for that buffer. */
  lemma PollHandsOutForeignFence()
    ensures var s := Step(Step(EMPTY, SetReadback(External, Taking(7))), SetOutput(Buffer(7)));
      var got := Collect(s, Composer, Fd(3));
      && s.buffers == map[7 := External]
      && got.fence == Fd(3) && got.status == NotAvailable && got.state.buffers == s.buffers
  {
    var s := Accept(EMPTY, 7, External).(output := Buffer(7));
    assert s.buffers - {0} == s.buffers;
  }

  const IN_FRAME := State(map[7 := Composer], map[Composer := Response(7, Composer, NotChecked, Null)], Buffer(7))

  lemma ComposerInFrame()
    ensures Exec(EMPTY, [SetReadback(Composer, Taking(7)), SetOutput(Buffer(7)), FrameOutput]) == IN_FRAME
  {
    var a := State(map[7 := Composer], map[Composer := UNSET], NoOutput);
    var b := a.(output := Buffer(7));
    assert Step(EMPTY, SetReadback(Composer, Taking(7))) == a;
    assert Step(b, FrameOutput) == IN_FRAME;
    ExecThree(EMPTY, SetReadback(Composer, Taking(7)), SetOutput(Buffer(7)), FrameOutput);
  }

  lemma ExecCons(s: State, e: Event, rest: seq<Event>)
    ensures Exec(s, [e] + rest) == Exec(Step(s, e), rest)
  {
    assert ([e] + rest)[1..] == rest;
  }

  lemma ExecThree(s: State, a: Event, b: Event, c: Event)
    ensures Exec(s, [a, b, c]) == Step(Step(Step(s, a), b), c)
  {
    assert [a, b, c] == [a] + [b, c] && [b, c] == [b] + [c] && [c] == [c] + [];
    ExecCons(s, a, [b, c]);
    ExecCons(Step(s, a), b, [c]);
    ExecCons(Step(Step(s, a), b), c, []);
  }

  /** The composer waits for the completion of its buffer while the external client's buffer comes next: a
      poll hands it that client's fence as its own, and its completion is lost. */
  lemma PollTakesForeignFence()
    ensures var s := Step(Step(IN_FRAME, SetReadback(External, Taking(8))), SetOutput(Buffer(8)));
      var got := Collect(s, Composer, Fd(3));
      && s.buffers == map[7 := Composer, 8 := External]
      && got.fence == Fd(3) && got.status == NotChecked && got.state.buffers == map[8 := External]
      && NotifyCwbDone(got.state, 7, 0, Fd(1), false) == got.state
  {
    assert IN_FRAME.buffers[8 := External] - {7} == map[8 := External];
  }

  /** Nobody else is needed: with a second buffer of its own in the frame, the fence of the second is handed
      out for the first, whose completion is lost. */
  lemma PollTakesNewerFence()
    ensures var s := Step(Step(IN_FRAME, SetReadback(Composer, Taking(8))), SetOutput(Buffer(8)));
      var got := Collect(s, Composer, Fd(3));
      && s.buffers == map[7 := Composer, 8 := Composer]
      && got.fence == Fd(3) && got.status == NotChecked && got.state.buffers == map[8 := Composer]
      && NotifyCwbDone(got.state, 7, 0, Fd(1), false) == got.state
  {
  }

  // ---------------------------------------------------------------- a handler waits with a reference into the map

  /** The event takes the client's answer out of the map. */
  predicate Erases(s: State, e: Event, c: Client) {
    c in s.captures &&
    match e
    case SetReadback(d, r) => d == c && Verdict(r).None? && r.handle == s.captures[c].handle
    case NotifyDone(h, _, _, handled) => c.External? && handled && h in s.buffers && s.buffers[h] == c
    case GetFence(d, driver) =>
      d == c && !c.NoClient? &&
      (if Answered(s, c) then s.captures[c].fence != Null
       else driver != Null && (Waiting(s, c) || s.output.Buffer?))
    case DumpTake => c.FrameDump?
    case _ => false
  }

  predicate Undisturbed(s: State, events: seq<Event>, c: Client)
    decreases |events|
  {
    events == [] || (!Erases(s, events[0], c) && Undisturbed(Step(s, events[0]), events[1..], c))
  }

  /** The answer is in the map all along, so a reference to it stays good. */
  predicate StaysHeld(s: State, events: seq<Event>, c: Client)
    decreases |events|
  {
    c in s.captures && (events == [] || StaysHeld(Step(s, events[0]), events[1..], c))
  }

  lemma EraseStep(s: State, e: Event, c: Client)
    requires c in s.captures
    ensures c !in Step(s, e).captures <==> Erases(s, e, c)
  {
  }

  /** HandleFrameDump and HandleFrameCapture keep a reference to their client's answer while they wait, which
      gives up the lock.  It stays good exactly as long as nobody sets that answer's buffer again for the
      client, gets a fence for it, or takes the dump. */
  lemma {:induction false} ReferenceGoodIff(s: State, events: seq<Event>, c: Client)
    requires c in s.captures
    ensures StaysHeld(s, events, c) <==> Undisturbed(s, events, c)
    decreases |events|
  {
    if events == [] {
    } else {
      EraseStep(s, events[0], c);
      if c in Step(s, events[0]).captures {
        ReferenceGoodIff(Step(s, events[0]), events[1..], c);
      }
    }
  }

  /** The completion notifies cwb_cv_, on which the handlers of both internal clients wait. */
  predicate Notifies(s: State, e: Event) {
    e.NotifyDone? && e.handle in s.buffers && s.buffers[e.handle] in {FrameDump, Color}
  }

  predicate Quiet(s: State, events: seq<Event>)
    decreases |events|
  {
    events == [] || (!Notifies(s, events[0]) && Quiet(Step(s, events[0]), events[1..]))
  }

  lemma {:induction false} StaysUnchecked(s: State, events: seq<Event>, c: Client)
    requires c in {FrameDump, Color} && StaysHeld(s, events, c) && Quiet(s, events) && s.captures[c].status.NotChecked?
    ensures var t := Exec(s, events); c in t.captures && t.captures[c].status.NotChecked?
    decreases |events|
  {
    if events == [] {
    } else {
      UncheckedStep(s, events[0], c);
      StaysUnchecked(Step(s, events[0]), events[1..], c);
    }
  }

  lemma UncheckedStep(s: State, e: Event, c: Client)
    requires c in {FrameDump, Color} && c in s.captures && s.captures[c].status.NotChecked? && !Notifies(s, e)
    ensures c in Step(s, e).captures ==> Step(s, e).captures[c].status.NotChecked?
  {
  }

  /** The notification that ends the wait of an internal client's handler brings it a verdict exactly when it
      is for a buffer of that client.  One for the other internal client wakes it just the same, with nothing
      known: the handler does not wait again and reports a failure. */
  lemma WokenWithVerdictIff(s: State, events: seq<Event>, c: Client, h: nat, status: int, fence: Fence, handled: bool)
    requires c in {FrameDump, Color} && StaysHeld(s, events, c) && Quiet(s, events) && s.captures[c].status.NotChecked?
    requires Notifies(Exec(s, events), NotifyDone(h, status, fence, handled))
    ensures var t := Exec(s, events);
      var woken := NotifyCwbDone(t, h, status, fence, handled);
      && c in woken.captures
      && (t.buffers[h] == c ==> woken.captures[c].status == StatusOf(status))
      && (t.buffers[h] != c ==> woken.captures[c].status == NotChecked)
  {
    StaysUnchecked(s, events, c);
  }

  /** A frame dump whose buffer is set again while its handler waits leaves the handler a bad reference. */
  lemma DumpSetWhileWaiting()
    ensures var s := Exec(EMPTY, [SetReadback(FrameDump, Taking(7)), SetOutput(Buffer(7)), FrameOutput]);
      && FrameDump in s.captures && s.captures[FrameDump].status == NotChecked
      && FrameDump !in Step(s, SetReadback(FrameDump, Taking(7))).captures
  {
    ExecThree(EMPTY, SetReadback(FrameDump, Taking(7)), SetOutput(Buffer(7)), FrameOutput);
  }

  /** A colour capture waits for its completion, and that of an earlier frame dump arrives. */
  lemma DumpDoneFailsCapture()
    ensures var events := [SetReadback(Color, Taking(8)), SetOutput(Buffer(8)), FrameOutput];
      var s := Exec(Accept(EMPTY, 7, FrameDump), events);
      && Color in s.captures && s.captures[Color].status == NotChecked
      && var t := Step(s, NotifyDone(7, 0, Fd(1), false));
         Color in t.captures && t.captures[Color].status == NotChecked && t.buffers == map[8 := Color]
  {
    ExecThree(Accept(EMPTY, 7, FrameDump), SetReadback(Color, Taking(8)), SetOutput(Buffer(8)), FrameOutput);
  }
}
