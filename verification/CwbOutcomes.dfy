/** What becomes of each post of the concurrent-writeback queue, told from the queue it found and what the
    driver answered. */
module CwbOutcomes {
  import opened CwbProtocol
  import opened CwbInvariant
  import opened CwbTheorems

  predicate HasHandle(s: State, i: nat, handle: nat)
    requires Ids(s) && i < |s.queue|
  {
    s.calls[s.queue[i]].handleId == handle
  }

  /** A post is refused as a duplicate exactly when some node in the queue has the very handle of its own;
      otherwise the queue gains its node and nothing else. */
  lemma PushExactly(es: seq<Event>, c: nat)
    requires Runs(EMPTY, es) && Enabled(Exec(EMPTY, es), Push(c))
    ensures var s := Exec(EMPTY, es);
      var t := Apply(s, Push(c));
      && |t.calls| == |s.calls|
      && (t.calls[c].phase == Refused(Duplicate) <==>
          exists i :: 0 <= i < |s.queue| && HasHandle(s, i, s.calls[c].handleId))
      && (t.calls[c].phase == Refused(Duplicate) ==> t.queue == s.queue)
      && (t.calls[c].phase != Refused(Duplicate) ==> t.calls[c].phase == Queued && t.queue == s.queue + [c])
  {
    ReachableInv(es);
    var s := Exec(EMPTY, es);
    if i :| 0 <= i < |s.queue| && s.calls[s.queue[i]].handleId == s.calls[c].handleId {
      assert HasHandle(s, i, s.calls[c].handleId);
    }
  }

  /** The post has been told so by the driver: taken, or refused. */
  predicate Told(s: State, c: nat, ok: bool) {
    c < |s.calls| &&
    match s.calls[c].phase
    case Accepted => ok
    case Done => ok
    case Refused(reason) => !ok && reason.Driver?
    case Closed(reason) => !ok && reason.Driver?
    case Failed(reason) => !ok && reason.Driver?
    case _ => false
  }

  lemma ToldStep(s: State, e: Event, c: nat, ok: bool)
    requires Enabled(s, e)
    ensures Told(Apply(s, e), c, ok) <==> Told(s, c, ok) || e == DriverReply(c, ok)
  {
  }

  lemma {:induction false} ToldIff(s: State, es: seq<Event>, c: nat, ok: bool)
    requires Runs(s, es)
    ensures Told(Exec(s, es), c, ok) <==> Told(s, c, ok) || DriverReply(c, ok) in es
    decreases |es|
  {
    if |es| == 0 {
    } else {
      ToldStep(s, es[0], c, ok);
      ToldIff(Apply(s, es[0]), es[1..], c, ok);
      assert es == [es[0]] + es[1..];
    }
  }

  /** In every run, a post returns 0, or is about to, exactly when the driver took its buffer; it fails on
      account of the driver exactly when the driver refused; and never both. */
  lemma DriverDecides(es: seq<Event>, c: nat)
    requires Runs(EMPTY, es) && c < |Exec(EMPTY, es).calls|
    ensures var p := Exec(EMPTY, es).calls[c].phase;
      && (p.Accepted? || p.Done? <==> DriverReply(c, true) in es)
      && ((p.Refused? || p.Closed? || p.Failed?) && p.reason.Driver? <==> DriverReply(c, false) in es)
  {
    ToldIff(EMPTY, es, c, true);
    ToldIff(EMPTY, es, c, false);
  }

  lemma {:induction false} OwedAll(delivered: seq<nat>, calls: seq<Call>, i: nat)
    requires Below(delivered, |calls|) && i < |delivered| && calls[delivered[i]].hasCallback
    ensures (delivered[i], calls[delivered[i]].notified) in Owed(delivered, calls)
    decreases |delivered|
  {
    var front := delivered[..|delivered| - 1];
    if i < |front| {
      OwedAll(front, calls, i);
    }
  }

  /** No client that left a callback is forgotten: every delivered node of such a post has been reported. */
  lemma EveryClientTold(es: seq<Event>, n: nat)
    requires Runs(EMPTY, es) && n in Exec(EMPTY, es).delivered
    ensures var s := Exec(EMPTY, es);
      n < |s.calls| && (s.calls[n].hasCallback ==> (n, s.calls[n].notified) in s.callbacks)
  {
    ReachableInv(es);
    var s := Exec(EMPTY, es);
    var i :| 0 <= i < |s.delivered| && s.delivered[i] == n;
    if s.calls[n].hasCallback {
      OwedAll(s.delivered, s.calls, i);
    }
  }
}
