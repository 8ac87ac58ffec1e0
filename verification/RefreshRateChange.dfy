/** The refresh-rate fields of a display and the calls that plan, submit and report a change. */
module RefreshRateChange {
  import opened VsyncTimeline

  const UINT_MAX := 0xFFFF_FFFF

  /** A period in force until `applied`. */
  datatype Transient = Transient(period: nat, applied: int)

  datatype Pending = Pending(config: nat, refresh: int, applied: int)

  const NO_PENDING := Pending(UINT_MAX, NEVER, NEVER)

  /** What a query at `now` should answer: the period of the first change ever submitted that has not
      applied yet. */
  function FirstLive(history: seq<Transient>, now: int): (i: nat)
    ensures i <= |history|
    ensures i < |history| ==> history[i].applied == NEVER || now < history[i].applied
    ensures forall j :: 0 <= j < i ==> history[j].applied != NEVER && history[j].applied <= now
  {
    if |history| == 0 || !TimeReached(now, history[0].applied) then 0
    else
      assert forall j :: 0 < j <= FirstLive(history[1..], now) ==> history[j] == history[1..][j - 1] || j == |history|;
      1 + FirstLive(history[1..], now)
  }

  predicate StillToApply(t: Transient, now: int) {
    t.applied == NEVER || now < t.applied
  }

  predicate FirstToApply(history: seq<Transient>, now: int, i: int) {
    0 <= i < |history| && StillToApply(history[i], now) && forall j :: 0 <= j < i ==> !StillToApply(history[j], now)
  }

  lemma FirstLiveIs(history: seq<Transient>, now: int, i: nat)
    requires i <= |history| && (i < |history| ==> !TimeReached(now, history[i].applied))
    requires forall j :: 0 <= j < i ==> TimeReached(now, history[j].applied)
    ensures FirstLive(history, now) == i
  {
  }

  /** Leaving out a prefix that applied earlier changes no later answer. */
  lemma FirstLiveSkips(history: seq<Transient>, cut: nat, earlier: int, now: int)
    requires cut <= |history| && earlier <= now
    requires forall i :: 0 <= i < cut ==> TimeReached(earlier, history[i].applied)
    ensures FirstLive(history, now) == cut + FirstLive(history[cut..], now)
  {
    var i := cut + FirstLive(history[cut..], now);
    forall j | 0 <= j < i ensures TimeReached(now, history[j].applied) {
      if j < cut {
        assert TimeReached(earlier, history[j].applied);
      } else {
        assert history[j] == history[cut..][j - cut];
      }
    }
    FirstLiveIs(history, now, i);
  }

  class RefreshRate {
    var vsyncsToApply: nat               // vsyncs_to_apply_rate_change_
    var pendingConfig: nat
    var pendingRefresh: int
    var pendingApplied: int
    var transients: seq<Transient>       // transient_refresh_rate_info_

    ghost var history: seq<Transient>    // every change ever submitted
    ghost var pruned: nat                // how many of them the deque has dropped
    ghost var lastQuery: int             // clock reading of the last query

    ghost predicate Valid()
      reads this
    {
      && pruned <= |history| && transients == history[pruned..]
      && forall i :: 0 <= i < pruned ==> TimeReached(lastQuery, history[i].applied)
    }

    ghost function PendingChange(): Pending
      reads this
    {
      Pending(pendingConfig, pendingRefresh, pendingApplied)
    }

    constructor (vsyncs: nat, now: int)
      ensures Valid() && vsyncsToApply == vsyncs && PendingChange() == NO_PENDING && history == [] && lastQuery == now
    {
      vsyncsToApply := vsyncs;
      pendingConfig, pendingRefresh, pendingApplied := UINT_MAX, NEVER, NEVER;
      transients, history, pruned, lastQuery := [], [], 0, now;
    }

    /** EstimateVsyncPeriodChangeTimeline with the clock reading `now`. */
    method EstimateTimeline(period: nat, desired: int, now: int) returns (t: Timeline)
      requires period > 0
      ensures t == Estimate(period, vsyncsToApply, now, desired)
    {
      var delta := desired - now;
      var activate := (period * vsyncsToApply) % UINT32_LIMIT;
      var refresh: int;
      if delta < 0 {
        refresh := now + TruncRem(delta, period);
      } else if delta < activate {
        refresh := now + TruncRem(delta, period) - period;
      } else {
        refresh := desired - activate;
      }
      t := Timeline(refresh, refresh + activate);
    }

    method RequestActiveConfigChange(config: nat, period: nat, desired: int, now: int) returns (t: Timeline)
      requires Valid() && period > 0
      modifies this`pendingConfig, this`pendingRefresh, this`pendingApplied
      ensures Valid()
      ensures t == Estimate(period, vsyncsToApply, now, desired)
      ensures PendingChange() == Pending(config, t.refresh, t.applied)
    {
      t := EstimateTimeline(period, desired, now);
      pendingConfig, pendingRefresh, pendingApplied := config, t.refresh, t.applied;
    }

    predicate ReadyToSubmit(time: int)
      reads this
    {
      pendingConfig != UINT_MAX && TimeReached(time, pendingRefresh)
    }

    /** `accepted`: the driver took the configuration.  Returns the timeline the client is told about
        when it differs from the promise. */
    method SubmitActiveConfigChange(period: nat, now: int, accepted: bool) returns (changed: bool, t: Timeline)
      requires Valid() && period > 0
      modifies this`pendingConfig, this`pendingRefresh, this`pendingApplied, this`transients, this`history
      ensures Valid()
      ensures !accepted ==> !changed && history == old(history) && PendingChange() == old(PendingChange())
      ensures accepted ==>
        && t == Estimate(period, vsyncsToApply, now, old(pendingRefresh))
        && (changed <==> t.applied != old(pendingApplied))
        && history == old(history) + [Transient(period, t.applied)]
        && PendingChange() == NO_PENDING
    {
      changed, t := false, Timeline(0, 0);
      if !accepted {
        return;
      }
      t := EstimateTimeline(period, pendingRefresh, now);
      transients := transients + [Transient(period, t.applied)];
      history := history + [Transient(period, t.applied)];
      changed := t.applied != pendingApplied;
      pendingConfig, pendingRefresh, pendingApplied := UINT_MAX, NEVER, NEVER;
    }

    /** ProcessActiveConfigChange: submit when the refresh time has come; `hasPeriod` tells whether the active
        config has a period.  The clock is read twice: at `looked` for the decision and, if there is something
        to submit, at `now` for the timeline. */
    method ProcessActiveConfigChange(looked: int, now: int, hasPeriod: bool, activePeriod: nat, accepted: bool)
      returns (submitted: bool, changed: bool, t: Timeline)
      requires Valid() && (hasPeriod ==> activePeriod > 0)
      modifies this`pendingConfig, this`pendingRefresh, this`pendingApplied, this`transients, this`history
      ensures Valid()
      ensures submitted <==>
        && old(pendingConfig) != UINT_MAX && old(pendingRefresh) != NEVER && old(pendingRefresh) <= looked
        && hasPeriod && accepted
      ensures !submitted ==> !changed && history == old(history) && PendingChange() == old(PendingChange())
      ensures submitted ==>
        && t == Estimate(activePeriod, vsyncsToApply, now, old(pendingRefresh))
        && (changed <==> t.applied != old(pendingApplied))
        && history == old(history) + [Transient(activePeriod, t.applied)] && PendingChange() == NO_PENDING
    {
      submitted, changed, t := false, false, Timeline(0, 0);
      if !ReadyToSubmit(looked) {
        return;
      }
      if hasPeriod {
        changed, t := SubmitActiveConfigChange(activePeriod, now, accepted);
        submitted := accepted;
      }
    }

    /** GetTransientVsyncPeriod: under a clock that never runs backwards, dropping applied entries from
        the front as queries come in answers every query as the whole history would. */
    method GetTransientVsyncPeriod(now: int) returns (found: bool, period: nat)
      requires Valid() && now >= lastQuery
      modifies this`transients, this`pruned, this`lastQuery
      ensures Valid() && lastQuery == now
      ensures found <==> exists i :: 0 <= i < |history| && StillToApply(history[i], now)
      ensures found ==> exists i :: FirstToApply(history, now, i) && period == history[i].period
    {
      lastQuery := now;
      found, period := false, 0;
      while transients != []
        invariant Valid() && lastQuery == now
        decreases |transients|
      {
        if TimeReached(now, transients[0].applied) {
          transients := transients[1..];
          pruned := pruned + 1;
        } else {
          found, period := true, transients[0].period;
          FirstLiveSkips(history, pruned, now, now);
          assert FirstToApply(history, now, pruned);
          return;
        }
      }
      FirstLiveSkips(history, pruned, now, now);
    }
  }

  /** A change requested and looked at later.  Before its refresh time nothing is submitted and the promise
      stands.  Found due at `looked` and submitted at `now` with the period unchanged, the client is told of a
      new timeline exactly when the submission, not the look, is punctual to the nanosecond or a whole period
      late. */
  method RequestThenProcess(d: RefreshRate, config: nat, period: nat, desired: int, asked: int, looked: int, now: int)
    returns (submitted: bool, changed: bool, promise: Timeline, actual: Timeline)
    requires d.Valid() && Fits(period, d.vsyncsToApply) && d.vsyncsToApply > 0 && config != UINT_MAX
    requires looked <= now && Estimate(period, d.vsyncsToApply, asked, desired).refresh != NEVER
    modifies d
    ensures d.Valid()
    ensures promise == Estimate(period, old(d.vsyncsToApply), asked, desired)
    ensures submitted <==> promise.refresh <= looked
    ensures !submitted ==>
      !changed && d.history == old(d.history) && d.PendingChange() == Pending(config, promise.refresh, promise.applied)
    ensures submitted ==> d.PendingChange() == NO_PENDING
    ensures submitted ==> (changed <==> now == promise.refresh || now - promise.refresh >= period)
    ensures submitted && now > promise.refresh ==>
      actual.applied == promise.applied + period * ((now - promise.refresh) / period)
  {
    promise := d.RequestActiveConfigChange(config, period, desired, asked);
    submitted, changed, actual := d.ProcessActiveConfigChange(looked, now, true, period, true);
    if submitted {
      PromiseKeptIff(period, d.vsyncsToApply, asked, desired, now - promise.refresh);
    }
    if submitted && now > promise.refresh {
      LateSubmitMoves(period, period, d.vsyncsToApply, asked, desired, now - promise.refresh);
    }
  }
}
