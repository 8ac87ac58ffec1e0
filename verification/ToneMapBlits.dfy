/** What a frame does for each of its layers: the blit that fills the buffer it shows, what that blit waits
    for, and the fence that comes back for it. */
module ToneMapBlits {
  import opened ToneMapPool
  import opened ToneMapSafety

  /** The layers from `i` on that ask for tone mapping, in order. */
  function Mapped(layers: seq<Layer>, i: nat): (m: seq<nat>)
    requires i <= |layers|
    ensures forall n :: 0 <= n < |m| ==> i <= m[n] < |layers| && layers[m[n]].toneMap
    ensures forall j :: i <= j < |layers| && layers[j].toneMap ==> j in m
    decreases |layers| - i
  {
    if i == |layers| then []
    else if layers[i].toneMap then [i] + Mapped(layers, i + 1)
    else Mapped(layers, i + 1)
  }

  /** Event `k` fills the displayed buffer, once the fence its last commit recorded and `acquire` have
      signalled, and waits for nothing else. */
  predicate Fills(log: seq<Event>, k: nat, display: (nat, nat), acquire: Fence)
    requires k < |log|
  {
    log[k] == Blit(display.0, display.1, LastFence(log[..k], display.0, display.1) + acquire)
  }

  /** The `n`-th blit added to `log` fills what the `n`-th display added to `shown` says, for that layer. */
  predicate FilledAt(log: seq<Event>, after: seq<Event>, shown: seq<(nat, nat)>, all: seq<(nat, nat)>,
                     layers: seq<Layer>, mapped: seq<nat>, n: nat)
  {
    && n < |mapped| && mapped[n] < |layers| && |shown| + n < |all| && |log| + n < |after|
    && Fills(after, |log| + n, all[|shown| + n], layers[mapped[n]].acquire)
  }

  /** How many blits and displays a frame adds: one each for every layer it serves, and a display without a
      blit for the cached framebuffer. */
  predicate Adds(exit: Exit, blits: int, displays: int, mapped: nat) {
    && 0 <= blits && displays == blits + (if exit.Cached? then 1 else 0)
    && (if exit.Finished? then blits == mapped else blits < mapped)
  }

  /** The `n`-th layer a frame serves gets the `n`-th blit of the frame. */
  predicate LayersFilled(o: Outcome, log: seq<Event>, shown: seq<(nat, nat)>, layers: seq<Layer>, i: nat)
    requires i <= |layers|
  {
    && log <= o.pool.log && shown <= o.shown
    && Adds(o.exit, |o.pool.log| - |log|, |o.shown| - |shown|, |Mapped(layers, i)|)
    && forall n :: 0 <= n < |o.pool.log| - |log| ==>
         FilledAt(log, o.pool.log, shown, o.shown, layers, Mapped(layers, i), n)
  }

  lemma ServeFills(pool: Pool, layer: Layer, i: nat)
    requires Inv(pool) && Acquire(pool, layer).Granted?
    ensures var next := Serve(pool, layer, i);
      && Inv(next) && |next.log| == |pool.log| + 1 && pool.log <= next.log
      && Fills(next.log, |pool.log|, Display(pool, layer), layer.acquire)
  {
    AcquireKeeps(pool, layer);
    ServeKeeps(pool, layer, i);
    var g, next := Acquire(pool, layer), Serve(pool, layer, i);
    assert SessionOk(pool.log, g.pool.sessions[g.index]);
    assert next.log[..|pool.log|] == pool.log;
  }

  lemma FillsOn(log: seq<Event>, more: seq<Event>, k: nat, display: (nat, nat), acquire: Fence)
    requires log <= more && k < |log| && Fills(log, k, display, acquire)
    ensures Fills(more, k, display, acquire)
  {
    assert more[..k] == log[..k];
  }

  lemma FilledShift(log: seq<Event>, next: seq<Event>, after: seq<Event>, shown: seq<(nat, nat)>,
                    display: (nat, nat), all: seq<(nat, nat)>, layers: seq<Layer>, i: nat, rest: seq<nat>, n: nat)
    requires |next| == |log| + 1 && FilledAt(next, after, shown + [display], all, layers, rest, n)
    ensures FilledAt(log, after, shown, all, layers, [i] + rest, n + 1)
  {
    assert ([i] + rest)[n + 1] == rest[n];
  }

  lemma FilledFirst(log: seq<Event>, next: seq<Event>, after: seq<Event>, shown: seq<(nat, nat)>,
                    display: (nat, nat), all: seq<(nat, nat)>, layers: seq<Layer>, i: nat, rest: seq<nat>)
    requires i < |layers| && |next| == |log| + 1 && next <= after && shown + [display] <= all
    requires Fills(next, |log|, display, layers[i].acquire)
    ensures FilledAt(log, after, shown, all, layers, [i] + rest, 0)
  {
    FillsOn(next, after, |log|, display, layers[i].acquire);
    assert all[|shown|] == (shown + [display])[|shown|];
  }

  lemma FilledStep(o: Outcome, log: seq<Event>, next: seq<Event>, shown: seq<(nat, nat)>, display: (nat, nat),
                   layers: seq<Layer>, i: nat)
    requires i < |layers| && layers[i].toneMap && |next| == |log| + 1 && log <= next
    requires Fills(next, |log|, display, layers[i].acquire) && LayersFilled(o, next, shown + [display], layers, i + 1)
    ensures LayersFilled(o, log, shown, layers, i)
  {
    var rest, after := Mapped(layers, i + 1), o.pool.log;
    forall n | 0 <= n < |after| - |log| ensures FilledAt(log, after, shown, o.shown, layers, [i] + rest, n) {
      if n == 0 {
        FilledFirst(log, next, after, shown, display, o.shown, layers, i, rest);
      } else {
        assert FilledAt(next, after, shown + [display], o.shown, layers, rest, n - 1);
        FilledShift(log, next, after, shown, display, o.shown, layers, i, rest, n - 1);
      }
    }
  }

  lemma HandleServed(pool: Pool, layers: seq<Layer>, i: nat, gpuCount: nat, shown: seq<(nat, nat)>)
    requires i < |layers| && Shaped(pool) && layers[i].toneMap && Acquire(pool, layers[i]).Granted?
    requires !Shortcut(pool, layers[i], Counted(layers[i], gpuCount))
    ensures HandleFrom(pool, layers, i, gpuCount, shown) ==
      HandleFrom(Serve(pool, layers[i], i), layers, i + 1, Counted(layers[i], gpuCount),
                 shown + [Display(pool, layers[i])])
  {
  }

  function Counted(layer: Layer, gpuCount: nat): nat {
    if layer.composition.Gpu? then gpuCount + 1 else gpuCount
  }

  lemma HandleEnds(pool: Pool, layers: seq<Layer>, i: nat, gpuCount: nat, shown: seq<(nat, nat)>)
    requires i < |layers| && Shaped(pool) && layers[i].toneMap
    requires Shortcut(pool, layers[i], Counted(layers[i], gpuCount)) || Acquire(pool, layers[i]).Refused?
    ensures LayersFilled(HandleFrom(pool, layers, i, gpuCount, shown), pool.log, shown, layers, i)
  {
  }

  lemma {:induction false} FrameFills(pool: Pool, layers: seq<Layer>, i: nat, gpuCount: nat, shown: seq<(nat, nat)>)
    requires i <= |layers| && Inv(pool)
    ensures LayersFilled(HandleFrom(pool, layers, i, gpuCount, shown), pool.log, shown, layers, i)
    decreases |layers| - i
  {
    if i == |layers| {
    } else {
      var layer, count := layers[i], Counted(layers[i], gpuCount);
      if !layer.toneMap {
        FrameFills(pool, layers, i + 1, count, shown);
      } else if Shortcut(pool, layer, count) || Acquire(pool, layer).Refused? {
        HandleEnds(pool, layers, i, gpuCount, shown);
      } else {
        var next, display := Serve(pool, layer, i), Display(pool, layer);
        ServeFills(pool, layer, i);
        FrameFills(next, layers, i + 1, count, shown + [display]);
        HandleServed(pool, layers, i, gpuCount, shown);
        FilledStep(HandleFrom(pool, layers, i, gpuCount, shown), pool.log, next.log, shown, display, layers, i);
      }
    }
  }

  /** After any run, and whether the frame completes or fails: each layer it serves has its blit into the very
      session and buffer it shows, in the order of the layers, and that blit waits for the layer's own acquire
      fence and the fence last recorded for the buffer, and for nothing else. */
  lemma EachLayerBlitted(ops: seq<Op>, layers: seq<Layer>)
    requires Runs(EMPTY_POOL, ops)
    ensures var pool := Exec(EMPTY_POOL, ops);
      Shaped(pool) && LayersFilled(Handle(pool, layers), pool.log, [], layers, 0)
  {
    RunKeeps(EMPTY_POOL, ops);
    FrameFills(Exec(EMPTY_POOL, ops), layers, 0, 0, []);
  }

  // ------------------------------------------------ the fence that comes back

  /** A session stands for that display on behalf of layer `j`. */
  predicate Stands(pool: Pool, k: nat, display: (nat, nat), j: nat) {
    && k < |pool.sessions| && pool.sessions[k].acquired && pool.sessions[k].layerIndex == j
    && (pool.sessions[k].id, pool.sessions[k].current) == display
  }

  lemma ServeStands(pool: Pool, layer: Layer, i: nat)
    requires Shaped(pool) && Acquire(pool, layer).Granted?
    ensures Stands(Serve(pool, layer, i), Acquire(pool, layer).index, Display(pool, layer), i)
    ensures forall k, d, j :: Stands(pool, k, d, j) ==> Stands(Serve(pool, layer, i), k, d, j)
  {
  }

  lemma {:induction false} StandsStay(pool: Pool, layers: seq<Layer>, i: nat, gpuCount: nat, shown: seq<(nat, nat)>,
                                      k: nat, d: (nat, nat), j: nat)
    requires i <= |layers| && Shaped(pool) && Stands(pool, k, d, j)
    requires HandleFrom(pool, layers, i, gpuCount, shown).exit.Finished?
    ensures Stands(HandleFrom(pool, layers, i, gpuCount, shown).pool, k, d, j)
    decreases |layers| - i
  {
    if i == |layers| {
    } else {
      var layer := layers[i];
      var count := if layer.composition.Gpu? then gpuCount + 1 else gpuCount;
      if !layer.toneMap {
        StandsStay(pool, layers, i + 1, count, shown, k, d, j);
      } else {
        ServeStands(pool, layer, i);
        StandsStay(Serve(pool, layer, i), layers, i + 1, count, shown + [Display(pool, layer)], k, d, j);
      }
    }
  }

  /** The `n`-th display a frame adds has its session standing for the `n`-th of those layers. */
  predicate StandsFor(o: Outcome, shown: seq<(nat, nat)>, mapped: seq<nat>, n: nat, k: nat) {
    n < |mapped| && |shown| + n < |o.shown| && Stands(o.pool, k, o.shown[|shown| + n], mapped[n])
  }

  lemma StandsShift(o: Outcome, shown: seq<(nat, nat)>, display: (nat, nat), i: nat, rest: seq<nat>, n: nat, k: nat)
    requires StandsFor(o, shown + [display], rest, n, k)
    ensures StandsFor(o, shown, [i] + rest, n + 1, k)
  {
    assert ([i] + rest)[n + 1] == rest[n];
  }

  lemma {:induction false} ShownStands(pool: Pool, layers: seq<Layer>, i: nat, gpuCount: nat, shown: seq<(nat, nat)>,
                                       n: nat) returns (k: nat)
    requires i <= |layers| && Inv(pool) && n < |Mapped(layers, i)|
    requires HandleFrom(pool, layers, i, gpuCount, shown).exit.Finished?
    ensures StandsFor(HandleFrom(pool, layers, i, gpuCount, shown), shown, Mapped(layers, i), n, k)
    decreases |layers| - i
  {
    var layer, count := layers[i], Counted(layers[i], gpuCount);
    if !layer.toneMap {
      k := ShownStands(pool, layers, i + 1, count, shown, n);
    } else if n == 0 {
      k := Acquire(pool, layer).index;
      FirstStands(pool, layers, i, gpuCount, shown);
    } else {
      k := LaterStands(pool, layers, i, gpuCount, shown, n);
    }
  }

  lemma {:induction false} LaterStands(pool: Pool, layers: seq<Layer>, i: nat, gpuCount: nat, shown: seq<(nat, nat)>,
                                       n: nat) returns (k: nat)
    requires i < |layers| && Inv(pool) && 0 < n < |Mapped(layers, i)| && layers[i].toneMap
    requires HandleFrom(pool, layers, i, gpuCount, shown).exit.Finished?
    ensures StandsFor(HandleFrom(pool, layers, i, gpuCount, shown), shown, Mapped(layers, i), n, k)
    decreases |layers| - i, 0
  {
    var next, display := Serve(pool, layers[i], i), Display(pool, layers[i]);
    HandleServed(pool, layers, i, gpuCount, shown);
    ServeKeeps(pool, layers[i], i);
    k := ShownStands(next, layers, i + 1, Counted(layers[i], gpuCount), shown + [display], n - 1);
    StandsShift(HandleFrom(pool, layers, i, gpuCount, shown), shown, display, i, Mapped(layers, i + 1), n - 1, k);
  }

  lemma FirstStands(pool: Pool, layers: seq<Layer>, i: nat, gpuCount: nat, shown: seq<(nat, nat)>)
    requires i < |layers| && Inv(pool) && layers[i].toneMap && Acquire(pool, layers[i]).Granted?
    requires HandleFrom(pool, layers, i, gpuCount, shown).exit.Finished?
    ensures StandsFor(HandleFrom(pool, layers, i, gpuCount, shown), shown, Mapped(layers, i), 0,
                      Acquire(pool, layers[i]).index)
  {
    var next, display := Serve(pool, layers[i], i), Display(pool, layers[i]);
    var count := Counted(layers[i], gpuCount);
    HandleServed(pool, layers, i, gpuCount, shown);
    ServeStands(pool, layers[i], i);
    StandsStay(next, layers, i + 1, count, shown + [display], Acquire(pool, layers[i]).index, display, i);
    ServeFills(pool, layers[i], i);
    FrameFills(next, layers, i + 1, count, shown + [display]);
    assert (shown + [display])[|shown|] == display;
  }

  lemma {:induction false} CommitOf(sessions: seq<Session>, fences: seq<Fence>, n: nat, k: nat)
    requires k < n <= |sessions| && sessions[k].acquired
    requires forall i :: 0 <= i < n && sessions[i].acquired ==> 0 <= sessions[i].layerIndex < |fences|
    ensures var s := sessions[k]; Commit(s.id, s.current, fences[s.layerIndex]) in Commits(sessions, fences, n)
    decreases n
  {
    if k < n - 1 {
      CommitOf(sessions, fences, n - 1, k);
    }
  }

  /** After a frame in which every layer was served, PostCommit records for the buffer of each layer the
      release fence of that very layer. */
  lemma EachLayerCommitted(ops: seq<Op>, layers: seq<Layer>, fences: seq<Fence>, n: nat)
    requires Runs(EMPTY_POOL, ops) && Shaped(Exec(EMPTY_POOL, ops)) && n < |Mapped(layers, 0)|
    requires var o := Handle(Exec(EMPTY_POOL, ops), layers); o.exit.Finished? && Committable(o.pool, fences)
    ensures var o := Handle(Exec(EMPTY_POOL, ops), layers);
      var j := Mapped(layers, 0)[n];
      && n < |o.shown| && j < |fences|
      && Commit(o.shown[n].0, o.shown[n].1, fences[j]) in PostCommit(o.pool, fences).log
  {
    RunKeeps(EMPTY_POOL, ops);
    var pool := Exec(EMPTY_POOL, ops);
    var o := Handle(pool, layers);
    var k := ShownStands(pool, layers, 0, 0, [], n);
    CommitOf(o.pool.sessions, fences, |o.pool.sessions|, k);
  }
}
