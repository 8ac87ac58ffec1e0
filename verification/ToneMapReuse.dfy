/** How well a frame reuses the sessions of the frame before, by counting over first-fit matching. */
module ToneMapReuse {
  import opened ToneMapPool

  /** How many sessions of configuration `c` are acquired, or are free. */
  function Count(sessions: seq<Session>, acquired: bool, c: Config): nat {
    if |sessions| == 0 then 0
    else
      var s := sessions[|sessions| - 1];
      Count(sessions[..|sessions| - 1], acquired, c) + (if s.acquired == acquired && s.config == c then 1 else 0)
  }

  function Total(sessions: seq<Session>, c: Config): nat {
    Count(sessions, true, c) + Count(sessions, false, c)
  }

  /** How often a frame asks for configuration `c` from layer `i` on. */
  function Wanted(layers: seq<Layer>, i: nat, c: Config): nat
    requires i <= |layers|
    decreases |layers| - i
  {
    if i == |layers| then 0
    else (if layers[i].toneMap && layers[i].config == c then 1 else 0) + Wanted(layers, i + 1, c)
  }

  function Max(a: int, b: int): int {
    if a >= b then a else b
  }

  predicate NoneAcquired(sessions: seq<Session>) {
    forall i :: 0 <= i < |sessions| ==> !sessions[i].acquired
  }

  /** No layer of the frame from `i` on takes the cached-framebuffer shortcut: a framebuffer target that
      asks for tone mapping comes after some GPU-composed layer. */
  predicate NoShortcut(layers: seq<Layer>, i: nat, gpuCount: nat)
    requires i <= |layers|
    decreases |layers| - i
  {
    i == |layers| ||
    var count := if layers[i].composition.Gpu? then gpuCount + 1 else gpuCount;
    (layers[i].toneMap && layers[i].composition.GpuTarget? ==> count > 0) && NoShortcut(layers, i + 1, count)
  }

  // ------------------------------------------------ counting

  lemma {:induction false} CountMember(sessions: seq<Session>, acquired: bool, c: Config)
    ensures Count(sessions, acquired, c) > 0 <==>
      exists i :: 0 <= i < |sessions| && sessions[i].acquired == acquired && sessions[i].config == c
    decreases |sessions|
  {
    if |sessions| == 0 {
    } else {
      var front := sessions[..|sessions| - 1];
      CountMember(front, acquired, c);
      if i :| 0 <= i < |sessions| && sessions[i].acquired == acquired && sessions[i].config == c {
        assert i < |front| ==> front[i] == sessions[i];
      }
    }
  }

  function Hit(s: Session, acquired: bool, c: Config): nat {
    if s.acquired == acquired && s.config == c then 1 else 0
  }

  lemma {:induction false} CountUpdate(sessions: seq<Session>, i: nat, s: Session, acquired: bool, c: Config)
    requires i < |sessions|
    ensures Count(sessions[i := s], acquired, c) + Hit(sessions[i], acquired, c)
         == Count(sessions, acquired, c) + Hit(s, acquired, c)
    decreases |sessions|
  {
    var last := |sessions| - 1;
    if i == last {
      assert sessions[i := s][..last] == sessions[..last];
    } else {
      CountUpdate(sessions[..last], i, s, acquired, c);
      assert sessions[i := s][..last] == sessions[..last][i := s];
    }
  }

  lemma CountAppend(sessions: seq<Session>, s: Session, acquired: bool, c: Config)
    ensures Count(sessions + [s], acquired, c) == Count(sessions, acquired, c) + Hit(s, acquired, c)
  {
    assert (sessions + [s])[..|sessions|] == sessions;
  }

  /** Totals depend on configurations only, and a longer pool of the same configurations has more. */
  lemma {:induction false} TotalGrows(sessions: seq<Session>, longer: seq<Session>, c: Config)
    requires |sessions| <= |longer|
    requires forall i :: 0 <= i < |sessions| ==> longer[i].config == sessions[i].config
    ensures Total(sessions, c) <= Total(longer, c)
    ensures |sessions| < |longer| && longer[|longer| - 1].config == c ==> Total(sessions, c) < Total(longer, c)
    decreases |longer|
  {
    if |longer| == 0 {
    } else {
      var last := |longer| - 1;
      if |sessions| == |longer| {
        TotalGrows(sessions[..last], longer[..last], c);
      } else {
        TotalGrows(sessions, longer[..last], c);
      }
    }
  }

  // ------------------------------------------------ one request, one frame

  /** One granted request: a free session of its configuration is taken if there is one, otherwise a
      session is created. */
  lemma AcquireCounts(pool: Pool, layer: Layer, c: Config)
    requires Acquire(pool, layer).Granted?
    ensures var next := Acquire(pool, layer).pool.sessions;
      && Count(next, false, c) == (if c == layer.config then Max(Count(pool.sessions, false, c) - 1, 0)
                                   else Count(pool.sessions, false, c))
      && Count(next, true, c) == Count(pool.sessions, true, c) + (if c == layer.config then 1 else 0)
  {
    var g := Acquire(pool, layer);
    CountMember(pool.sessions, false, c);
    var k := FirstFree(pool.sessions, layer.config, 0);
    forall acquired ensures Count(g.pool.sessions, acquired, c) ==
      Count(pool.sessions, acquired, c) + Hit(g.pool.sessions[k], acquired, c)
      - (if k < |pool.sessions| then Hit(pool.sessions[k], acquired, c) else 0)
    {
      if k < |pool.sessions| {
        CountUpdate(pool.sessions, k, g.pool.sessions[k], acquired, c);
      } else {
        CountAppend(pool.sessions, g.pool.sessions[k], acquired, c);
      }
    }
    assert Count(g.pool.sessions, false, c) >= 0 && Count(g.pool.sessions, true, c) >= 0;
  }

  lemma ServeCounts(pool: Pool, layer: Layer, i: nat, c: Config)
    requires Shaped(pool) && Acquire(pool, layer).Granted?
    ensures var next := Serve(pool, layer, i).sessions;
      && Count(next, false, c) == (if c == layer.config then Max(Count(pool.sessions, false, c) - 1, 0)
                                   else Count(pool.sessions, false, c))
      && Count(next, true, c) == Count(pool.sessions, true, c) + (if c == layer.config then 1 else 0)
  {
    var g := Acquire(pool, layer);
    var s := g.pool.sessions[g.index].(layerIndex := i);
    AcquireCounts(pool, layer, c);
    CountUpdate(g.pool.sessions, g.index, s, false, c);
    CountUpdate(g.pool.sessions, g.index, s, true, c);
  }

  /** The rest of a frame, by counting: requests the free sessions cover are served by them, and only
      the requests left over create sessions. */
  lemma {:induction false} FrameCounts(pool: Pool, layers: seq<Layer>, i: nat, gpuCount: nat,
                                       shown: seq<(nat, nat)>, c: Config)
    requires i <= |layers| && Shaped(pool) && NoShortcut(layers, i, gpuCount)
    requires HandleFrom(pool, layers, i, gpuCount, shown).Ok()
    ensures var next := HandleFrom(pool, layers, i, gpuCount, shown).pool.sessions;
      && Count(next, false, c) == Max(Count(pool.sessions, false, c) - Wanted(layers, i, c), 0)
      && Count(next, true, c) == Count(pool.sessions, true, c) + Wanted(layers, i, c)
    decreases |layers| - i
  {
    if i == |layers| {
    } else {
      var layer := layers[i];
      var count := if layer.composition.Gpu? then gpuCount + 1 else gpuCount;
      if !layer.toneMap {
        FrameCounts(pool, layers, i + 1, count, shown, c);
      } else {
        var next, shown' := FrameStep(pool, layers, i, gpuCount, shown, c);
        FrameCounts(next, layers, i + 1, count, shown', c);
      }
    }
  }

  lemma FrameStep(pool: Pool, layers: seq<Layer>, i: nat, gpuCount: nat, shown: seq<(nat, nat)>, c: Config)
    returns (next: Pool, shown': seq<(nat, nat)>)
    requires i < |layers| && Shaped(pool) && layers[i].toneMap && NoShortcut(layers, i, gpuCount)
    requires HandleFrom(pool, layers, i, gpuCount, shown).Ok()
    ensures Shaped(next)
    ensures HandleFrom(pool, layers, i, gpuCount, shown)
         == HandleFrom(next, layers, i + 1, if layers[i].composition.Gpu? then gpuCount + 1 else gpuCount, shown')
    ensures Count(next.sessions, false, c) == (if c == layers[i].config then Max(Count(pool.sessions, false, c) - 1, 0)
                                               else Count(pool.sessions, false, c))
    ensures Count(next.sessions, true, c) == Count(pool.sessions, true, c) + (if c == layers[i].config then 1 else 0)
  {
    next, shown' := Serve(pool, layers[i], i), shown + [Display(pool, layers[i])];
    ServeCounts(pool, layers[i], i, c);
  }

  /** Sessions present before a frame keep their place, identity and configuration through it. */
  predicate Extends(longer: seq<Session>, sessions: seq<Session>) {
    |sessions| <= |longer| &&
    forall i :: 0 <= i < |sessions| ==> longer[i].config == sessions[i].config && longer[i].id == sessions[i].id
  }

  lemma {:induction false} FrameExtends(pool: Pool, layers: seq<Layer>, i: nat, gpuCount: nat, shown: seq<(nat, nat)>)
    requires i <= |layers| && Shaped(pool) && HandleFrom(pool, layers, i, gpuCount, shown).Ok()
    ensures Extends(HandleFrom(pool, layers, i, gpuCount, shown).pool.sessions, pool.sessions)
    decreases |layers| - i
  {
    if i == |layers| {
    } else {
      var layer := layers[i];
      var count := if layer.composition.Gpu? then gpuCount + 1 else gpuCount;
      if !layer.toneMap {
        FrameExtends(pool, layers, i + 1, count, shown);
      } else if !Shortcut(pool, layer, count) {
        FrameExtends(Serve(pool, layer, i), layers, i + 1, count, shown + [Display(pool, layer)]);
      }
    }
  }

  lemma {:induction false} KeptCounts(sessions: seq<Session>, fences: seq<Fence>, n: nat, c: Config)
    requires n <= |sessions| && forall i :: 0 <= i < n ==> sessions[i].current < |sessions[i].release|
    requires forall i :: 0 <= i < n && sessions[i].acquired ==> 0 <= sessions[i].layerIndex < |fences|
    ensures Count(Kept(sessions, fences, n), false, c) == Count(sessions[..n], true, c)
    ensures Count(Kept(sessions, fences, n), true, c) == 0
    decreases n
  {
    if n == 0 {
    } else {
      KeptCounts(sessions, fences, n - 1, c);
      assert sessions[..n][..n - 1] == sessions[..n - 1];
      if sessions[n - 1].acquired {
        var s := Released(sessions[n - 1], fences[sessions[n - 1].layerIndex]);
        CountAppend(Kept(sessions, fences, n - 1), s, false, c);
        CountAppend(Kept(sessions, fences, n - 1), s, true, c);
      }
    }
  }

  // ------------------------------------------------ results

  /** A successful frame on a pool with nothing acquired: for every configuration, the pool ends up with
      as many sessions as the larger of what it had and what the frame wants, and PostCommit leaves
      exactly as many as the frame wanted, all free. */
  lemma FrameReuse(pool: Pool, layers: seq<Layer>, fences: seq<Fence>, c: Config)
    requires Shaped(pool) && NoneAcquired(pool.sessions) && NoShortcut(layers, 0, 0)
    requires Handle(pool, layers).Ok() && Committable(Handle(pool, layers).pool, fences)
    ensures var handled := Handle(pool, layers).pool;
      var after := PostCommit(handled, fences);
      && Total(handled.sessions, c) == Max(Total(pool.sessions, c), Wanted(layers, 0, c))
      && Total(after.sessions, c) == Wanted(layers, 0, c)
      && NoneAcquired(after.sessions)
  {
    var handled := Handle(pool, layers).pool;
    CountMember(pool.sessions, true, c);
    FrameCounts(pool, layers, 0, 0, [], c);
    assert handled.sessions[..|handled.sessions|] == handled.sessions;
    KeptCounts(handled.sessions, fences, |handled.sessions|, c);
    KeptExactly(handled.sessions, fences, |handled.sessions|);
  }

  /** Nothing is created when the pool already has what the frame wants, configuration by configuration,
      and nothing is deleted when it has no more. */
  lemma ExactPoolIsKept(pool: Pool, layers: seq<Layer>, fences: seq<Fence>)
    requires Shaped(pool) && NoneAcquired(pool.sessions) && NoShortcut(layers, 0, 0)
    requires Handle(pool, layers).Ok() && Committable(Handle(pool, layers).pool, fences)
    requires forall c :: Total(pool.sessions, c) == Wanted(layers, 0, c)
    ensures var handled := Handle(pool, layers).pool;
      var after := PostCommit(handled, fences);
      && |handled.sessions| == |pool.sessions|
      && Extends(handled.sessions, pool.sessions) && Extends(after.sessions, pool.sessions)
      && |after.sessions| == |pool.sessions|
  {
    var handled := Handle(pool, layers).pool;
    FrameExtends(pool, layers, 0, 0, []);
    if |handled.sessions| > |pool.sessions| {
      var c := handled.sessions[|handled.sessions| - 1].config;
      FrameReuse(pool, layers, fences, c);
      TotalGrows(pool.sessions, handled.sessions, c);
      assert false;
    }
    forall i | 0 <= i < |handled.sessions| ensures handled.sessions[i].acquired {
      var c := handled.sessions[i].config;
      CountMember(pool.sessions, true, c);
      FrameCounts(pool, layers, 0, 0, [], c);
      CountMember(handled.sessions, false, c);
    }
    AllKept(handled.sessions, fences, |handled.sessions|);
  }

  lemma {:induction false} AllKept(sessions: seq<Session>, fences: seq<Fence>, n: nat)
    requires n <= |sessions| && forall i :: 0 <= i < n ==> sessions[i].current < |sessions[i].release|
    requires forall i :: 0 <= i < n ==> sessions[i].acquired && 0 <= sessions[i].layerIndex < |fences|
    ensures var kept := Kept(sessions, fences, n);
      |kept| == n && forall i :: 0 <= i < n ==> kept[i].config == sessions[i].config && kept[i].id == sessions[i].id
    decreases n
  {
    if n == 0 {
    } else {
      AllKept(sessions, fences, n - 1);
    }
  }

  /** Two complete frames in a row that want the same configurations, in any order: the second creates
      and deletes no session. */
  lemma SteadyState(pool: Pool, first: seq<Layer>, fences: seq<Fence>, second: seq<Layer>, fences': seq<Fence>)
    requires Shaped(pool) && NoneAcquired(pool.sessions) && NoShortcut(first, 0, 0) && NoShortcut(second, 0, 0)
    requires Handle(pool, first).Ok() && Committable(Handle(pool, first).pool, fences)
    requires forall c :: Wanted(first, 0, c) == Wanted(second, 0, c)
    ensures var between := PostCommit(Handle(pool, first).pool, fences);
      Shaped(between) &&
      (Handle(between, second).Ok() && Committable(Handle(between, second).pool, fences') ==>
        var handled := Handle(between, second).pool;
        var after := PostCommit(handled, fences');
        && |handled.sessions| == |between.sessions| && Extends(handled.sessions, between.sessions)
        && |after.sessions| == |between.sessions| && Extends(after.sessions, between.sessions))
  {
    var between := PostCommit(Handle(pool, first).pool, fences);
    PostCommitShaped(Handle(pool, first).pool, fences);
    KeptExactly(Handle(pool, first).pool.sessions, fences, |Handle(pool, first).pool.sessions|);
    forall c ensures Total(between.sessions, c) == Wanted(second, 0, c) {
      FrameReuse(pool, first, fences, c);
    }
    if Handle(between, second).Ok() && Committable(Handle(between, second).pool, fences') {
      ExactPoolIsKept(between, second, fences');
    }
  }
}
