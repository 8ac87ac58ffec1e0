/** When two layers of one frame display the same tone-map session, from the pool and the layers alone. */
module ToneMapClash {
  import opened ToneMapPool
  import opened ToneMapSafety
  import opened ToneMapReuse
  import opened ToneMapFrame

  // ------------------------------------------------ the condition

  predicate IsFramebuffer(layer: Layer) {
    layer.toneMap && layer.composition.GpuTarget?
  }

  /** How often the layers before `n` ask for configuration `c`. */
  function WantedBefore(layers: seq<Layer>, n: nat, c: Config): nat
    requires n <= |layers|
  {
    if n == 0 then 0
    else WantedBefore(layers, n - 1, c) + (if layers[n - 1].toneMap && layers[n - 1].config == c then 1 else 0)
  }

  /** The request of layer `j` can be granted: a free session is left for it, or one can be made. */
  predicate Served(pool: Pool, layers: seq<Layer>, j: nat)
    requires j < |layers|
  {
    var l := layers[j];
    l.lutValid &&
    (WantedBefore(layers, j, l.config) < Count(pool.sessions, false, l.config) || (l.instanceOk && l.buffersOk))
  }

  predicate ServedBefore(pool: Pool, layers: seq<Layer>, n: nat)
    requires n <= |layers|
  {
    forall j :: 0 <= j < n && layers[j].toneMap ==> Served(pool, layers, j)
  }

  predicate NoGpuBefore(layers: seq<Layer>, n: nat)
    requires n <= |layers|
  {
    forall j :: 0 <= j < n ==> !layers[j].composition.Gpu?
  }

  predicate FramebufferBefore(layers: seq<Layer>, n: nat)
    requires n <= |layers|
  {
    exists j :: 0 <= j < n && IsFramebuffer(layers[j])
  }

  predicate MappedBefore(layers: seq<Layer>, n: nat)
    requires n <= |layers|
  {
    exists j :: 0 <= j < n && layers[j].toneMap
  }

  /** The free sessions of the framebuffer session's configuration that first fit finds before it. */
  function FreeAhead(pool: Pool): nat
    requires 0 <= pool.fb < |pool.sessions|
  {
    Count(pool.sessions[..pool.fb], false, pool.sessions[pool.fb].config)
  }

  /** When the loop comes to layer `n` the framebuffer index names a session this frame has taken: without a
      session of its own it was given one by an earlier framebuffer; a stale index names whatever was made
      first; otherwise earlier layers have used up the sessions ahead of it. */
  predicate FramebufferTaken(pool: Pool, layers: seq<Layer>, n: nat)
    requires Shaped(pool) && n <= |layers|
  {
    if pool.fb == -1 then FramebufferBefore(layers, n)
    else if pool.sessions == [] then MappedBefore(layers, n)
    else
      && !FramebufferBefore(layers, n)
      && WantedBefore(layers, n, pool.sessions[pool.fb].config) > FreeAhead(pool)
  }

  /** Layer `n` is a framebuffer shown again although an earlier layer has its session. */
  predicate Clashes(pool: Pool, layers: seq<Layer>, n: nat)
    requires Shaped(pool) && n < |layers|
  {
    && IsFramebuffer(layers[n]) && NoGpuBefore(layers, n) && ServedBefore(pool, layers, n)
    && FramebufferTaken(pool, layers, n)
  }

  predicate ClashFrom(pool: Pool, layers: seq<Layer>, i: nat)
    requires Shaped(pool) && i <= |layers|
  {
    exists n :: i <= n < |layers| && Clashes(pool, layers, n)
  }

  // ------------------------------------------------ what the loop knows at layer `i`

  predicate FbTaken(pool: Pool) {
    0 <= pool.fb < |pool.sessions| && pool.sessions[pool.fb].acquired
  }

  /** First fit so far: every configuration has as many free sessions left as it had, less those asked for. */
  ghost predicate Balanced(start: Pool, pool: Pool, layers: seq<Layer>, i: nat)
    requires i <= |layers|
  {
    forall c :: Count(pool.sessions, false, c) == Max(Count(start.sessions, false, c) - WantedBefore(layers, i, c), 0)
  }

  /** The framebuffer's session, named before the frame, as first fit has treated it so far. */
  predicate Followed(start: Pool, pool: Pool, layers: seq<Layer>, i: nat)
    requires 0 <= start.fb < |start.sessions| && i <= |layers|
  {
    var c := start.sessions[start.fb].config;
    && pool.fb == start.fb < |pool.sessions| && !FramebufferBefore(layers, i)
    && pool.sessions[pool.fb].config == c
    && FreeAhead(pool) == Max(FreeAhead(start) - WantedBefore(layers, i, c), 0)
    && (pool.sessions[pool.fb].acquired <==> WantedBefore(layers, i, c) > FreeAhead(start))
  }

  predicate FbFits(start: Pool, pool: Pool, layers: seq<Layer>, i: nat)
    requires Shaped(start) && i <= |layers|
  {
    if start.fb == -1 then (if FramebufferBefore(layers, i) then FbTaken(pool) else pool.fb == -1)
    else if start.sessions == [] then
      (if MappedBefore(layers, i) then FbTaken(pool) else pool.sessions == [] && pool.fb == 0)
    else Followed(start, pool, layers, i)
  }

  /** Without GPU layer, shortcut or refusal the loop has come to layer `i` with `pool`. */
  ghost predicate Came(start: Pool, pool: Pool, layers: seq<Layer>, i: nat)
    requires Shaped(start) && i <= |layers|
  {
    && NoGpuBefore(layers, i) && ServedBefore(start, layers, i)
    && Balanced(start, pool, layers, i) && FbFits(start, pool, layers, i)
  }

  lemma GrantedIffServed(start: Pool, pool: Pool, layers: seq<Layer>, i: nat)
    requires i < |layers| && Balanced(start, pool, layers, i)
    ensures Acquire(pool, layers[i]).Granted? <==> Served(start, layers, i)
  {
    CountMember(pool.sessions, false, layers[i].config);
  }

  lemma BalancedServe(start: Pool, pool: Pool, layers: seq<Layer>, i: nat)
    requires i < |layers| && Shaped(pool) && layers[i].toneMap && Acquire(pool, layers[i]).Granted?
    requires Balanced(start, pool, layers, i)
    ensures Balanced(start, Serve(pool, layers[i], i), layers, i + 1)
  {
    forall c ensures Count(Serve(pool, layers[i], i).sessions, false, c) ==
      Max(Count(start.sessions, false, c) - WantedBefore(layers, i + 1, c), 0)
    {
      ServeCounts(pool, layers[i], i, c);
    }
  }

  /** First fit takes a session ahead of index `n` as long as one is free there. */
  lemma ServeAhead(pool: Pool, layer: Layer, i: nat, n: nat, c: Config)
    requires Shaped(pool) && Acquire(pool, layer).Granted? && n <= |pool.sessions|
    ensures var next := Serve(pool, layer, i).sessions;
      && n <= |next|
      && Count(next[..n], false, c) ==
         if c == layer.config then Max(Count(pool.sessions[..n], false, c) - 1, 0)
         else Count(pool.sessions[..n], false, c)
  {
    var ahead := pool.sessions[..n];
    var next := Serve(pool, layer, i).sessions;
    var k := FirstFree(pool.sessions, layer.config, 0);
    CountMember(ahead, false, c);
    if k < n {
      assert next[..n] == ahead[k := next[k]];
      CountUpdate(ahead, k, next[k], false, c);
      assert !ahead[k].acquired && ahead[k].config == layer.config;
    } else {
      assert next[..n] == ahead;
    }
  }

  /** The session at index `n` is taken when it fits and nothing ahead of it does. */
  lemma ServeAt(pool: Pool, layer: Layer, i: nat, n: nat)
    requires Shaped(pool) && Acquire(pool, layer).Granted? && n < |pool.sessions|
    ensures var next, c := Serve(pool, layer, i).sessions, pool.sessions[n].config;
      && n < |next| && next[n].config == c
      && (next[n].acquired <==>
          pool.sessions[n].acquired || (layer.config == c && Count(pool.sessions[..n], false, c) == 0))
  {
    CountMember(pool.sessions[..n], false, pool.sessions[n].config);
    var k := FirstFree(pool.sessions, layer.config, 0);
    assert k < n ==> pool.sessions[..n][k] == pool.sessions[k];
  }

  lemma FollowedServe(start: Pool, pool: Pool, layers: seq<Layer>, i: nat)
    requires 0 <= start.fb < |start.sessions| && i < |layers| && Shaped(pool) && layers[i].toneMap
    requires Followed(start, pool, layers, i) && !IsFramebuffer(layers[i]) && Acquire(pool, layers[i]).Granted?
    ensures Followed(start, Serve(pool, layers[i], i), layers, i + 1)
  {
    ServeAhead(pool, layers[i], i, pool.fb, start.sessions[start.fb].config);
    ServeAt(pool, layers[i], i, pool.fb);
    assert Serve(pool, layers[i], i).fb == pool.fb;
  }

  lemma TakenServe(pool: Pool, layer: Layer, i: nat)
    requires Shaped(pool) && Acquire(pool, layer).Granted?
    requires FbTaken(pool) || layer.composition.GpuTarget? || (pool.sessions == [] && pool.fb == 0)
    ensures FbTaken(Serve(pool, layer, i))
  {
  }

  lemma BeforeStep(layers: seq<Layer>, i: nat)
    requires i < |layers|
    ensures FramebufferBefore(layers, i + 1) <==> FramebufferBefore(layers, i) || IsFramebuffer(layers[i])
    ensures MappedBefore(layers, i + 1) <==> MappedBefore(layers, i) || layers[i].toneMap
  {
  }

  lemma FbFitsServe(start: Pool, pool: Pool, layers: seq<Layer>, i: nat)
    requires Shaped(start) && i < |layers| && Shaped(pool) && layers[i].toneMap && FbFits(start, pool, layers, i)
    requires !Shortcut(pool, layers[i], 0) && Acquire(pool, layers[i]).Granted?
    ensures FbFits(start, Serve(pool, layers[i], i), layers, i + 1)
  {
    BeforeStep(layers, i);
    if start.fb != -1 && start.sessions != [] {
      FollowedServe(start, pool, layers, i);
    } else if start.fb != -1 || FramebufferBefore(layers, i + 1) {
      TakenServe(pool, layers[i], i);
    }
  }

  lemma CameSkip(start: Pool, pool: Pool, layers: seq<Layer>, i: nat)
    requires Shaped(start) && i < |layers| && Came(start, pool, layers, i)
    requires !layers[i].toneMap && !layers[i].composition.Gpu?
    ensures Came(start, pool, layers, i + 1)
  {
    BeforeStep(layers, i);
    forall c ensures WantedBefore(layers, i + 1, c) == WantedBefore(layers, i, c) {
    }
  }

  lemma CameServe(start: Pool, pool: Pool, layers: seq<Layer>, i: nat)
    requires Shaped(start) && Shaped(pool) && i < |layers| && Came(start, pool, layers, i)
    requires layers[i].toneMap && !layers[i].composition.Gpu?
    requires !Shortcut(pool, layers[i], 0) && Acquire(pool, layers[i]).Granted?
    ensures Came(start, Serve(pool, layers[i], i), layers, i + 1)
  {
    GrantedIffServed(start, pool, layers, i);
    BalancedServe(start, pool, layers, i);
    FbFitsServe(start, pool, layers, i);
  }

  // ------------------------------------------------ where the frame can end

  /** The shortcut, taken at layer `i`, meets a session in use exactly when that layer clashes, and no later
      layer does if it does not. */
  lemma ShortcutClash(start: Pool, pool: Pool, layers: seq<Layer>, i: nat)
    requires Shaped(start) && Shaped(pool) && i < |layers| && Came(start, pool, layers, i)
    requires layers[i].toneMap && Shortcut(pool, layers[i], 0)
    ensures pool.sessions[pool.fb].acquired <==> ClashFrom(start, layers, i)
  {
    assert Clashes(start, layers, i) <==> FramebufferTaken(start, layers, i);
    assert pool.sessions[pool.fb].acquired <==> FramebufferTaken(start, layers, i);
    if start.fb != -1 && start.sessions != [] {
      forall n | i < n < |layers| ensures !Clashes(start, layers, n) {
        assert IsFramebuffer(layers[i]);
      }
    }
  }

  /** A refused request ends the frame before any later layer could clash. */
  lemma RefusedNoClash(start: Pool, pool: Pool, layers: seq<Layer>, i: nat)
    requires Shaped(start) && Shaped(pool) && i < |layers| && Came(start, pool, layers, i)
    requires layers[i].toneMap && !Shortcut(pool, layers[i], 0) && Acquire(pool, layers[i]).Refused?
    ensures !ClashFrom(start, layers, i)
  {
    GrantedIffServed(start, pool, layers, i);
    NoClashHere(start, pool, layers, i);
  }

  lemma NoClashHere(start: Pool, pool: Pool, layers: seq<Layer>, i: nat)
    requires Shaped(start) && Shaped(pool) && i < |layers| && Came(start, pool, layers, i)
    requires !layers[i].toneMap || !Shortcut(pool, layers[i], 0)
    ensures !Clashes(start, layers, i)
  {
  }

  lemma ClashLater(start: Pool, layers: seq<Layer>, i: nat)
    requires Shaped(start) && i < |layers| && !Clashes(start, layers, i)
    ensures ClashFrom(start, layers, i) <==> ClashFrom(start, layers, i + 1)
  {
  }

  lemma GpuNoClash(start: Pool, layers: seq<Layer>, i: nat)
    requires Shaped(start) && i < |layers| && layers[i].composition.Gpu?
    ensures !ClashFrom(start, layers, i)
  {
  }

  /** The rest of a frame, from the pool and the layers it started with. */
  lemma {:induction false} FrameClash(start: Pool, pool: Pool, layers: seq<Layer>, i: nat, shown: seq<(nat, nat)>)
    requires Shaped(start) && i <= |layers| && Inv(pool) && Matches(pool, shown) && Came(start, pool, layers, i)
    ensures DistinctSessions(HandleFrom(pool, layers, i, 0, shown).shown) <==> !ClashFrom(start, layers, i)
    decreases |layers| - i
  {
    if i == |layers| {
    } else if layers[i].composition.Gpu? {
      GpuMatches(pool, layers, i, 0, shown);
      GpuNoClash(start, layers, i);
    } else if layers[i].toneMap && Shortcut(pool, layers[i], 0) {
      CachedMatches(pool, shown);
      ShortcutClash(start, pool, layers, i);
    } else if layers[i].toneMap && Acquire(pool, layers[i]).Refused? {
      RefusedNoClash(start, pool, layers, i);
    } else {
      FrameClashStep(start, pool, layers, i, shown);
    }
  }

  lemma {:induction false} FrameClashStep(start: Pool, pool: Pool, layers: seq<Layer>, i: nat, shown: seq<(nat, nat)>)
    requires Shaped(start) && i < |layers| && Inv(pool) && Matches(pool, shown) && Came(start, pool, layers, i)
    requires !layers[i].composition.Gpu?
    requires layers[i].toneMap ==> !Shortcut(pool, layers[i], 0) && Acquire(pool, layers[i]).Granted?
    ensures DistinctSessions(HandleFrom(pool, layers, i, 0, shown).shown) <==> !ClashFrom(start, layers, i)
    decreases |layers| - i, 0
  {
    NoClashHere(start, pool, layers, i);
    ClashLater(start, layers, i);
    if !layers[i].toneMap {
      CameSkip(start, pool, layers, i);
      FrameClash(start, pool, layers, i + 1, shown);
    } else {
      CameServe(start, pool, layers, i);
      ServeKeeps(pool, layers[i], i);
      ServeMatches(pool, layers[i], i, shown);
      FrameClash(start, Serve(pool, layers[i], i), layers, i + 1, shown + [Display(pool, layers[i])]);
    }
  }

  /** From any reachable pool with nothing acquired, the tone-mapped layers of a frame display pairwise
      different sessions if and only if no layer of it clashes - whether the frame succeeds or fails, and
      whatever the framebuffer index was before. */
  lemma LayersGetDifferentSessions(ops: seq<Op>, layers: seq<Layer>)
    requires Runs(EMPTY_POOL, ops) && NoneAcquired(Exec(EMPTY_POOL, ops).sessions)
    ensures Shaped(Exec(EMPTY_POOL, ops))
    ensures DistinctSessions(Handle(Exec(EMPTY_POOL, ops), layers).shown) <==>
      !ClashFrom(Exec(EMPTY_POOL, ops), layers, 0)
  {
    RunKeeps(EMPTY_POOL, ops);
    var pool := Exec(EMPTY_POOL, ops);
    StartCame(pool, layers);
    FrameClash(pool, pool, layers, 0, []);
  }

  lemma StartCame(pool: Pool, layers: seq<Layer>)
    requires Shaped(pool) && NoneAcquired(pool.sessions)
    ensures Came(pool, pool, layers, 0) && Matches(pool, [])
  {
  }
}
