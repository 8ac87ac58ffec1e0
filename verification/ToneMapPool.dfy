/** The pool of GPU tone-map sessions as a value: first-fit reuse, two buffers a session, deletion of
    what a frame did not use, and the index of the framebuffer's session. */
module ToneMapPool {

  /** Everything IsSameToneMapConfig compares. */
  datatype Config = Config(inverse: bool, blendCs: nat, transfer: nat, format: nat, secure: bool, width: nat,
                           height: nat)

  /** A fence as the set of driver fences it waits for; the null fence waits for none. */
  type Fence = set<nat>

  datatype Composition = GpuTarget | Gpu | Other

  /** A layer as HandleToneMap sees it.  `lutValid`, `instanceOk` and `buffersOk` are what the LUT, the
      tone-mapper factory and the allocator would answer for it. */
  datatype Layer = Layer(composition: Composition, toneMap: bool, config: Config, acquire: Fence,
                         lutValid: bool, instanceOk: bool, buffersOk: bool)

  datatype Session = Session(id: nat, config: Config, current: nat, release: seq<Fence>, acquired: bool,
                             layerIndex: int)

  datatype Event =
    | Blit(session: nat, buffer: nat, waits: Fence)     // GPU writes `buffer` once `waits` has signalled
    | Commit(session: nat, buffer: nat, fence: Fence)   // display reads `buffer` until `fence` signals

  /** `nextId` numbers sessions in creation order; `log` is the history of buffer use. */
  datatype Pool = Pool(sessions: seq<Session>, fb: int, nextId: nat, log: seq<Event>)

  datatype Acquired = Granted(pool: Pool, index: nat) | Refused

  /** How HandleToneMap left its loop: at its end, by the cached-framebuffer shortcut, or because a request
      was refused. */
  datatype Exit = Finished | Cached | Error

  /** `shown`: which session and buffer each tone-mapped layer of the frame displays. */
  datatype Outcome = Outcome(pool: Pool, exit: Exit, shown: seq<(nat, nat)>) {
    /** HandleToneMap returns 0. */
    predicate Ok() {
      !exit.Error?
    }
  }

  const EMPTY_POOL := Pool([], -1, 0, [])

  // ---------------------------------------------------------------- operations

  /** First free session of that configuration from `from` on, or |sessions|. */
  function FirstFree(sessions: seq<Session>, config: Config, from: nat): (i: nat)
    requires from <= |sessions|
    ensures from <= i <= |sessions|
    ensures i < |sessions| ==> !sessions[i].acquired && sessions[i].config == config
    ensures forall j :: from <= j < i ==> sessions[j].acquired || sessions[j].config != config
    decreases |sessions| - from
  {
    if from == |sessions| || (!sessions[from].acquired && sessions[from].config == config) then from
    else FirstFree(sessions, config, from + 1)
  }

  function NewSession(id: nat, config: Config): Session {
    Session(id, config, 0, [{}, {}], true, -1)
  }

  /** A free session taken again, on its other buffer. */
  function Reused(pool: Pool, i: nat): Pool
    requires i < |pool.sessions|
  {
    var s := pool.sessions[i];
    pool.(sessions := pool.sessions[i := s.(current := (s.current + 1) % 2, acquired := true)])
  }

  function Created(pool: Pool, config: Config): Pool {
    pool.(sessions := pool.sessions + [NewSession(pool.nextId, config)], nextId := pool.nextId + 1)
  }

  function Acquire(pool: Pool, layer: Layer): (g: Acquired)
    ensures g.Granted? ==> g.index < |g.pool.sessions|
  {
    if !layer.lutValid then Refused
    else
      var i := FirstFree(pool.sessions, layer.config, 0);
      if i < |pool.sessions| then Granted(Reused(pool, i), i)
      else if !layer.instanceOk || !layer.buffersOk then Refused
      else Granted(Created(pool, layer.config), |pool.sessions|)
  }

  function Terminate(pool: Pool): Pool {
    if |pool.sessions| > 0 then pool.(sessions := [], fb := -1) else pool
  }

  /** The blit into the current buffer of session `i`, which then serves layer `layerIndex`. */
  function ToneMap(pool: Pool, i: nat, layer: Layer, layerIndex: nat): Pool
    requires i < |pool.sessions| && pool.sessions[i].current < |pool.sessions[i].release|
  {
    var s := pool.sessions[i];
    pool.(sessions := pool.sessions[i := s.(layerIndex := layerIndex)],
          log := pool.log + [Blit(s.id, s.current, s.release[s.current] + layer.acquire)])
  }

  predicate Shortcut(pool: Pool, layer: Layer, gpuCount: nat) {
    layer.composition.GpuTarget? && gpuCount == 0 && |pool.sessions| > 0 && pool.fb >= 0
  }

  predicate TwoBuffers(sessions: seq<Session>) {
    forall i :: 0 <= i < |sessions| ==> sessions[i].current < 2 && |sessions[i].release| == 2
  }

  /** Structural sanity: two buffers a session, and an index that `at` accepts. */
  predicate Shaped(pool: Pool) {
    && TwoBuffers(pool.sessions)
    && -1 <= pool.fb && (pool.fb <= 0 || pool.fb < |pool.sessions|)
  }

  /** A granted request served: the framebuffer's session is remembered, the layer is blitted. */
  function Serve(pool: Pool, layer: Layer, i: nat): (next: Pool)
    requires Shaped(pool) && Acquire(pool, layer).Granted?
    ensures Shaped(next)
  {
    var g := Acquire(pool, layer);
    ToneMap(if layer.composition.GpuTarget? then g.pool.(fb := g.index) else g.pool, g.index, layer, i)
  }

  /** The session and buffer a granted request displays. */
  function Display(pool: Pool, layer: Layer): (nat, nat)
    requires Acquire(pool, layer).Granted?
  {
    var g := Acquire(pool, layer);
    (g.pool.sessions[g.index].id, g.pool.sessions[g.index].current)
  }

  /** HandleToneMap from layer `i` on. */
  function HandleFrom(pool: Pool, layers: seq<Layer>, i: nat, gpuCount: nat, shown: seq<(nat, nat)>): (o: Outcome)
    requires i <= |layers| && Shaped(pool)
    ensures Shaped(o.pool)
    decreases |layers| - i
  {
    if i == |layers| then Outcome(pool, Finished, shown)
    else
      var layer := layers[i];
      var count := if layer.composition.Gpu? then gpuCount + 1 else gpuCount;
      if !layer.toneMap then HandleFrom(pool, layers, i + 1, count, shown)
      else if Shortcut(pool, layer, count) then
        var s := pool.sessions[pool.fb];
        Outcome(pool.(sessions := pool.sessions[pool.fb := s.(layerIndex := i, acquired := true)]), Cached,
                shown + [(s.id, s.current)])
      else
        match Acquire(pool, layer)
        case Refused =>
          Outcome(Terminate(if layer.composition.GpuTarget? then pool.(fb := 0) else pool), Error, shown)
        case Granted(_, _) =>
          HandleFrom(Serve(pool, layer, i), layers, i + 1, count, shown + [Display(pool, layer)])
  }

  function Handle(pool: Pool, layers: seq<Layer>): Outcome
    requires Shaped(pool)
  {
    HandleFrom(pool, layers, 0, 0, [])
  }

  /** PostCommit may look up the release fence of every acquired session's layer. */
  predicate Committable(pool: Pool, fences: seq<Fence>) {
    forall i :: 0 <= i < |pool.sessions| && pool.sessions[i].acquired ==> 0 <= pool.sessions[i].layerIndex < |fences|
  }

  function Released(s: Session, fence: Fence): Session
    requires s.current < |s.release|
  {
    s.(release := s.release[s.current := fence], acquired := false)
  }

  /** What is left of the first `n` sessions: the acquired ones, released, in order. */
  function Kept(sessions: seq<Session>, fences: seq<Fence>, n: nat): (kept: seq<Session>)
    requires n <= |sessions| && forall i :: 0 <= i < n ==> sessions[i].current < |sessions[i].release|
    requires forall i :: 0 <= i < n && sessions[i].acquired ==> 0 <= sessions[i].layerIndex < |fences|
    ensures |kept| <= n
  {
    if n == 0 then []
    else if sessions[n - 1].acquired then
      Kept(sessions, fences, n - 1) + [Released(sessions[n - 1], fences[sessions[n - 1].layerIndex])]
    else Kept(sessions, fences, n - 1)
  }

  function Commits(sessions: seq<Session>, fences: seq<Fence>, n: nat): seq<Event>
    requires n <= |sessions|
    requires forall i :: 0 <= i < n && sessions[i].acquired ==> 0 <= sessions[i].layerIndex < |fences|
  {
    if n == 0 then []
    else
      var s := sessions[n - 1];
      Commits(sessions, fences, n - 1) + (if s.acquired then [Commit(s.id, s.current, fences[s.layerIndex])] else [])
  }

  function AcquiredCount(sessions: seq<Session>, n: nat): (c: nat)
    requires n <= |sessions|
    ensures c <= n
  {
    if n == 0 then 0 else AcquiredCount(sessions, n - 1) + (if sessions[n - 1].acquired then 1 else 0)
  }

  /** Where the framebuffer's session is once the unused sessions among the first `n` are gone. */
  function FbAfter(sessions: seq<Session>, fb: int, n: nat): int
    requires n <= |sessions|
  {
    if fb < 0 then fb
    else if n <= fb then fb - (n - AcquiredCount(sessions, n))
    else if sessions[fb].acquired then AcquiredCount(sessions, fb)
    else -1
  }

  function PostCommit(pool: Pool, fences: seq<Fence>): (after: Pool)
    requires Shaped(pool) && Committable(pool, fences)
  {
    var n := |pool.sessions|;
    Pool(Kept(pool.sessions, fences, n), FbAfter(pool.sessions, pool.fb, n), pool.nextId,
         pool.log + Commits(pool.sessions, fences, n))
  }

  // ---------------------------------------------------------------- PostCommit

  /** PostCommit keeps exactly the acquired sessions, in order and released: the `i`-th session is kept
      at the place its predecessors leave it. */
  lemma {:induction false} KeptExactly(sessions: seq<Session>, fences: seq<Fence>, n: nat)
    requires n <= |sessions| && forall i :: 0 <= i < n ==> sessions[i].current < |sessions[i].release|
    requires forall i :: 0 <= i < n && sessions[i].acquired ==> 0 <= sessions[i].layerIndex < |fences|
    ensures var kept := Kept(sessions, fences, n);
      && |kept| == AcquiredCount(sessions, n)
      && (forall i :: 0 <= i < n && sessions[i].acquired ==>
            AcquiredCount(sessions, i) < |kept| &&
            kept[AcquiredCount(sessions, i)] == Released(sessions[i], fences[sessions[i].layerIndex]))
      && (forall i :: 0 <= i < |kept| ==> !kept[i].acquired)
    decreases n
  {
    if n == 0 {
    } else {
      KeptExactly(sessions, fences, n - 1);
    }
  }

  /** After PostCommit the framebuffer index names the same session as before, or is -1 when that session
      was deleted or there was none. */
  lemma FbFollowsSession(pool: Pool, fences: seq<Fence>)
    requires Shaped(pool) && Committable(pool, fences) && pool.fb < |pool.sessions|
    ensures var after := PostCommit(pool, fences);
      && Shaped(after)
      && (pool.fb >= 0 && pool.sessions[pool.fb].acquired ==>
            0 <= after.fb < |after.sessions| && after.sessions[after.fb].id == pool.sessions[pool.fb].id)
      && (pool.fb < 0 || !pool.sessions[pool.fb].acquired ==> after.fb == -1)
  {
    KeptExactly(pool.sessions, fences, |pool.sessions|);
    assert pool.sessions[..|pool.sessions|] == pool.sessions;
    KeptShaped(pool.sessions, fences, |pool.sessions|);
  }

  lemma {:induction false} AcquiredCountMonotone(sessions: seq<Session>, m: nat, n: nat)
    requires m <= n <= |sessions|
    ensures AcquiredCount(sessions, m) <= AcquiredCount(sessions, n)
    decreases n
  {
    if m < n {
      AcquiredCountMonotone(sessions, m, n - 1);
    }
  }

  /** One turn of the deletion loop moves the framebuffer index as PostCommit does. */
  lemma FbStep(sessions: seq<Session>, fb: int, n: nat)
    requires n < |sessions|
    ensures var at, it := FbAfter(sessions, fb, n), AcquiredCount(sessions, n);
      FbAfter(sessions, fb, n + 1) ==
      if sessions[n].acquired then at else if it == at then -1 else if it < at then at - 1 else at
  {
    if 0 <= fb < n {
      AcquiredCountMonotone(sessions, fb + 1, n);
    }
  }

  /** The pool while PostCommit has passed the first `n` sessions. */
  function Passed(pool: Pool, fences: seq<Fence>, n: nat): Pool
    requires Shaped(pool) && Committable(pool, fences) && n <= |pool.sessions|
  {
    Pool(Kept(pool.sessions, fences, n) + pool.sessions[n..], FbAfter(pool.sessions, pool.fb, n), pool.nextId,
         pool.log + Commits(pool.sessions, fences, n))
  }

  function ReleasedAt(pool: Pool, it: nat, fence: Fence): Pool
    requires it < |pool.sessions| && pool.sessions[it].current < |pool.sessions[it].release|
  {
    var s := pool.sessions[it];
    pool.(sessions := pool.sessions[it := Released(s, fence)], log := pool.log + [Commit(s.id, s.current, fence)])
  }

  function ErasedAt(pool: Pool, it: nat): Pool
    requires it < |pool.sessions|
  {
    pool.(sessions := pool.sessions[..it] + pool.sessions[it + 1..],
          fb := if it == pool.fb then -1 else if it < pool.fb then pool.fb - 1 else pool.fb)
  }

  /** One turn of the deletion loop. */
  lemma PassStep(pool: Pool, fences: seq<Fence>, n: nat)
    requires Shaped(pool) && Committable(pool, fences) && n < |pool.sessions|
    ensures var s, it := pool.sessions[n], AcquiredCount(pool.sessions, n);
      var now := Passed(pool, fences, n);
      && it < |now.sessions| && now.sessions[it] == s
      && (s.acquired ==> Passed(pool, fences, n + 1) == ReleasedAt(now, it, fences[s.layerIndex]))
      && (!s.acquired ==> Passed(pool, fences, n + 1) == ErasedAt(now, it))
  {
    KeptExactly(pool.sessions, fences, n);
    FbStep(pool.sessions, pool.fb, n);
    var s, it := pool.sessions[n], AcquiredCount(pool.sessions, n);
    var now := Passed(pool, fences, n);
    if s.acquired {
      assert Passed(pool, fences, n + 1).sessions == now.sessions[it := Released(s, fences[s.layerIndex])];
    } else {
      assert Passed(pool, fences, n + 1).sessions == now.sessions[..it] + now.sessions[it + 1..];
    }
  }

  lemma {:induction false} KeptShaped(sessions: seq<Session>, fences: seq<Fence>, n: nat)
    requires n <= |sessions| && TwoBuffers(sessions[..n])
    requires forall i :: 0 <= i < n ==> sessions[i].current < |sessions[i].release|
    requires forall i :: 0 <= i < n && sessions[i].acquired ==> 0 <= sessions[i].layerIndex < |fences|
    ensures TwoBuffers(Kept(sessions, fences, n))
    decreases n
  {
    if n == 0 {
    } else {
      var kept, front := Kept(sessions, fences, n), Kept(sessions, fences, n - 1);
      assert sessions[..n - 1] == sessions[..n][..n - 1];
      KeptShaped(sessions, fences, n - 1);
      assert sessions[..n][n - 1] == sessions[n - 1];
      assert forall i :: 0 <= i < |front| ==> kept[i] == front[i];
    }
  }

  lemma PostCommitShaped(pool: Pool, fences: seq<Fence>)
    requires Shaped(pool) && Committable(pool, fences)
    ensures Shaped(PostCommit(pool, fences))
  {
    KeptExactly(pool.sessions, fences, |pool.sessions|);
    assert pool.sessions[..|pool.sessions|] == pool.sessions;
    KeptShaped(pool.sessions, fences, |pool.sessions|);
  }

  /** PostCommit from the session at `it` on, one release or deletion at a time. */
  function PassFrom(pool: Pool, fences: seq<Fence>, it: nat): (after: Pool)
    requires Shaped(pool) && it <= |pool.sessions| && CommittableFrom(pool, fences, it)
    ensures Shaped(after)
    decreases |pool.sessions| - it
  {
    if it == |pool.sessions| then pool
    else if pool.sessions[it].acquired then
      PassFrom(ReleasedAt(pool, it, fences[pool.sessions[it].layerIndex]), fences, it + 1)
    else PassFrom(ErasedAt(pool, it), fences, it)
  }

  predicate CommittableFrom(pool: Pool, fences: seq<Fence>, it: nat) {
    forall i :: it <= i < |pool.sessions| && pool.sessions[i].acquired ==> 0 <= pool.sessions[i].layerIndex < |fences|
  }

  lemma PassedFb(pool: Pool, n: nat)
    requires Shaped(pool) && n <= |pool.sessions|
    ensures var fb := FbAfter(pool.sessions, pool.fb, n);
      -1 <= fb && (fb <= 0 || fb < AcquiredCount(pool.sessions, n) + |pool.sessions| - n)
  {
    if 0 <= pool.fb < n {
      AcquiredCountMonotone(pool.sessions, pool.fb + 1, n);
    }
  }

  lemma PassedBuffers(pool: Pool, fences: seq<Fence>, n: nat)
    requires TwoBuffers(pool.sessions) && Committable(pool, fences) && n <= |pool.sessions|
    ensures TwoBuffers(Kept(pool.sessions, fences, n) + pool.sessions[n..])
  {
    assert TwoBuffers(pool.sessions[..n]);
    KeptShaped(pool.sessions, fences, n);
  }

  lemma PassedCommittable(pool: Pool, fences: seq<Fence>, n: nat)
    requires Shaped(pool) && Committable(pool, fences) && n <= |pool.sessions|
    ensures var now, it := Passed(pool, fences, n), AcquiredCount(pool.sessions, n);
      it <= |now.sessions| && Shaped(now) && CommittableFrom(now, fences, it)
  {
    var now, it := Passed(pool, fences, n), AcquiredCount(pool.sessions, n);
    PassedFb(pool, n);
    PassedBuffers(pool, fences, n);
    KeptExactly(pool.sessions, fences, n);
    forall i | it <= i < |now.sessions| && now.sessions[i].acquired ensures 0 <= now.sessions[i].layerIndex < |fences| {
      assert now.sessions[i] == pool.sessions[n + (i - it)];
    }
  }

  /** Deleting while iterating comes to the closed form PostCommit. */
  lemma {:induction false} PassFromPassed(pool: Pool, fences: seq<Fence>, n: nat)
    requires Shaped(pool) && Committable(pool, fences) && n <= |pool.sessions|
    requires var now, it := Passed(pool, fences, n), AcquiredCount(pool.sessions, n);
      it <= |now.sessions| && Shaped(now) && CommittableFrom(now, fences, it)
    ensures PassFrom(Passed(pool, fences, n), fences, AcquiredCount(pool.sessions, n)) == PostCommit(pool, fences)
    decreases |pool.sessions| - n
  {
    if n < |pool.sessions| {
      PassedCommittable(pool, fences, n + 1);
      PassStep(pool, fences, n);
      PassFromPassed(pool, fences, n + 1);
    } else {
      KeptExactly(pool.sessions, fences, n);
    }
  }

  lemma PassIsPostCommit(pool: Pool, fences: seq<Fence>)
    requires Shaped(pool) && Committable(pool, fences)
    ensures PassFrom(pool, fences, 0) == PostCommit(pool, fences)
  {
    assert Passed(pool, fences, 0) == pool;
    PassFromPassed(pool, fences, 0);
  }
}
