/** Which sessions the layers of one frame get, and what the framebuffer index is worth. */
module ToneMapFrame {
  import opened ToneMapPool
  import opened ToneMapSafety

  // ------------------------------------------------ different layers, different sessions

  predicate Taken(sessions: seq<Session>, id: nat) {
    exists i :: 0 <= i < |sessions| && sessions[i].acquired && sessions[i].id == id
  }

  predicate Listed(shown: seq<(nat, nat)>, id: nat) {
    exists k :: 0 <= k < |shown| && shown[k].0 == id
  }

  predicate DistinctSessions(shown: seq<(nat, nat)>) {
    forall k, l :: 0 <= k < l < |shown| ==> shown[k].0 != shown[l].0
  }

  /** The acquired sessions are those the frame displays so far, each once. */
  ghost predicate Matches(pool: Pool, shown: seq<(nat, nat)>) {
    DistinctSessions(shown) && forall id :: Taken(pool.sessions, id) <==> Listed(shown, id)
  }

  lemma ServeTakes(pool: Pool, layer: Layer, i: nat, id: nat)
    requires Inv(pool) && Acquire(pool, layer).Granted?
    ensures !Taken(pool.sessions, Display(pool, layer).0)
    ensures Taken(Serve(pool, layer, i).sessions, id) <==> Taken(pool.sessions, id) || id == Display(pool, layer).0
  {
    var g := Acquire(pool, layer);
    var next := Serve(pool, layer, i).sessions;
    assert next[g.index].id == Display(pool, layer).0 && next[g.index].acquired;
    assert forall j :: 0 <= j < |pool.sessions| && j != g.index ==> next[j] == pool.sessions[j];
    if j :| 0 <= j < |next| && next[j].acquired && next[j].id == id {
      assert j == g.index || next[j] == pool.sessions[j];
    }
    if j :| 0 <= j < |pool.sessions| && pool.sessions[j].acquired && pool.sessions[j].id == id {
      assert next[j] == pool.sessions[j];
    }
  }

  lemma AppendLists(shown: seq<(nat, nat)>, x: (nat, nat), id: nat)
    ensures Listed(shown + [x], id) <==> Listed(shown, id) || x.0 == id
  {
    assert (shown + [x])[|shown|] == x;
    if k :| 0 <= k < |shown| && shown[k].0 == id {
      assert (shown + [x])[k] == shown[k];
    }
  }

  lemma ServeMatches(pool: Pool, layer: Layer, i: nat, shown: seq<(nat, nat)>)
    requires Inv(pool) && Acquire(pool, layer).Granted? && Matches(pool, shown)
    ensures Matches(Serve(pool, layer, i), shown + [Display(pool, layer)])
  {
    var d := Display(pool, layer);
    ServeTakes(pool, layer, i, d.0);
    forall id ensures Taken(Serve(pool, layer, i).sessions, id) <==> Listed(shown + [d], id) {
      ServeTakes(pool, layer, i, id);
      AppendLists(shown, d, id);
    }
    assert forall k :: 0 <= k < |shown| ==> Listed(shown, shown[k].0);
  }

  lemma CachedMatches(pool: Pool, shown: seq<(nat, nat)>)
    requires Inv(pool) && Matches(pool, shown) && |pool.sessions| > 0 && pool.fb >= 0
    ensures var s := pool.sessions[pool.fb];
      DistinctSessions(shown + [(s.id, s.current)]) <==> !s.acquired
  {
    var s := pool.sessions[pool.fb];
    assert Taken(pool.sessions, s.id) == s.acquired;
    assert forall k :: 0 <= k < |shown| ==> Listed(shown, shown[k].0);
    var all := shown + [(s.id, s.current)];
    if s.acquired {
      var k :| 0 <= k < |shown| && shown[k].0 == s.id;
      assert all[k].0 == all[|shown|].0;
    }
  }

  /** Once a GPU-composed layer has come, the shortcut is closed and the frame's layers display different
      sessions to its end. */
  lemma {:induction false} GpuMatches(pool: Pool, layers: seq<Layer>, i: nat, gpuCount: nat, shown: seq<(nat, nat)>)
    requires i <= |layers| && Inv(pool) && Matches(pool, shown)
    requires gpuCount > 0 || (i < |layers| && layers[i].composition.Gpu?)
    ensures DistinctSessions(HandleFrom(pool, layers, i, gpuCount, shown).shown)
    decreases |layers| - i
  {
    if i == |layers| {
    } else {
      var layer := layers[i];
      var count := if layer.composition.Gpu? then gpuCount + 1 else gpuCount;
      if !layer.toneMap {
        GpuMatches(pool, layers, i + 1, count, shown);
      } else if Acquire(pool, layer).Granted? {
        ServeKeeps(pool, layer, i);
        ServeMatches(pool, layer, i, shown);
        GpuMatches(Serve(pool, layer, i), layers, i + 1, count, shown + [Display(pool, layer)]);
      }
    }
  }

  const SDR := Config(false, 1, 2, 3, false, 1920, 1080)
  const VIDEO := Layer(Other, true, SDR, {}, true, true, true)
  const UI := Layer(Gpu, false, SDR, {}, true, true, true)
  const FRAMEBUFFER := Layer(GpuTarget, true, SDR, {}, true, true, true)

  /** The exception does occur: one frame tone-maps the framebuffer; in the next no layer is composed by
      the GPU and a video of the same configuration comes first. */
  lemma VideoTakesFramebufferSession()
    ensures Runs(EMPTY_POOL, [Frame([UI, FRAMEBUFFER]), Committed([{}, {7}])])
    ensures var pool := Exec(EMPTY_POOL, [Frame([UI, FRAMEBUFFER]), Committed([{}, {7}])]);
      Shaped(pool) && Handle(pool, [VIDEO, FRAMEBUFFER]).shown == [(0, 1), (0, 1)]
  {
    var s := Session(0, SDR, 0, [{}, {}], true, 1);
    var p1 := Pool([s], 0, 1, [Blit(0, 0, {})]);
    var p2 := Pool([s.(release := [{7}, {}], acquired := false)], 0, 1, [Blit(0, 0, {}), Commit(0, 0, {7})]);
    var ops := [Frame([UI, FRAMEBUFFER]), Committed([{}, {7}])];
    FirstFramebuffer(p1);
    FirstCommit(p1, p2);
    assert ops[1..] == [Committed([{}, {7}])] && ops[1..][1..] == [];
    assert Exec(p1, ops[1..]) == p2;
    VideoThenFramebuffer(p2);
  }

  lemma FirstFramebuffer(p1: Pool)
    requires p1 == Pool([Session(0, SDR, 0, [{}, {}], true, 1)], 0, 1, [Blit(0, 0, {})])
    ensures Handle(EMPTY_POOL, [UI, FRAMEBUFFER]).pool == p1
  {
    var layers := [UI, FRAMEBUFFER];
    var made := EMPTY_POOL.(sessions := [NewSession(0, SDR)], nextId := 1);
    assert Acquire(EMPTY_POOL, FRAMEBUFFER) == Granted(made, 0);
    var none: Fence := {};
    assert none + none == none;
    assert Serve(EMPTY_POOL, FRAMEBUFFER, 1).sessions == p1.sessions;
    assert HandleFrom(EMPTY_POOL, layers, 1, 1, []).pool ==
      HandleFrom(p1, layers, 2, 1, [Display(EMPTY_POOL, FRAMEBUFFER)]).pool;
  }

  lemma FirstCommit(p1: Pool, p2: Pool)
    requires p1 == Pool([Session(0, SDR, 0, [{}, {}], true, 1)], 0, 1, [Blit(0, 0, {})])
    requires p2 == Pool([Session(0, SDR, 0, [{7}, {}], false, 1)], 0, 1, [Blit(0, 0, {}), Commit(0, 0, {7})])
    ensures Shaped(p1) && Committable(p1, [{}, {7}]) && PostCommit(p1, [{}, {7}]) == p2
  {
    assert Kept(p1.sessions, [{}, {7}], 0) == [] && Commits(p1.sessions, [{}, {7}], 0) == [];
    assert Released(p1.sessions[0], {7}) == p2.sessions[0];
  }

  lemma VideoThenFramebuffer(p2: Pool)
    requires p2 == Pool([Session(0, SDR, 0, [{7}, {}], false, 1)], 0, 1, [Blit(0, 0, {}), Commit(0, 0, {7})])
    ensures Handle(p2, [VIDEO, FRAMEBUFFER]).shown == [(0, 1), (0, 1)]
  {
    var layers := [VIDEO, FRAMEBUFFER];
    assert FirstFree(p2.sessions, SDR, 0) == 0;
    var next := Serve(p2, VIDEO, 0);
    assert Display(p2, VIDEO) == (0, 1);
    assert HandleFrom(p2, layers, 0, 0, []) == HandleFrom(next, layers, 1, 0, [(0, 1)]);
    assert Shortcut(next, FRAMEBUFFER, 0);
  }

  // ------------------------------------------------ the framebuffer index

  /** The first tone-mapped layer from `i` on, or |layers|. */
  function FirstMapped(layers: seq<Layer>, i: nat): (b: nat)
    requires i <= |layers|
    ensures i <= b <= |layers| && (b < |layers| ==> layers[b].toneMap)
    ensures forall j :: i <= j < b ==> !layers[j].toneMap
    decreases |layers| - i
  {
    if i == |layers| || layers[i].toneMap then i else FirstMapped(layers, i + 1)
  }

  /** A session can be made for the layer. */
  predicate Obtainable(layer: Layer) {
    layer.lutValid && layer.instanceOk && layer.buffersOk
  }

  /** The pool is empty and the frame's first tone-mapped layer gets no session: a framebuffer target, or any
      layer if the index was left at 0 before.  With no tone-mapped layer at all the index stays as it was. */
  predicate LeavesStaleIndex(pool: Pool, layers: seq<Layer>, i: nat)
    requires i <= |layers|
  {
    pool.sessions == [] &&
    var b := FirstMapped(layers, i);
    if b == |layers| then pool.fb == 0
    else !Obtainable(layers[b]) && (layers[b].composition.GpuTarget? || pool.fb == 0)
  }

  /** After a frame the framebuffer index is -1 or names a session, exactly unless the frame leaves it
      stale. */
  lemma {:induction false} FbIndexNamesSession(pool: Pool, layers: seq<Layer>, i: nat, gpuCount: nat,
                                               shown: seq<(nat, nat)>)
    requires i <= |layers| && Shaped(pool)
    ensures var after := HandleFrom(pool, layers, i, gpuCount, shown).pool;
      after.fb < |after.sessions| <==> !LeavesStaleIndex(pool, layers, i)
    decreases |layers| - i
  {
    if i == |layers| {
    } else {
      var layer := layers[i];
      var count := if layer.composition.Gpu? then gpuCount + 1 else gpuCount;
      if !layer.toneMap {
        FbIndexNamesSession(pool, layers, i + 1, count, shown);
      } else if !Shortcut(pool, layer, count) && Acquire(pool, layer).Granted? {
        FbIndexNamesSession(Serve(pool, layer, i), layers, i + 1, count, shown + [Display(pool, layer)]);
      }
    }
  }

  /** What the stale index does: after such a refusal the first session anyone creates passes for the
      framebuffer's, and a later framebuffer displays that layer's buffer without a blit. */
  lemma StaleIndexShowsOtherLayer()
    ensures var refused := Handle(EMPTY_POOL, [UI, FRAMEBUFFER.(lutValid := false)]).pool;
      var video := Handle(refused, [VIDEO]);
      && refused.fb == 0 && refused.sessions == []
      && video.Ok() && video.shown == [(0, 0)] && video.pool.fb == 0
      && Handle(video.pool, [FRAMEBUFFER]).shown == [(0, 0)]
      && Handle(video.pool, [FRAMEBUFFER]).pool.log == video.pool.log
  {
    var bad := FRAMEBUFFER.(lutValid := false);
    var refused := Handle(EMPTY_POOL, [UI, bad]).pool;
    assert HandleFrom(EMPTY_POOL, [UI, bad], 1, 1, []).pool == refused;
    assert Display(refused, VIDEO) == (0, 0);
    var next := Serve(refused, VIDEO, 0);
    assert [] + [Display(refused, VIDEO)] == [(0, 0)];
    assert Handle(refused, [VIDEO]) == HandleFrom(next, [VIDEO], 1, 0, [(0, 0)]);
    assert Shortcut(next, FRAMEBUFFER, 0);
  }
}
