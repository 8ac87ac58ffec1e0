/** What the tone-map pool guarantees over any sequence of frames and commits, and the two cases in
    which the framebuffer's session goes wrong. */
module ToneMapSafety {
  import opened ToneMapPool

  // ------------------------------------------------ what the history says about a buffer

  /** The release fence recorded the last time buffer `b` of session `id` was committed. */
  function LastFence(log: seq<Event>, id: nat, b: nat): Fence {
    if |log| == 0 then {}
    else
      var e := log[|log| - 1];
      if e.Commit? && e.session == id && e.buffer == b then e.fence else LastFence(log[..|log| - 1], id, b)
  }

  /** The buffer session `id` committed last, or -1. */
  function LastBuffer(log: seq<Event>, id: nat): int {
    if |log| == 0 then -1
    else
      var e := log[|log| - 1];
      if e.Commit? && e.session == id then e.buffer else LastBuffer(log[..|log| - 1], id)
  }

  /** Every blit waits for the last commit of its buffer, and does not hit the buffer committed last. */
  predicate SafeLog(log: seq<Event>) {
    |log| == 0 ||
    var front, e := log[..|log| - 1], log[|log| - 1];
    SafeLog(front) &&
    (e.Blit? ==> LastFence(front, e.session, e.buffer) <= e.waits && LastBuffer(front, e.session) != e.buffer)
  }

  /** Session fields agree with the history. */
  predicate SessionOk(log: seq<Event>, s: Session) {
    && s.current < 2 && |s.release| == 2
    && s.release[0] == LastFence(log, s.id, 0) && s.release[1] == LastFence(log, s.id, 1)
    && (!s.acquired ==> LastBuffer(log, s.id) == s.current)
  }

  predicate IdsOk(pool: Pool) {
    && (forall i :: 0 <= i < |pool.sessions| ==> pool.sessions[i].id < pool.nextId)
    && (forall i, j :: 0 <= i < j < |pool.sessions| ==> pool.sessions[i].id != pool.sessions[j].id)
    && (forall i :: 0 <= i < |pool.log| ==> pool.log[i].session < pool.nextId)
  }

  predicate Inv(pool: Pool) {
    && Shaped(pool) && IdsOk(pool) && SafeLog(pool.log)
    && (forall i :: 0 <= i < |pool.sessions| ==> SessionOk(pool.log, pool.sessions[i]))
  }

  lemma {:induction false} UnknownSession(log: seq<Event>, id: nat)
    requires forall i :: 0 <= i < |log| ==> log[i].session != id
    ensures LastFence(log, id, 0) == {} && LastFence(log, id, 1) == {} && LastBuffer(log, id) == -1
    decreases |log|
  {
    if |log| == 0 {
    } else {
      UnknownSession(log[..|log| - 1], id);
    }
  }

  /** An event that commits nothing for `id` leaves what the history says about `id`. */
  lemma Append(log: seq<Event>, e: Event, id: nat)
    ensures !(e.Commit? && e.session == id) ==>
      && LastBuffer(log + [e], id) == LastBuffer(log, id)
      && forall b :: LastFence(log + [e], id, b) == LastFence(log, id, b)
    ensures e.Commit? && e.session == id ==>
      LastBuffer(log + [e], id) == e.buffer &&
      forall b :: LastFence(log + [e], id, b) == if b == e.buffer then e.fence else LastFence(log, id, b)
  {
    assert (log + [e])[..|log|] == log;
  }

  // ------------------------------------------------ HandleToneMap

  lemma AcquireKeeps(pool: Pool, layer: Layer)
    requires Inv(pool) && Acquire(pool, layer).Granted?
    ensures var g := Acquire(pool, layer);
      && Inv(g.pool) && g.pool.log == pool.log && g.pool.sessions[g.index].acquired
      && LastBuffer(pool.log, g.pool.sessions[g.index].id) != g.pool.sessions[g.index].current
  {
    var g := Acquire(pool, layer);
    if g.index == |pool.sessions| {
      UnknownSession(pool.log, pool.nextId);
    }
    assert forall i :: 0 <= i < |pool.sessions| && i != g.index ==> g.pool.sessions[i] == pool.sessions[i];
  }

  lemma BlitKeeps(pool: Pool, index: nat, layer: Layer, i: nat)
    requires Inv(pool) && index < |pool.sessions| && pool.sessions[index].acquired
    requires LastBuffer(pool.log, pool.sessions[index].id) != pool.sessions[index].current
    ensures Inv(ToneMap(pool, index, layer, i))
  {
    var next := ToneMap(pool, index, layer, i);
    var e := next.log[|pool.log|];
    assert next.log == pool.log + [e] && next.log[..|pool.log|] == pool.log;
    assert SessionOk(pool.log, pool.sessions[index]);
    forall j | 0 <= j < |next.sessions| ensures SessionOk(next.log, next.sessions[j]) {
      assert SessionOk(pool.log, pool.sessions[j]);
      Append(pool.log, e, pool.sessions[j].id);
    }
  }

  lemma ServeKeeps(pool: Pool, layer: Layer, i: nat)
    requires Inv(pool) && Acquire(pool, layer).Granted?
    ensures Inv(Serve(pool, layer, i))
  {
    AcquireKeeps(pool, layer);
    var g := Acquire(pool, layer);
    BlitKeeps(if layer.composition.GpuTarget? then g.pool.(fb := g.index) else g.pool, g.index, layer, i);
  }

  lemma {:induction false} HandleKeeps(pool: Pool, layers: seq<Layer>, i: nat, gpuCount: nat, shown: seq<(nat, nat)>)
    requires i <= |layers| && Inv(pool)
    ensures Inv(HandleFrom(pool, layers, i, gpuCount, shown).pool)
    decreases |layers| - i
  {
    if i == |layers| {
    } else {
      var layer := layers[i];
      var count := if layer.composition.Gpu? then gpuCount + 1 else gpuCount;
      if !layer.toneMap {
        HandleKeeps(pool, layers, i + 1, count, shown);
      } else if Shortcut(pool, layer, count) {
        var s := pool.sessions[pool.fb];
        assert SessionOk(pool.log, s);
        CachedKeeps(pool, i);
      } else if Acquire(pool, layer).Granted? {
        ServeKeeps(pool, layer, i);
        HandleKeeps(Serve(pool, layer, i), layers, i + 1, count, shown + [Display(pool, layer)]);
      }
    }
  }

  lemma CachedKeeps(pool: Pool, i: nat)
    requires Inv(pool) && |pool.sessions| > 0 && pool.fb >= 0
    ensures Inv(pool.(sessions := pool.sessions[pool.fb := pool.sessions[pool.fb].(layerIndex := i, acquired := true)]))
  {
    var next := pool.(sessions := pool.sessions[pool.fb := pool.sessions[pool.fb].(layerIndex := i, acquired := true)]);
    forall j | 0 <= j < |next.sessions| ensures SessionOk(next.log, next.sessions[j]) {
      assert SessionOk(pool.log, pool.sessions[j]);
    }
  }

  // ------------------------------------------------ PostCommit

  /** Committing the first `n` sessions adds no blit. */
  lemma {:induction false} CommitsSafe(pool: Pool, fences: seq<Fence>, n: nat)
    requires Inv(pool) && Committable(pool, fences) && n <= |pool.sessions|
    ensures SafeLog(pool.log + Commits(pool.sessions, fences, n))
    ensures forall i :: 0 <= i < |Commits(pool.sessions, fences, n)| ==>
      Commits(pool.sessions, fences, n)[i].session < pool.nextId
    decreases n
  {
    if n == 0 {
      assert pool.log + [] == pool.log;
    } else {
      CommitsSafe(pool, fences, n - 1);
      var s := pool.sessions[n - 1];
      var log, next := pool.log + Commits(pool.sessions, fences, n - 1), pool.log + Commits(pool.sessions, fences, n);
      if s.acquired {
        assert next == log + [Commit(s.id, s.current, fences[s.layerIndex])];
        assert next[..|log|] == log;
      } else {
        assert next == log;
      }
    }
  }

  /** What the history says about session `id` after its commit, if it is among the first `n`. */
  ghost predicate Recorded(pool: Pool, fences: seq<Fence>, n: nat, id: nat)
    requires Inv(pool) && Committable(pool, fences) && n <= |pool.sessions|
  {
    var log := pool.log + Commits(pool.sessions, fences, n);
    && ((forall i :: 0 <= i < n ==> pool.sessions[i].id != id) ==>
          LastBuffer(log, id) == LastBuffer(pool.log, id) &&
          forall b :: LastFence(log, id, b) == LastFence(pool.log, id, b))
    && (forall i :: 0 <= i < n && pool.sessions[i].acquired && pool.sessions[i].id == id ==>
          SessionOk(log, Released(pool.sessions[i], fences[pool.sessions[i].layerIndex])))
  }

  lemma {:induction false} CommitsRecord(pool: Pool, fences: seq<Fence>, n: nat, id: nat)
    requires Inv(pool) && Committable(pool, fences) && n <= |pool.sessions|
    ensures Recorded(pool, fences, n, id)
    decreases n
  {
    if n == 0 {
      RecordNone(pool, fences, id);
    } else {
      CommitsRecord(pool, fences, n - 1, id);
      RecordStep(pool, fences, n, id);
    }
  }

  lemma RecordNone(pool: Pool, fences: seq<Fence>, id: nat)
    requires Inv(pool) && Committable(pool, fences)
    ensures Recorded(pool, fences, 0, id)
  {
    assert pool.log + [] == pool.log;
  }

  lemma RecordStep(pool: Pool, fences: seq<Fence>, n: nat, id: nat)
    requires Inv(pool) && Committable(pool, fences) && 0 < n <= |pool.sessions| && Recorded(pool, fences, n - 1, id)
    ensures Recorded(pool, fences, n, id)
  {
    var s := pool.sessions[n - 1];
    var log, next := pool.log + Commits(pool.sessions, fences, n - 1), pool.log + Commits(pool.sessions, fences, n);
    assert SessionOk(pool.log, s);
    if s.acquired {
      var e := Commit(s.id, s.current, fences[s.layerIndex]);
      assert next == log + [e];
      Append(log, e, id);
    } else {
      assert next == log;
    }
  }

  /** Each kept session is a released one of the pool, at the place its predecessors leave it. */
  lemma {:induction false} KeptFrom(sessions: seq<Session>, fences: seq<Fence>, n: nat, k: nat) returns (i: nat)
    requires n <= |sessions| && forall i :: 0 <= i < n ==> sessions[i].current < |sessions[i].release|
    requires forall i :: 0 <= i < n && sessions[i].acquired ==> 0 <= sessions[i].layerIndex < |fences|
    requires k < |Kept(sessions, fences, n)|
    ensures i < n && sessions[i].acquired && AcquiredCount(sessions, i) == k
    ensures Kept(sessions, fences, n)[k] == Released(sessions[i], fences[sessions[i].layerIndex])
    decreases n
  {
    if k < |Kept(sessions, fences, n - 1)| {
      i := KeptFrom(sessions, fences, n - 1, k);
    } else {
      i := n - 1;
      KeptExactly(sessions, fences, n - 1);
    }
  }

  lemma PostCommitIds(pool: Pool, fences: seq<Fence>)
    requires Inv(pool) && Committable(pool, fences)
    ensures IdsOk(PostCommit(pool, fences))
  {
    var after := PostCommit(pool, fences);
    var n := |pool.sessions|;
    CommitsSafe(pool, fences, n);
    forall k | 0 <= k < |after.sessions| ensures after.sessions[k].id < after.nextId {
      var i := KeptFrom(pool.sessions, fences, n, k);
    }
    forall k, l | 0 <= k < l < |after.sessions| ensures after.sessions[k].id != after.sessions[l].id {
      var i := KeptFrom(pool.sessions, fences, n, k);
      var j := KeptFrom(pool.sessions, fences, n, l);
      assert i < j || j < i;
    }
  }

  lemma PostCommitSessions(pool: Pool, fences: seq<Fence>, k: nat)
    requires Inv(pool) && Committable(pool, fences) && k < |PostCommit(pool, fences).sessions|
    ensures SessionOk(PostCommit(pool, fences).log, PostCommit(pool, fences).sessions[k])
  {
    var n := |pool.sessions|;
    var i := KeptFrom(pool.sessions, fences, n, k);
    CommitsRecord(pool, fences, n, pool.sessions[i].id);
  }

  lemma PostCommitKeeps(pool: Pool, fences: seq<Fence>)
    requires Inv(pool) && Committable(pool, fences)
    ensures Inv(PostCommit(pool, fences))
  {
    var after := PostCommit(pool, fences);
    PostCommitIds(pool, fences);
    PostCommitShaped(pool, fences);
    CommitsSafe(pool, fences, |pool.sessions|);
    forall k | 0 <= k < |after.sessions| ensures SessionOk(after.log, after.sessions[k]) {
      PostCommitSessions(pool, fences, k);
    }
  }

  // ------------------------------------------------ runs

  datatype Op = Frame(layers: seq<Layer>) | Committed(fences: seq<Fence>) | Stop

  predicate Enabled(pool: Pool, op: Op) {
    Shaped(pool) && (op.Committed? ==> Committable(pool, op.fences))
  }

  function Apply(pool: Pool, op: Op): Pool
    requires Enabled(pool, op)
  {
    match op
    case Frame(layers) => Handle(pool, layers).pool
    case Committed(fences) => PostCommit(pool, fences)
    case Stop => Terminate(pool)
  }

  predicate Runs(pool: Pool, ops: seq<Op>)
    decreases |ops|
  {
    |ops| == 0 || (Enabled(pool, ops[0]) && Runs(Apply(pool, ops[0]), ops[1..]))
  }

  function Exec(pool: Pool, ops: seq<Op>): Pool
    requires Runs(pool, ops)
    decreases |ops|
  {
    if |ops| == 0 then pool else Exec(Apply(pool, ops[0]), ops[1..])
  }

  lemma {:induction false} RunKeeps(pool: Pool, ops: seq<Op>)
    requires Inv(pool) && Runs(pool, ops)
    ensures Inv(Exec(pool, ops))
    decreases |ops|
  {
    if |ops| == 0 {
    } else {
      match ops[0] {
        case Frame(layers) => HandleKeeps(pool, layers, 0, 0, []);
        case Committed(fences) => PostCommitKeeps(pool, fences);
        case Stop =>
      }
      RunKeeps(Apply(pool, ops[0]), ops[1..]);
    }
  }

  /** In every run of frames, commits and terminations, in any order and with any failures: each blit
      into a buffer waits for the release fence recorded when that buffer was last committed, and no
      session blits into the buffer it committed last. */
  lemma DoubleBufferSafety(ops: seq<Op>, i: nat)
    requires Runs(EMPTY_POOL, ops) && i < |Exec(EMPTY_POOL, ops).log| && Exec(EMPTY_POOL, ops).log[i].Blit?
    ensures var log := Exec(EMPTY_POOL, ops).log;
      var Blit(id, b, waits) := log[i];
      LastFence(log[..i], id, b) <= waits && LastBuffer(log[..i], id) != b
  {
    RunKeeps(EMPTY_POOL, ops);
    var log := Exec(EMPTY_POOL, ops).log;
    SafePrefix(log, i);
    assert log[..i + 1][..i] == log[..i];
  }

  lemma {:induction false} SafePrefix(log: seq<Event>, i: nat)
    requires SafeLog(log) && i < |log|
    ensures SafeLog(log[..i + 1])
    decreases |log|
  {
    var front := log[..|log| - 1];
    if i == |front| {
      assert log[..i + 1] == log;
    } else {
      SafePrefix(front, i);
      assert front[..i + 1] == log[..i + 1];
    }
  }
}
