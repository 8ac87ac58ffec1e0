/** The tone mapper with its session objects; each method is proved to do what `ToneMapPool` says. */
module ToneMapper {
  import opened ToneMapPool

  class ToneMapSession {
    ghost const id: nat
    var config: Config               // tone_map_config_ and the size of the intermediate buffers
    var currentBuffer: nat           // current_buffer_index_
    var releaseFence: seq<Fence>     // release_fence_, one per intermediate buffer
    var acquired: bool
    var layerIndex: int

    constructor (ghost id: nat, config: Config)
      ensures View() == NewSession(id, config)
    {
      this.id, this.config := id, config;
      currentBuffer, releaseFence, acquired, layerIndex := 0, [{}, {}], true, -1;
    }

    ghost function View(): Session
      reads this
    {
      Session(id, config, currentBuffer, releaseFence, acquired, layerIndex)
    }
  }

  class HWCToneMapper {
    var sessions: seq<ToneMapSession>     // tone_map_sessions_
    var fbSessionIndex: int
    ghost var nextId: nat
    ghost var log: seq<Event>

    ghost function Views(ss: seq<ToneMapSession>): (v: seq<Session>)
      reads ss
      ensures |v| == |ss| && forall i :: 0 <= i < |ss| ==> v[i] == ss[i].View()
    {
      seq(|ss|, i requires 0 <= i < |ss| reads ss => ss[i].View())
    }

    ghost function View(): Pool
      reads this, sessions
    {
      Pool(Views(sessions), fbSessionIndex, nextId, log)
    }

    ghost predicate Valid()
      reads this, sessions
    {
      DistinctSessions() && Shaped(View())
    }

    constructor ()
      ensures Valid() && View() == EMPTY_POOL
    {
      sessions, fbSessionIndex, nextId, log := [], -1, 0, [];
    }

    method Terminate()
      requires Valid()
      modifies this
      ensures Valid() && View() == old(ToneMapPool.Terminate(View())) && sessions == []
    {
      if |sessions| > 0 {
        while sessions != []
          invariant nextId == old(nextId) && log == old(log)
          decreases |sessions|
        {
          sessions := sessions[..|sessions| - 1];
        }
        fbSessionIndex := -1;
      }
    }

    ghost predicate DistinctSessions()
      reads this
    {
      forall i, j :: 0 <= i < j < |sessions| ==> sessions[i] != sessions[j]
    }

    /** SetReleaseFence and release of the session at `it`. */
    method Release(it: nat, fence: Fence)
      requires DistinctSessions() && it < |sessions| && sessions[it].currentBuffer < |sessions[it].releaseFence|
      modifies this`log, sessions[it]
      ensures View() == old(ReleasedAt(View(), it, fence))
      ensures var s := sessions[it];
        && log == old(log) + [Commit(s.id, s.currentBuffer, fence)] && !s.acquired
        && s.releaseFence == old(s.releaseFence)[s.currentBuffer := fence]
    {
      ghost var was := View();
      var session := sessions[it];
      assert was.sessions[it] == session.View();
      log := log + [Commit(session.id, session.currentBuffer, fence)];
      session.releaseFence := session.releaseFence[session.currentBuffer := fence];
      session.acquired := false;
      assert Views(sessions) == was.sessions[it := session.View()];
    }

    /** Deletion of the session at `it`, with the framebuffer index kept on its session. */
    method Erase(it: nat)
      requires DistinctSessions() && it < |sessions|
      modifies this`sessions, this`fbSessionIndex
      ensures DistinctSessions() && |sessions| == |old(sessions)| - 1
      ensures forall j :: 0 <= j < |sessions| ==> sessions[j] == old(sessions)[if j < it then j else j + 1]
      ensures View() == old(ErasedAt(View(), it))
    {
      ghost var was := View();
      sessions := sessions[..it] + sessions[it + 1..];
      if it == fbSessionIndex {
        fbSessionIndex := -1;
      } else if it < fbSessionIndex {
        fbSessionIndex := fbSessionIndex - 1;
      }
      assert Views(sessions) == was.sessions[..it] + was.sessions[it + 1..];
    }

    /** The search for a free session of that configuration; |sessions| when there is none. */
    method FindFree(config: Config) returns (i: nat)
      requires Valid()
      ensures i == FirstFree(View().sessions, config, 0)
    {
      i := 0;
      while i < |sessions|
        invariant i <= |sessions| && FirstFree(View().sessions, config, 0) == FirstFree(View().sessions, config, i)
      {
        assert View().sessions[i] == sessions[i].View();
        if !sessions[i].acquired && sessions[i].config == config {
          return;
        }
        i := i + 1;
      }
    }

    predicate Fits(session: ToneMapSession, config: Config)
      reads session
    {
      !session.acquired && session.config == config
    }

    method AcquireToneMapSession(layer: Layer) returns (ok: bool, index: nat)
      requires Valid()
      modifies this, sessions
      ensures forall j :: 0 <= j < |sessions| ==> sessions[j] in old(sessions) || fresh(sessions[j])
      ensures Valid()
      ensures ok == old(Acquire(View(), layer)).Granted?
      ensures ok ==> View() == old(Acquire(View(), layer)).pool && index == old(Acquire(View(), layer)).index
      ensures ok <==>
        layer.lutValid &&
        (old(exists j :: 0 <= j < |sessions| && Fits(sessions[j], layer.config)) ||
         (layer.instanceOk && layer.buffersOk))
      ensures ok ==> index < |sessions| && sessions[index].acquired && sessions[index].config == layer.config
      ensures !ok ==> View() == old(View()) && sessions == old(sessions) && index == 0
    {
      ok, index := false, 0;
      if !layer.lutValid {
        return;
      }
      var i := FindFree(layer.config);
      if i < |sessions| {
        Reuse(i);
        return true, i;
      }
      if !layer.instanceOk || !layer.buffersOk {
        return;
      }
      Create(layer.config);
      return true, i;
    }

    /** A free session taken again, on its other buffer. */
    method Reuse(i: nat)
      requires Valid() && i < |sessions|
      modifies sessions[i]
      ensures Valid()
      ensures View() == old(Reused(View(), i))
    {
      ghost var was := Views(sessions);
      var s := sessions[i];
      assert was[i] == s.View();
      s.currentBuffer := (s.currentBuffer + 1) % 2;
      s.acquired := true;
      assert Views(sessions) == was[i := was[i].(current := (was[i].current + 1) % 2, acquired := true)];
    }

    method Create(config: Config)
      requires Valid()
      modifies this
      ensures Valid() && |sessions| == |old(sessions)| + 1 && sessions[..|old(sessions)|] == old(sessions)
      ensures fresh(sessions[|old(sessions)|])
      ensures View() == old(Created(View(), config))
    {
      ghost var was := Views(sessions);
      var session := new ToneMapSession(nextId, config);
      nextId := nextId + 1;
      sessions := sessions + [session];
      assert Views(sessions) == was + [session.View()];
    }

    method ToneMap(layer: Layer, session: ToneMapSession, ghost index: nat, layerIndex: nat)
      requires Valid() && index < |sessions| && sessions[index] == session
      modifies this`log, session`layerIndex
      ensures Valid() && sessions == old(sessions)
      ensures View() == old(ToneMapPool.ToneMap(View(), index, layer, layerIndex))
      ensures var waits := session.releaseFence[session.currentBuffer] + layer.acquire;
        log == old(log) + [Blit(session.id, session.currentBuffer, waits)] && session.layerIndex == layerIndex
    {
      ghost var was := View();
      assert was.sessions[index] == session.View();
      var merged := session.releaseFence[session.currentBuffer] + layer.acquire;
      log := log + [Blit(session.id, session.currentBuffer, merged)];
      session.layerIndex := layerIndex;
      assert Views(sessions) == ToneMapPool.ToneMap(was, index, layer, layerIndex).sessions;
    }

    method Show(layer: Layer, index: nat, i: nat) returns (ghost display: (nat, nat))
      requires Valid() && index < |sessions|
      modifies this`log, sessions
      ensures Valid() && sessions == old(sessions)
      ensures View() == old(ToneMapPool.ToneMap(View(), index, layer, i))
      ensures display == old((View().sessions[index].id, View().sessions[index].current))
    {
      var session := sessions[index];
      assert session in sessions && View().sessions[index] == session.View();
      display := (session.id, session.currentBuffer);
      ToneMap(layer, session, index, i);
    }

    method NameFramebuffer(index: nat)
      requires Valid() && (index == 0 || index < |sessions|)
      modifies this`fbSessionIndex
      ensures Valid() && View() == old(View().(fb := index))
    {
      ghost var was := Views(sessions);
      fbSessionIndex := index;
      assert Views(sessions) == was;
    }

    /** One tone-mapped layer outside the shortcut. */
    method ServeLayer(layer: Layer, i: nat) returns (ok: bool, ghost display: (nat, nat))
      requires Valid()
      modifies this, sessions
      ensures Valid()
      ensures forall j :: 0 <= j < |sessions| ==> sessions[j] in old(sessions) || fresh(sessions[j])
      ensures ok == old(Acquire(View(), layer)).Granted?
      ensures ok ==> View() == old(Serve(View(), layer, i)) && display == old(Display(View(), layer))
      ensures !ok ==> View() == old(if layer.composition.GpuTarget? then View().(fb := 0) else View())
    {
      ghost var was := View();
      display := (0, 0);
      var index;
      ok, index := AcquireToneMapSession(layer);
      if layer.composition == GpuTarget {
        NameFramebuffer(index);
      }
      if ok {
        display := Show(layer, index, i);
      }
    }

    /** The cached framebuffer shown again: no blit, its session only counts as used. */
    method ReuseFramebuffer(i: nat) returns (ghost display: (nat, nat))
      requires Valid() && sessions != [] && fbSessionIndex >= 0
      modifies sessions
      ensures Valid()
      ensures var s := old(View()).sessions[fbSessionIndex];
        && display == (s.id, s.current)
        && View() == old(View()).(
             sessions := old(View()).sessions[fbSessionIndex := s.(layerIndex := i, acquired := true)])
    {
      ghost var was := View();
      var fb := sessions[fbSessionIndex];
      assert fb in sessions && was.sessions[fbSessionIndex] == fb.View();
      display := (fb.id, fb.currentBuffer);
      fb.layerIndex := i;
      fb.acquired := true;
      assert Views(sessions) ==
        was.sessions[fbSessionIndex := was.sessions[fbSessionIndex].(layerIndex := i, acquired := true)];
    }

    /** One turn of HandleToneMap's loop; `go`: on to the next layer. */
    method HandleLayer(layers: seq<Layer>, i: nat, gpuCount: nat, ghost shown: seq<(nat, nat)>)
      returns (go: bool, r: int, gpuCount': nat, ghost shown': seq<(nat, nat)>)
      requires Valid() && i < |layers|
      modifies this, sessions
      ensures Valid() && forall j :: 0 <= j < |sessions| ==> sessions[j] in old(sessions) || fresh(sessions[j])
      ensures var o := old(HandleFrom(View(), layers, i, gpuCount, shown));
        if go then o == HandleFrom(View(), layers, i + 1, gpuCount', shown')
        else View() == o.pool && shown' == o.shown && r == if o.exit.Error? then -1 else 0
      ensures !go && r == -1 ==> sessions == []
    {
      var layer := layers[i];
      gpuCount' := if layer.composition == Gpu then gpuCount + 1 else gpuCount;
      go, r, shown' := true, 0, shown;
      if layer.toneMap {
        ghost var display: (nat, nat);
        if layer.composition == GpuTarget && gpuCount' == 0 && sessions != [] && fbSessionIndex >= 0 {
          display := ReuseFramebuffer(i);
          return false, 0, gpuCount', shown + [display];
        }
        var ok;
        ok, display := ServeLayer(layer, i);
        if !ok {
          Terminate();
          return false, -1, gpuCount', shown;
        }
        shown' := shown + [display];
      }
    }

    method HandleToneMap(layers: seq<Layer>) returns (r: int, ghost shown: seq<(nat, nat)>)
      requires Valid()
      modifies this, sessions
      ensures Valid()
      ensures var o := old(Handle(View(), layers));
        View() == o.pool && shown == o.shown && r == if o.exit.Error? then -1 else 0
      ensures r == -1 ==> sessions == []
    {
      ghost var goal := Handle(View(), layers);
      var gpuCount := 0;
      shown := [];
      for i := 0 to |layers|
        invariant Valid() && forall j :: 0 <= j < |sessions| ==> sessions[j] in old(sessions) || fresh(sessions[j])
        invariant goal == HandleFrom(View(), layers, i, gpuCount, shown)
      {
        var go;
        go, r, gpuCount, shown := HandleLayer(layers, i, gpuCount, shown);
        if !go {
          return;
        }
      }
      r := 0;
    }

    /** One turn of PostCommit's loop. */
    method PassOne(it: nat, fences: seq<Fence>) returns (next: nat)
      requires Valid() && it < |sessions| && CommittableFrom(View(), fences, it)
      modifies this, sessions
      ensures Valid() && (forall j :: 0 <= j < |sessions| ==> sessions[j] in old(sessions))
      ensures it <= next <= |sessions| && |sessions| - next == |old(sessions)| - it - 1
      ensures CommittableFrom(View(), fences, next)
      ensures PassFrom(View(), fences, next) == old(PassFrom(View(), fences, it))
    {
      assert View().sessions[it] == sessions[it].View();
      if sessions[it].acquired {
        Release(it, fences[sessions[it].layerIndex]);
        next := it + 1;
      } else {
        Erase(it);
        next := it;
      }
    }

    method PostCommit(fences: seq<Fence>)
      requires Valid() && Committable(View(), fences)
      modifies this, sessions
      ensures Valid()
      ensures View() == old(ToneMapPool.PostCommit(View(), fences))
    {
      ghost var was := View();
      ghost var owned := set s | s in sessions;
      var it := 0;
      while it < |sessions|
        invariant Valid() && forall j :: 0 <= j < |sessions| ==> sessions[j] in owned
        invariant it <= |sessions| && CommittableFrom(View(), fences, it)
        invariant PassFrom(was, fences, 0) == PassFrom(View(), fences, it)
        decreases |sessions| - it
      {
        it := PassOne(it, fences);
      }
      PassIsPostCommit(was, fences);
    }
  }
}
