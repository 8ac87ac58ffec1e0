/** De-duplication of the panel's configurations and the groups a client may switch in seamlessly. */
module DisplayConfigs {
  import opened KeyOrder

  datatype Info = Info(xPixels: nat, yPixels: nat, hTotal: nat, vTotal: nat, xDpi: real, yDpi: real,
                       isYuv: bool, smartPanel: bool, fps: nat, vsyncPeriod: nat)

  /** DisplayConfigGroupInfo's equality: neither the blanking totals nor the timing count. */
  predicate SameGroup(a: Info, b: Info) {
    && a.xPixels == b.xPixels && a.yPixels == b.yPixels && a.xDpi == b.xDpi && a.yDpi == b.yDpi
    && a.isYuv == b.isYuv && a.smartPanel == b.smartPanel
  }

  /** Nothing but blanking totals and timing tells them apart. */
  predicate Alike(a: Info, b: Info) {
    b == a.(hTotal := b.hTotal, vTotal := b.vTotal, fps := b.fps, vsyncPeriod := b.vsyncPeriod)
  }

  /** The least index from `from` on whose info equals that of `i`. */
  function FirstEqual(infos: seq<Info>, i: nat, from: nat): (r: nat)
    requires from <= i < |infos|
    ensures from <= r <= i && infos[r] == infos[i]
    ensures forall j :: from <= j < r ==> infos[j] != infos[i]
    decreases i - from
  {
    if infos[from] == infos[i] then from else FirstEqual(infos, i, from + 1)
  }

  /** The configuration a client knows panel configuration `i` by. */
  function Rep(infos: seq<Info>, i: nat): (r: nat)
    requires i < |infos|
    ensures r <= i && infos[r] == infos[i]
    ensures forall j :: 0 <= j < r ==> infos[j] != infos[i]
  {
    FirstEqual(infos, i, 0)
  }

  /** Two configurations share a representative exactly when they are equal, and a representative
      represents itself. */
  lemma RepCanonical(infos: seq<Info>, i: nat, j: nat)
    requires i < |infos| && j < |infos|
    ensures Rep(infos, i) == Rep(infos, j) <==> infos[i] == infos[j]
    ensures Rep(infos, Rep(infos, i)) == Rep(infos, i)
  {
    var r, q := Rep(infos, i), Rep(infos, j);
    var rr := Rep(infos, r);
    assert infos[rr] == infos[r] == infos[i];
  }

  /** The configurations published among the first `n`. */
  function Published(infos: seq<Info>, n: nat): (m: map<nat, Info>)
    requires n <= |infos|
    ensures forall i :: i in m <==> 0 <= i < n && Rep(infos, i) == i
    ensures forall i :: i in m ==> m[i] == infos[i]
  {
    map i | 0 <= i < n && Rep(infos, i) == i :: infos[i]
  }

  /** No two published configurations are equal, and each panel configuration is published under its
      representative. */
  lemma PublishedDistinct(infos: seq<Info>, i: nat, j: nat)
    requires i < |infos| && j < |infos|
    ensures var m := Published(infos, |infos|);
      && (i in m && j in m && m[i] == m[j] ==> i == j)
      && Rep(infos, i) in m && m[Rep(infos, i)] == infos[i]
  {
    RepCanonical(infos, i, j);
  }

  lemma PublishedStep(infos: seq<Info>, n: nat)
    requires n < |infos|
    ensures Published(infos, n + 1) ==
      if Rep(infos, n) == n then Published(infos, n)[n := infos[n]] else Published(infos, n)
  {
  }

  /** The different infos among the first `n`. */
  function Different(infos: seq<Info>, n: nat): set<Info>
    requires n <= |infos|
  {
    if n == 0 then {} else Different(infos, n - 1) + {infos[n - 1]}
  }

  lemma {:induction false} DifferentMeans(infos: seq<Info>, n: nat, info: Info)
    requires n <= |infos|
    ensures info in Different(infos, n) <==> exists i :: 0 <= i < n && infos[i] == info
    decreases n
  {
    if n == 0 {
    } else {
      DifferentMeans(infos, n - 1, info);
    }
  }

  /** How many of the first `n` are not seen before. */
  function Firsts(infos: seq<Info>, n: nat): nat
    requires n <= |infos|
  {
    if n == 0 then 0 else Firsts(infos, n - 1) + (if Rep(infos, n - 1) == n - 1 then 1 else 0)
  }

  lemma SeenBefore(infos: seq<Info>, n: nat)
    requires n < |infos|
    ensures infos[n] in Different(infos, n) <==> Rep(infos, n) != n
  {
    var r := Rep(infos, n);
    DifferentMeans(infos, n, infos[n]);
    assert r < n ==> infos[r] == infos[n];
  }

  lemma {:induction false} DifferentCount(infos: seq<Info>, n: nat)
    requires n <= |infos|
    ensures |Different(infos, n)| == Firsts(infos, n)
    decreases n
  {
    if n == 0 {
    } else {
      DifferentCount(infos, n - 1);
      SeenBefore(infos, n - 1);
    }
  }

  lemma {:induction false} FirstsCount(infos: seq<Info>, n: nat)
    requires n <= |infos|
    ensures |Published(infos, n)| == Firsts(infos, n)
    decreases n
  {
    if n == 0 {
      NonePublished(infos);
    } else {
      FirstsCount(infos, n - 1);
      FirstsStep(infos, n - 1);
    }
  }

  lemma NonePublished(infos: seq<Info>)
    ensures |Published(infos, 0)| == 0
  {
    assert Published(infos, 0) == map[];
  }

  lemma FirstsStep(infos: seq<Info>, n: nat)
    requires n < |infos|
    ensures |Published(infos, n + 1)| == |Published(infos, n)| + (if Rep(infos, n) == n then 1 else 0)
  {
    PublishedStep(infos, n);
    var before := Published(infos, n);
    assert n !in before;
    assert Published(infos, n + 1).Keys == before.Keys + (if Rep(infos, n) == n then {n} else {});
  }

  /** As many configurations are published as the panel has different ones. */
  lemma PublishedCount(infos: seq<Info>)
    ensures |Published(infos, |infos|)| == |Different(infos, |infos|)|
  {
    FirstsCount(infos, |infos|);
    DifferentCount(infos, |infos|);
  }

  /** First key among `keys` satisfying the group test, or -1. */
  function GroupFrom(configs: map<nat, Info>, keys: set<nat>, info: Info): (g: int)
    requires keys <= configs.Keys
    ensures g == -1 || (g >= 0 && g in keys && SameGroup(configs[g], info))
    ensures g == -1 ==> forall k :: k in keys ==> !SameGroup(configs[k], info)
    ensures g >= 0 ==> forall k :: k in keys && SameGroup(configs[k], info) ==> g <= k
  {
    if keys == {} then -1
    else
      var k := Least(keys);
      if SameGroup(configs[k], info) then k else GroupFrom(configs, keys - {k}, info)
  }

  /** GetDisplayConfigGroup. */
  function Group(configs: map<nat, Info>, info: Info): (g: int)
    ensures g == -1 <==> forall k :: k in configs ==> !SameGroup(configs[k], info)
    ensures g != -1 ==> g >= 0 && g in configs && SameGroup(configs[g], info)
  {
    GroupFrom(configs, configs.Keys, info)
  }

  predicate IsSameGroup(configs: map<nat, Info>, a: nat, b: nat) {
    a in configs && b in configs && SameGroup(configs[a], configs[b])
  }

  /** Published configurations carry the same group id exactly when switching between them is treated as
      staying in the group. */
  lemma GroupIdIff(configs: map<nat, Info>, a: nat, b: nat)
    requires a in configs && b in configs
    ensures Group(configs, configs[a]) == Group(configs, configs[b]) <==> IsSameGroup(configs, a, b)
    ensures var x, y := configs[a], configs[b];
      IsSameGroup(configs, a, b) <==>
        && x.xPixels == y.xPixels && x.yPixels == y.yPixels && x.xDpi == y.xDpi && x.yDpi == y.yDpi
        && x.isYuv == y.isYuv && x.smartPanel == y.smartPanel
  {
    var g, h := Group(configs, configs[a]), Group(configs, configs[b]);
    if SameGroup(configs[a], configs[b]) {
      assert SameGroup(configs[g], configs[b]) && SameGroup(configs[h], configs[a]);
    }
  }

  const UINT32_LIMIT: nat := 0x1_0000_0000

  datatype Attribute = Value(value: int) | BadConfig | BadDisplay

  /** Subtraction in 32 bits. */
  function Less(pixels: nat, margin: nat): nat
    requires pixels < UINT32_LIMIT
  {
    (pixels + UINT32_LIMIT - margin % UINT32_LIMIT) % UINT32_LIMIT
  }

  /** The info GetDisplayAttribute asks the group of: the window margins taken off. */
  function Windowed(info: Info, dx: nat, dy: nat): Info
    requires info.xPixels < UINT32_LIMIT && info.yPixels < UINT32_LIMIT
  {
    info.(xPixels := Less(info.xPixels, dx), yPixels := Less(info.yPixels, dy))
  }

  predicate Panels(configs: map<nat, Info>) {
    forall a :: a in configs ==> configs[a].xPixels < UINT32_LIMIT && configs[a].yPixels < UINT32_LIMIT
  }

  /** GetDisplayAttribute for CONFIG_GROUP. */
  function GroupAttribute(configs: map<nat, Info>, config: nat, dx: nat, dy: nat): Attribute
    requires Panels(configs)
  {
    if config !in configs then BadConfig
    else
      var w := Windowed(configs[config], dx, dy);
      if w.xPixels == 0 || w.yPixels == 0 then BadDisplay else Value(Group(configs, w))
  }

  /** The group attribute agrees with the group in the configuration list exactly when there are no window
      margins and the panel has pixels at all; with margins as large as the panel there is no attribute. */
  lemma AttributeGroupIff(configs: map<nat, Info>, a: nat, dx: nat, dy: nat)
    requires Panels(configs) && a in configs
    ensures var panel, got := configs[a], GroupAttribute(configs, a, dx, dy);
      && (got == Value(Group(configs, panel)) <==>
          dx % UINT32_LIMIT == 0 && dy % UINT32_LIMIT == 0 && panel.xPixels != 0 && panel.yPixels != 0)
      && (got == BadDisplay <==> dx % UINT32_LIMIT == panel.xPixels || dy % UINT32_LIMIT == panel.yPixels)
  {
    var w := Windowed(configs[a], dx, dy);
    var g := Group(configs, configs[a]);
    assert g != -1 && SameGroup(configs[g], configs[a]);
    assert dx % UINT32_LIMIT == 0 && dy % UINT32_LIMIT == 0 ==> w == configs[a];
    assert Group(configs, w) == g ==> SameGroup(configs[g], w);
  }

  /** One configuration on a panel with a margin of ten pixels: listed in its own group, reported in none. */
  lemma MarginHidesGroup()
    ensures var configs := map[0 := Info(1920, 1080, 2000, 1100, 400.0, 400.0, false, true, 60, 16666666)];
      Group(configs, configs[0]) == 0 && GroupAttribute(configs, 0, 10, 0) == Value(-1)
  {
    var info := Info(1920, 1080, 2000, 1100, 400.0, 400.0, false, true, 60, 16666666);
    assert SameGroup(info, info);
    assert Less(1920, 10) == 1910 && Less(1080, 0) == 1080;
  }

  class HWCDisplay {
    var variableConfigMap: map<nat, Info>   // variable_config_map_
    var hwcConfigMap: seq<nat>              // hwc_config_map_
    var numConfigs: nat
    var activeConfigIndex: int
    var pendingConfig: bool
    var pendingConfigIndex: nat
    ghost var infos: seq<Info>              // what the panel reported

    /** The tables stand for the reported configurations. */
    ghost predicate Valid()
      reads this`variableConfigMap, this`hwcConfigMap, this`infos
    {
      && |hwcConfigMap| == |infos| && (forall i :: 0 <= i < |infos| ==> hwcConfigMap[i] == Rep(infos, i))
      && variableConfigMap == Published(infos, |infos|)
    }

    constructor (pendingConfig: bool, pendingConfigIndex: nat)
      ensures variableConfigMap == map[] && hwcConfigMap == [] && Valid()
      ensures this.pendingConfig == pendingConfig && this.pendingConfigIndex == pendingConfigIndex
    {
      variableConfigMap, hwcConfigMap, infos := map[], [], [];
      numConfigs, activeConfigIndex := 0, -1;
      this.pendingConfig, this.pendingConfigIndex := pendingConfig, pendingConfigIndex;
      new;
      assert Published([], 0) == map[];
    }

    /** The scan of variable_config_map_ for an equal configuration. */
    method FindConfig(info: Info) returns (found: bool, config: nat)
      ensures found ==> config in variableConfigMap && variableConfigMap[config] == info
      ensures !found ==> forall k :: k in variableConfigMap ==> variableConfigMap[k] != info
    {
      found, config := false, 0;
      var keys := variableConfigMap.Keys;
      while keys != {}
        invariant keys <= variableConfigMap.Keys
        invariant forall k :: k in variableConfigMap && k !in keys ==> variableConfigMap[k] != info
      {
        var k := Least(keys);
        if variableConfigMap[k] == info {
          return true, k;
        }
        keys := keys - {k};
      }
    }

    /** One turn of UpdateConfigs' loop. */
    method AddConfig(i: nat, info: Info)
      requires i < |infos| && info == infos[i] && |hwcConfigMap| == i && variableConfigMap == Published(infos, i)
      modifies this`variableConfigMap, this`hwcConfigMap
      ensures hwcConfigMap == old(hwcConfigMap) + [Rep(infos, i)]
      ensures variableConfigMap == Published(infos, i + 1)
    {
      var configExists, config := FindConfig(info);
      PublishedStep(infos, i);
      if configExists {
        RepCanonical(infos, config, i);
        hwcConfigMap := hwcConfigMap + [config];
      } else {
        RepCanonical(infos, Rep(infos, i), i);
        variableConfigMap := variableConfigMap[i := info];
        hwcConfigMap := hwcConfigMap + [i];
      }
    }

    method AddConfigs(reported: seq<Info>)
      requires variableConfigMap == map[] && hwcConfigMap == [] && infos == reported
      modifies this`variableConfigMap, this`hwcConfigMap
      ensures Valid()
    {
      assert Published(infos, 0) == map[];
      for i := 0 to |reported|
        invariant |hwcConfigMap| == i && variableConfigMap == Published(infos, i)
        invariant forall k :: 0 <= k < i ==> hwcConfigMap[k] == Rep(infos, k)
      {
        AddConfig(i, reported[i]);
      }
    }

    /** UpdateConfigs, called once on a display that knows no configuration yet; `driver` is what
        GetActiveDisplayConfig reports. */
    method UpdateConfigs(reported: seq<Info>, driver: nat)
      requires variableConfigMap == map[] && hwcConfigMap == []
      modifies this`variableConfigMap, this`hwcConfigMap, this`numConfigs, this`activeConfigIndex, this`infos
      ensures Valid() && infos == reported
      ensures numConfigs == |Different(reported, |reported|)|
      ensures reported != [] ==> activeConfigIndex == Canonical(if pendingConfig then pendingConfigIndex else driver)
    {
      infos := reported;
      AddConfigs(reported);
      CountConfigs();
      if |reported| != 0 {
        CacheActiveConfig(driver);
      }
    }

    method CountConfigs()
      requires Valid()
      modifies this`numConfigs
      ensures numConfigs == |Different(infos, |infos|)|
    {
      PublishedCount(infos);
      numConfigs := |variableConfigMap|;
    }

    method CacheActiveConfig(driver: nat)
      modifies this`activeConfigIndex
      ensures activeConfigIndex == Canonical(if pendingConfig then pendingConfigIndex else driver)
    {
      var active := GetActiveConfig(driver);
      activeConfigIndex := active;
    }

    function Canonical(config: nat): nat
      reads this`hwcConfigMap
    {
      if config < |hwcConfigMap| then hwcConfigMap[config] else config
    }

    method GetActiveConfig(driver: nat) returns (config: nat)
      ensures config == Canonical(if pendingConfig then pendingConfigIndex else driver)
      ensures var asked := if pendingConfig then pendingConfigIndex else driver;
        config == if asked < |hwcConfigMap| then hwcConfigMap[asked] else asked
    {
      config := if pendingConfig then pendingConfigIndex else driver;
      if config < |hwcConfigMap| {
        config := hwcConfigMap[config];
      }
    }

    method GetCachedActiveConfig(driver: nat) returns (config: nat)
      ensures config == CachedActive(driver)
      ensures 0 <= activeConfigIndex < |hwcConfigMap| ==> config == hwcConfigMap[activeConfigIndex]
    {
      if activeConfigIndex < 0 || activeConfigIndex >= |hwcConfigMap| {
        config := GetActiveConfig(driver);
      } else {
        config := hwcConfigMap[activeConfigIndex];
      }
    }

    function CachedActive(driver: nat): nat
      reads this
    {
      if 0 <= activeConfigIndex < |hwcConfigMap| then hwcConfigMap[activeConfigIndex]
      else Canonical(if pendingConfig then pendingConfigIndex else driver)
    }

    /** A panel configuration reported active is answered by a published one with the very same info. */
    lemma ActiveIsPublished(config: nat)
      requires Valid() && config < |infos|
      ensures Canonical(config) in variableConfigMap && variableConfigMap[Canonical(config)] == infos[config]
      ensures Canonical(Canonical(config)) == Canonical(config)
    {
      RepCanonical(infos, config, config);
    }

    method GetDisplayConfigGroup(info: Info) returns (group: int)
      ensures group == Group(variableConfigMap, info)
      ensures group != -1 ==> group >= 0 && group in variableConfigMap && Alike(variableConfigMap[group], info)
      ensures forall k :: k in variableConfigMap && Alike(variableConfigMap[k], info) ==> 0 <= group <= k
    {
      var keys := variableConfigMap.Keys;
      while keys != {}
        invariant keys <= variableConfigMap.Keys
        invariant Group(variableConfigMap, info) == GroupFrom(variableConfigMap, keys, info)
      {
        var k := Least(keys);
        if SameGroup(variableConfigMap[k], info) {
          return k;
        }
        keys := keys - {k};
      }
      group := -1;
    }

    /** GetDisplayAttribute for CONFIG_GROUP; `dx` and `dy` are the window margins. */
    method GetConfigGroupAttribute(config: nat, dx: nat, dy: nat) returns (attribute: Attribute)
      requires Panels(variableConfigMap)
      ensures attribute == GroupAttribute(variableConfigMap, config, dx, dy)
      ensures attribute == BadConfig <==> config !in variableConfigMap
    {
      if config !in variableConfigMap {
        return BadConfig;
      }
      var info := variableConfigMap[config];
      var x, y := Less(info.xPixels, dx), Less(info.yPixels, dy);
      if x == 0 || y == 0 {
        return BadDisplay;
      }
      var group := GetDisplayConfigGroup(info.(xPixels := x, yPixels := y));
      attribute := Value(group);
    }

    /** A switch is allowed seamlessly exactly to the published configurations that were reported with the
        group id of the active one. */
    method AllowSeamless(config: nat, driver: nat) returns (allowed: bool)
      ensures allowed == (CachedActive(driver) in variableConfigMap && config in variableConfigMap &&
                          Group(variableConfigMap, variableConfigMap[CachedActive(driver)]) ==
                          Group(variableConfigMap, variableConfigMap[config]))
      ensures allowed <==>
        && CachedActive(driver) in variableConfigMap && config in variableConfigMap
        && var x, y := variableConfigMap[CachedActive(driver)], variableConfigMap[config];
           y == x.(hTotal := y.hTotal, vTotal := y.vTotal, fps := y.fps, vsyncPeriod := y.vsyncPeriod)
    {
      var active := GetCachedActiveConfig(driver);
      allowed := IsSameGroup(variableConfigMap, active, config);
      if active in variableConfigMap && config in variableConfigMap {
        GroupIdIff(variableConfigMap, active, config);
      }
    }
  }
}
