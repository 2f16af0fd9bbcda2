/** A service turned into a swarm specification and read back (container_manager/service.go). */
module ServiceSpecs {
  import opened Wrappers
  import opened Text

  datatype VolumeMount = VolumeMount(source: string, target: string, readOnly: bool)

  datatype VolumeBind = VolumeBind(source: string, target: string)

  datatype ConfigMount = ConfigMount(configId: string, uid: nat, gid: nat, fileMode: nat, mountingPath: string)

  datatype Service = Service(
    name: string, image: string, command: seq<string>, env: map<string, string>, networks: seq<string>,
    volumeMounts: seq<VolumeMount>, volumeBinds: seq<VolumeBind>, configMounts: seq<ConfigMount>,
    placementConstraints: seq<string>, deploymentMode: string, replicas: nat, reservedMB: int, limitMB: int)

  datatype MountType = VolumeType | BindType | OtherType

  datatype Mount = Mount(mountType: MountType, source: string, target: string, readOnly: bool)

  datatype ConfigReference = ConfigReference(configName: string, configId: string, path: string, uid: nat, gid: nat,
      mode: nat)

  datatype ServiceMode = Replicated(replicas: nat) | Global | OtherMode

  datatype Spec = Spec(
    name: string, image: string, command: seq<string>, env: seq<string>, mounts: seq<Mount>,
    configs: seq<ConfigReference>,
    placement: Option<seq<string>>, networks: seq<string>, mode: ServiceMode, reservedBytes: Option<int>,
    limitBytes: Option<int>)

  datatype Error = InvalidDeploymentMode | NoSuchConfig

  const REPLICATED := "replicated"
  const GLOBAL := "global"

  // ------------------------------------------------------------------
  // Memory in 64 bits
  // ------------------------------------------------------------------

  const MB := 0x100000
  const TWO_63 := 0x8000_0000_0000_0000
  const TWO_43 := 0x800_0000_0000

  /** A product in 64-bit two's complement. */
  function Wrap64(x: int): int { (x + TWO_63) % (2 * TWO_63) - TWO_63 }

  /** Division that truncates toward zero. */
  function Quotient(x: int, d: int): int
    requires d > 0
  {
    if x >= 0 then x / d else -(-x / d)
  }

  function MemoryBytes(mb: int): int { if mb >= 6 then Wrap64(mb * MB) else 0 }

  function MemoryMB(bytes: int): int { Quotient(Quotient(bytes, 1024), 1024) }

  lemma WrapOfMegabytes(mb: int)
    ensures Wrap64(mb * MB) == ((mb + TWO_43) % (2 * TWO_43) - TWO_43) * MB
  {
    var q, r := (mb + TWO_43) / (2 * TWO_43), (mb + TWO_43) % (2 * TWO_43);
    var x := mb * MB + TWO_63;
    assert x == q * 0x1_0000_0000_0000_0000 + r * 0x100000 && 0 <= r < 0x1000_0000_0000;
    assert x / 0x1_0000_0000_0000_0000 == q;
  }

  lemma MegabytesBack(mb: int)
    ensures MemoryMB(mb * MB) == mb
  {
    if mb >= 0 {
      assert mb * MB / 1024 == mb * 1024;
    } else {
      assert -(mb * MB) / 1024 == -mb * 1024;
    }
  }

  /** A memory setting survives exactly when it is 0, or at least 6 MB and its bytes fit. */
  lemma MemoryRoundTrip(mb: int)
    ensures MemoryMB(MemoryBytes(mb)) == mb <==> mb == 0 || 6 <= mb < TWO_43
  {
    if mb >= 6 {
      WrapOfMegabytes(mb);
      MegabytesBack((mb + TWO_43) % (2 * TWO_43) - TWO_43);
    }
  }

  // ------------------------------------------------------------------
  // Environment variables
  // ------------------------------------------------------------------

  predicate IsEq(c: char) { c == '=' }

  /** strings.SplitN(entry, "=", 2) */
  function KeyOf(entry: string): string { entry[..WordLength(entry, IsEq)] }

  function ValueOf(entry: string): string {
    var k := WordLength(entry, IsEq);
    if k < |entry| then entry[k + 1..] else ""
  }

  /** The map that reading the entries gives: later entries win. */
  function ReadEnv(entries: seq<string>): map<string, string> {
    if entries == [] then map[]
    else
      var last := entries[|entries| - 1];
      ReadEnv(entries[..|entries| - 1])[KeyOf(last) := ValueOf(last)]
  }

  /** The entries of a map, its keys in the order of `keys`. */
  ghost predicate Lists(env: map<string, string>, keys: seq<string>, entries: seq<string>) {
    && |entries| == |keys|
    && (forall i, j :: 0 <= i < j < |keys| ==> keys[i] != keys[j])
    && (forall i :: 0 <= i < |keys| ==> keys[i] in env && entries[i] == keys[i] + "=" + env[keys[i]])
    && (forall k :: k in env ==> k in keys)
  }

  lemma EntryParts(key: string, value: string)
    requires '=' !in key
    ensures KeyOf(key + "=" + value) == key && ValueOf(key + "=" + value) == value
  {
    assert key + "=" + value == key + ("=" + value);
    WordLengthOfPrefix(key, "=" + value, IsEq);
  }

  lemma {:induction false} ReadEnvKeys(entries: seq<string>)
    ensures forall k :: k in ReadEnv(entries) ==> '=' !in k
  {
    if entries != [] {
      ReadEnvKeys(entries[..|entries| - 1]);
      var last := entries[|entries| - 1];
      assert forall c :: c in KeyOf(last) ==> !IsEq(c);
    }
  }

  lemma {:induction false} ReadsListed(env: map<string, string>, keys: seq<string>, entries: seq<string>)
    requires |entries| == |keys| && forall k :: k in env ==> '=' !in k
    requires forall i :: 0 <= i < |keys| ==> keys[i] in env && entries[i] == keys[i] + "=" + env[keys[i]]
    ensures forall k :: k in ReadEnv(entries) <==> k in keys
    ensures forall k :: k in ReadEnv(entries) ==> k in env && ReadEnv(entries)[k] == env[k]
  {
    if entries != [] {
      var n := |keys| - 1;
      var key := keys[n];
      EntryParts(key, env[key]);
      assert entries[n] == key + "=" + env[key];
      assert ReadEnv(entries) == ReadEnv(entries[..n])[key := env[key]];
      ReadsListed(env, keys[..n], entries[..n]);
      hide ReadEnv, KeyOf, ValueOf;
      assert keys == keys[..n] + [key];
    }
  }

  /** The variables come back exactly when no name contains an equals sign, in whatever order the map
      was visited. */
  lemma EnvRoundTrip(env: map<string, string>, keys: seq<string>, entries: seq<string>)
    requires Lists(env, keys, entries)
    ensures ReadEnv(entries) == env <==> forall k :: k in env ==> '=' !in k
  {
    ReadEnvKeys(entries);
    if forall k :: k in env ==> '=' !in k {
      ReadsListed(env, keys, entries);
      hide ReadEnv;
      assert env.Keys == ReadEnv(entries).Keys;
    }
  }

  // ------------------------------------------------------------------
  // Mounts
  // ------------------------------------------------------------------

  function MountOf(v: VolumeMount): Mount { Mount(VolumeType, v.source, v.target, v.readOnly) }

  function MountOfBind(b: VolumeBind): Mount { Mount(BindType, b.source, b.target, false) }

  function VolumesIn(mounts: seq<Mount>): seq<VolumeMount> {
    if mounts == [] then []
    else
      var last := mounts[|mounts| - 1];
      VolumesIn(mounts[..|mounts| - 1]) +
      if last.mountType == VolumeType then [VolumeMount(last.source, last.target, last.readOnly)] else []
  }

  function BindsIn(mounts: seq<Mount>): seq<VolumeBind> {
    if mounts == [] then []
    else
      var last := mounts[|mounts| - 1];
      BindsIn(mounts[..|mounts| - 1]) +
      if last.mountType == BindType then [VolumeBind(last.source, last.target)] else []
  }

  /** The volumes first, then the binds. */
  ghost predicate MountsAre(mounts: seq<Mount>, volumes: seq<VolumeMount>, binds: seq<VolumeBind>) {
    && |mounts| == |volumes| + |binds|
    && (forall i :: 0 <= i < |volumes| ==> mounts[i] == MountOf(volumes[i]))
    && (forall i :: 0 <= i < |binds| ==> mounts[|volumes| + i] == MountOfBind(binds[i]))
  }

  lemma {:induction false} VolumesRoundTrip(mounts: seq<Mount>, volumes: seq<VolumeMount>)
    requires MountsAre(mounts, volumes, [])
    ensures VolumesIn(mounts) == volumes && BindsIn(mounts) == []
  {
    if mounts != [] {
      var n := |mounts| - 1;
      assert mounts[n] == MountOf(volumes[n]);
      VolumesRoundTrip(mounts[..n], volumes[..n]);
      assert volumes == volumes[..n] + [volumes[n]];
    }
  }

  lemma {:induction false} MountsRoundTrip(mounts: seq<Mount>, volumes: seq<VolumeMount>, binds: seq<VolumeBind>)
    requires MountsAre(mounts, volumes, binds)
    ensures VolumesIn(mounts) == volumes && BindsIn(mounts) == binds
  {
    if binds == [] {
      VolumesRoundTrip(mounts, volumes);
    } else {
      var n, b := |mounts| - 1, |binds| - 1;
      assert mounts[n] == MountOfBind(binds[b]);
      assert MountsAre(mounts[..n], volumes, binds[..b]);
      hide MountsAre;
      MountsRoundTrip(mounts[..n], volumes, binds[..b]);
      assert binds == binds[..b] + [binds[b]];
    }
  }

  // ------------------------------------------------------------------
  // The whole service
  // ------------------------------------------------------------------

  /** What serviceToServiceSpec builds, with the names visited in the order of `keys`. */
  ghost predicate Built(s: Service, spec: Spec, keys: seq<string>, configIds: string -> Option<string>) {
    && spec.name == s.name && spec.image == s.image && spec.command == s.command && spec.networks == s.networks
    && Lists(s.env, keys, spec.env)
    && MountsAre(spec.mounts, s.volumeMounts, s.volumeBinds)
    && |spec.configs| == |s.configMounts|
    && (forall i :: 0 <= i < |spec.configs| ==>
          var c := s.configMounts[i];
          configIds(c.configId).Some? &&
              spec.configs[i] == ConfigReference(c.configId, configIds(c.configId).value, c.mountingPath, c.uid, c.gid,
                  c.fileMode))
    && spec.placement == Some(s.placementConstraints)
    && (s.deploymentMode == REPLICATED ==> spec.mode == Replicated(s.replicas))
    && (s.deploymentMode == GLOBAL ==> spec.mode == Global)
    && (s.deploymentMode == REPLICATED || s.deploymentMode == GLOBAL)
    && spec.reservedBytes == Some(MemoryBytes(s.reservedMB)) && spec.limitBytes == Some(MemoryBytes(s.limitMB))
  }

  /** What GetService makes of a specification; config mounts are not read back. */
  function ReadBack(spec: Spec): Service {
    Service(
      spec.name, spec.image, spec.command, ReadEnv(spec.env), spec.networks,
      VolumesIn(spec.mounts), BindsIn(spec.mounts), [],
      if spec.placement.Some? then spec.placement.value else [],
      if spec.mode.Replicated? then REPLICATED else GLOBAL,
      if spec.mode.Replicated? then spec.mode.replicas else 0,
      if spec.reservedBytes.Some? then MemoryMB(spec.reservedBytes.value) else 0,
      if spec.limitBytes.Some? then MemoryMB(spec.limitBytes.value) else 0)
  }

  predicate MemoryFits(mb: int) { mb == 0 || 6 <= mb < TWO_43 }

  /** Reading a built specification restores the service, config mounts aside, exactly when the names
      have no equals sign, the replica count belongs to a replicated service or is 0, and the memory
      settings fit; this does not depend on the order in which the names were visited. */
  lemma ServiceRoundTrip(s: Service, spec: Spec, keys: seq<string>, configIds: string -> Option<string>)
    requires Built(s, spec, keys, configIds)
    ensures ReadBack(spec) == s.(configMounts := [])
            <==> (forall k :: k in s.env ==> '=' !in k) && (s.deploymentMode == REPLICATED || s.replicas == 0)
                 && MemoryFits(s.reservedMB) && MemoryFits(s.limitMB)
    // Everything else is restored whatever these are.
    ensures ReadBack(spec).(env := s.env, replicas := s.replicas, reservedMB := s.reservedMB, limitMB := s.limitMB) ==
            s.(configMounts := [])
  {
    EnvRoundTrip(s.env, keys, spec.env);
    MountsRoundTrip(spec.mounts, s.volumeMounts, s.volumeBinds);
    MemoryRoundTrip(s.reservedMB);
    MemoryRoundTrip(s.limitMB);
    hide Lists, MountsAre, ReadEnv, VolumesIn, BindsIn, MemoryMB, MemoryBytes;
  }

  // ------------------------------------------------------------------
  // The loops
  // ------------------------------------------------------------------

  /** `configIds` answers what the daemon knows about config names. */
  method ServiceToServiceSpec(s: Service, configIds: string -> Option<string>)
    returns (r: Result<Spec, Error>, ghost keys: seq<string>)
    ensures r.Ok? <==>
              (s.deploymentMode == REPLICATED || s.deploymentMode == GLOBAL) &&
              forall c :: c in s.configMounts ==> configIds(c.configId).Some?
    ensures r.Ok? ==> Built(s, r.value, keys, configIds)
  {
    keys := [];
    var networks := [];
    for i := 0 to |s.networks|
      invariant networks == s.networks[..i]
    {
      networks := networks + [s.networks[i]];
    }
    var mounts := BuildMounts(s.volumeMounts, s.volumeBinds);
    var env;
    env, keys := BuildEnv(s.env);
    if s.deploymentMode != REPLICATED && s.deploymentMode != GLOBAL {
      return Err(InvalidDeploymentMode), keys;
    }
    var mode := if s.deploymentMode == REPLICATED then Replicated(s.replicas) else Global;
    var configs := [];
    for i := 0 to |s.configMounts|
      invariant |configs| == i && forall k :: 0 <= k < i ==> configIds(s.configMounts[k].configId).Some?
      invariant forall k :: 0 <= k < i ==>
                  var c := s.configMounts[k];
                  configs[k] == ConfigReference(c.configId, configIds(c.configId).value, c.mountingPath, c.uid, c.gid,
                      c.fileMode)
    {
      var c := s.configMounts[i];
      if configIds(c.configId) == None {
        return Err(NoSuchConfig), keys;
      }
      configs := configs + [ConfigReference(c.configId, configIds(c.configId).value, c.mountingPath, c.uid, c.gid,
          c.fileMode)];
    }
    hide Lists, MountsAre, MemoryBytes;
    return Ok(Spec(s.name, s.image, s.command, env, mounts, configs, Some(s.placementConstraints), networks, mode,
                   Some(MemoryBytes(s.reservedMB)), Some(MemoryBytes(s.limitMB)))), keys;
  }

  method BuildMounts(volumes: seq<VolumeMount>, binds: seq<VolumeBind>) returns (mounts: seq<Mount>)
    ensures MountsAre(mounts, volumes, binds)
  {
    mounts := [];
    for i := 0 to |volumes|
      invariant MountsAre(mounts, volumes[..i], [])
    {
      mounts := mounts + [Mount(VolumeType, volumes[i].source, volumes[i].target, volumes[i].readOnly)];
    }
    assert volumes[..|volumes|] == volumes;
    for i := 0 to |binds|
      invariant MountsAre(mounts, volumes, binds[..i])
    {
      mounts := mounts + [Mount(BindType, binds[i].source, binds[i].target, false)];
    }
    assert binds[..|binds|] == binds;
  }

  /** The names are visited in any order. */
  method BuildEnv(env: map<string, string>) returns (entries: seq<string>, ghost keys: seq<string>)
    ensures Lists(env, keys, entries)
  {
    entries, keys := [], [];
    var remaining := env.Keys;
    while remaining != {}
      invariant remaining <= env.Keys && |entries| == |keys|
      invariant forall k :: k in keys <==> k in env && k !in remaining
      invariant forall i, j :: 0 <= i < j < |keys| ==> keys[i] != keys[j]
      invariant forall i :: 0 <= i < |keys| ==> keys[i] in env && entries[i] == keys[i] + "=" + env[keys[i]]
    {
      var key :| key in remaining;
      remaining := remaining - {key};
      entries, keys := entries + [key + "=" + env[key]], keys + [key];
    }
  }

  method GetService(spec: Spec) returns (s: Service)
    ensures s == ReadBack(spec)
  {
    var env := ReadEnvEntries(spec.env);
    var volumes, binds := ReadMounts(spec.mounts);
    var constraints := if spec.placement.Some? then spec.placement.value else [];
    var networks := [];
    for i := 0 to |spec.networks|
      invariant networks == spec.networks[..i]
    {
      networks := networks + [spec.networks[i]];
    }
    var replicas, deploymentMode := 0, GLOBAL;
    if spec.mode.Replicated? {
      replicas, deploymentMode := spec.mode.replicas, REPLICATED;
    }
    var limit, reserved := 0, 0;
    if spec.limitBytes.Some? {
      limit := MemoryMB(spec.limitBytes.value);
    }
    if spec.reservedBytes.Some? {
      reserved := MemoryMB(spec.reservedBytes.value);
    }
    return Service(spec.name, spec.image, spec.command, env, networks, volumes, binds, [], constraints, deploymentMode,
        replicas, reserved, limit);
  }

  method ReadEnvEntries(entries: seq<string>) returns (env: map<string, string>)
    ensures env == ReadEnv(entries)
  {
    env := map[];
    for i := 0 to |entries|
      invariant env == ReadEnv(entries[..i])
    {
      var entry := entries[i];
      var k := WordLength(entry, IsEq);
      assert entries[..i + 1][..i] == entries[..i];
      if k < |entry| {
        env := env[entry[..k] := entry[k + 1..]];
      } else {
        assert entry[..k] == entry;
        env := env[entry := ""];
      }
    }
    assert entries[..|entries|] == entries;
  }

  method ReadMounts(mounts: seq<Mount>) returns (volumes: seq<VolumeMount>, binds: seq<VolumeBind>)
    ensures volumes == VolumesIn(mounts) && binds == BindsIn(mounts)
  {
    volumes, binds := [], [];
    for i := 0 to |mounts|
      invariant volumes == VolumesIn(mounts[..i]) && binds == BindsIn(mounts[..i])
    {
      var m := mounts[i];
      assert mounts[..i + 1][..i] == mounts[..i];
      if m.mountType == VolumeType {
        volumes := volumes + [VolumeMount(m.source, m.target, m.readOnly)];
      }
      if m.mountType == BindType {
        binds := binds + [VolumeBind(m.source, m.target)];
      }
    }
    assert mounts[..|mounts|] == mounts;
  }
}
