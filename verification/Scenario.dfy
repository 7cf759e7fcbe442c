/** The part of a scenario that templates copy. Settings that are carried over untouched are kept
    as opaque maps from field name to JSON text. */
module Scenario {
  import opened Wrappers

  type Settings = map<string, string>

  /** A record with an id of its own inside an item: a noise entry or a waypoint. */
  datatype Entry = Entry(id: string, values: Settings)

  datatype AssetKind = WaveformKind | TimingKind | AntennaKind

  /** A waveform, timing source or antenna; only timing sources have noise entries. */
  datatype Asset = Asset(id: string, name: string, settings: Settings, noiseEntries: seq<Entry>)

  /** The references a component holds by id. */
  datatype Refs = Refs(antennaId: Option<string>, timingId: Option<string>, waveformId: Option<string>)

  /** The references a receiver's dechirp configuration holds by name. */
  datatype Dechirp = Dechirp(transmitterName: Option<string>, waveformName: Option<string>)

  datatype Component =
    | Monostatic(id: string, txId: string, rxId: string, name: string, refs: Refs, dechirp: Dechirp, settings: Settings)
    | Transmitter(id: string, name: string, refs: Refs, settings: Settings)
    | Receiver(id: string, name: string, antennaId: Option<string>, timingId: Option<string>, dechirp: Dechirp,
               settings: Settings)
    | Target(id: string, name: string, settings: Settings)

  datatype Rotation = Fixed(settings: Settings) | Path(interpolation: string, waypoints: seq<Entry>)

  /** `pathPoints` and `rotationPathPoints` are caches the interface adds at run time. */
  datatype Platform = Platform(
    id: string, name: string, interpolation: string, waypoints: seq<Entry>, rotation: Rotation,
    components: seq<Component>, pathPoints: Option<seq<Settings>>, rotationPathPoints: Option<seq<Settings>>)

  datatype ScenarioData = ScenarioData(
    globals: Settings, waveforms: seq<Asset>, timings: seq<Asset>, antennas: seq<Asset>, platforms: seq<Platform>)
  {
    function Assets(k: AssetKind): seq<Asset> {
      match k
      case WaveformKind => waveforms
      case TimingKind => timings
      case AntennaKind => antennas
    }

    function PushAsset(k: AssetKind, a: Asset): ScenarioData {
      match k
      case WaveformKind => this.(waveforms := waveforms + [a])
      case TimingKind => this.(timings := timings + [a])
      case AntennaKind => this.(antennas := antennas + [a])
    }
  }

  // ---------- names ----------

  function AssetNames(items: seq<Asset>): seq<string> {
    seq(|items|, i requires 0 <= i < |items| => items[i].name)
  }

  function ComponentNames(items: seq<Component>): seq<string> {
    seq(|items|, i requires 0 <= i < |items| => items[i].name)
  }

  ghost predicate Named(s: ScenarioData, n: string) {
    || (exists k, i :: 0 <= i < |s.Assets(k)| && s.Assets(k)[i].name == n)
    || (exists i :: 0 <= i < |s.platforms|
                    && (s.platforms[i].name == n || n in ComponentNames(s.platforms[i].components)))
  }

  /** `collectScenarioNames`. */
  function Names(s: ScenarioData): (names: set<string>)
    ensures forall n :: n in names <==> Named(s, n)
  {
    var names :=
      (set i | 0 <= i < |s.waveforms| :: s.waveforms[i].name) +
      (set i | 0 <= i < |s.timings| :: s.timings[i].name) +
      (set i | 0 <= i < |s.antennas| :: s.antennas[i].name) +
      (set i | 0 <= i < |s.platforms| :: s.platforms[i].name) +
      (set i, j | 0 <= i < |s.platforms| && 0 <= j < |s.platforms[i].components| :: s.platforms[i].components[j].name);
    NamesAreNamed(s, names);
    names
  }

  lemma NamesAreNamed(s: ScenarioData, names: set<string>)
    requires names ==
      (set i | 0 <= i < |s.waveforms| :: s.waveforms[i].name) +
      (set i | 0 <= i < |s.timings| :: s.timings[i].name) +
      (set i | 0 <= i < |s.antennas| :: s.antennas[i].name) +
      (set i | 0 <= i < |s.platforms| :: s.platforms[i].name) +
      (set i, j | 0 <= i < |s.platforms| && 0 <= j < |s.platforms[i].components| :: s.platforms[i].components[j].name)
    ensures forall n :: n in names <==> Named(s, n)
  {
    assert s.Assets(WaveformKind) == s.waveforms && s.Assets(TimingKind) == s.timings
      && s.Assets(AntennaKind) == s.antennas;
    forall n | n in names
      ensures Named(s, n)
    {
      if i, j :| 0 <= i < |s.platforms| && 0 <= j < |s.platforms[i].components|
                 && s.platforms[i].components[j].name == n {
        assert ComponentNames(s.platforms[i].components)[j] == n;
      }
    }
    forall n | Named(s, n)
      ensures n in names
    {
      if k, i :| 0 <= i < |s.Assets(k)| && s.Assets(k)[i].name == n {
      } else {
        var i :| 0 <= i < |s.platforms| && (s.platforms[i].name == n || n in ComponentNames(s.platforms[i].components));
        if s.platforms[i].name != n {
          var j :| 0 <= j < |ComponentNames(s.platforms[i].components)|
              && ComponentNames(s.platforms[i].components)[j] == n;
        }
      }
    }
  }

  /** `getComponentIdentityIds`. */
  function IdentityIds(c: Component): seq<string> {
    match c
    case Monostatic(id, txId, rxId, _, _, _, _) => [id, txId, rxId]
    case _ => [c.id]
  }

  function IgnoredSet(ids: seq<Option<string>>): set<string> {
    set i | 0 <= i < |ids| && ids[i].Some? && ids[i].value != "" :: ids[i].value
  }

  predicate ShouldIgnore(ids: seq<string>, ignored: set<string>) {
    exists i :: 0 <= i < |ids| && ids[i] != "" && ids[i] in ignored
  }

  /** An asset or platform is left out exactly when its id is one of those given, and a component when one of its ids
      is; absent and empty ids leave nothing out. */
  lemma LeftOutIff(c: Component, id: string, ids: seq<Option<string>>)
    ensures ShouldIgnore([id], IgnoredSet(ids)) <==> id != "" && Some(id) in ids
    ensures ShouldIgnore(IdentityIds(c), IgnoredSet(ids))
            <==> || (c.id != "" && Some(c.id) in ids)
                 || (c.Monostatic? && c.txId != "" && Some(c.txId) in ids)
                 || (c.Monostatic? && c.rxId != "" && Some(c.rxId) in ids)
  {
    forall x: string
      ensures x in IgnoredSet(ids) <==> x != "" && Some(x) in ids
    {
      if x != "" && Some(x) in ids {
        var i :| 0 <= i < |ids| && ids[i] == Some(x);
      }
    }
    hide IgnoredSet;
    assert [id][0] == id;
    var own := IdentityIds(c);
    assert own[0] == c.id && (c.Monostatic? ==> own[1] == c.txId && own[2] == c.rxId);
  }

  ghost predicate AssetNamed(items: seq<Asset>, ignored: set<string>, n: string) {
    exists i :: 0 <= i < |items| && items[i].name == n && !ShouldIgnore([items[i].id], ignored)
  }

  ghost predicate ComponentNamed(items: seq<Component>, ignored: set<string>, n: string) {
    exists i :: 0 <= i < |items| && items[i].name == n && !ShouldIgnore(IdentityIds(items[i]), ignored)
  }

  ghost predicate PlatformNamed(p: Platform, ignored: set<string>, n: string) {
    (p.name == n && !ShouldIgnore([p.id], ignored)) || ComponentNamed(p.components, ignored, n)
  }

  /** `n` is the name of an item that is not ignored. */
  ghost predicate NamedExcept(s: ScenarioData, ignored: set<string>, n: string) {
    || AssetNamed(s.waveforms, ignored, n) || AssetNamed(s.timings, ignored, n) || AssetNamed(s.antennas, ignored, n)
    || exists i :: 0 <= i < |s.platforms| && PlatformNamed(s.platforms[i], ignored, n)
  }

  method AddAssetNames(names: set<string>, items: seq<Asset>, ignored: set<string>) returns (all: set<string>)
    ensures forall n :: n in all <==> n in names || AssetNamed(items, ignored, n)
  {
    hide ShouldIgnore;
    all := names;
    for i := 0 to |items|
      invariant forall n :: n in all <==> n in names || AssetNamed(items[..i], ignored, n)
    {
      if !ShouldIgnore([items[i].id], ignored) {
        all := all + {items[i].name};
      }
      forall n
        ensures AssetNamed(items[..i + 1], ignored, n)
                <==> AssetNamed(items[..i], ignored, n) || (items[i].name == n && !ShouldIgnore([items[i].id], ignored))
      {
        AssetNamedStep(items, i, ignored, n);
      }
    }
    assert items[..|items|] == items;
  }

  lemma AssetNamedStep(items: seq<Asset>, i: nat, ignored: set<string>, n: string)
    requires i < |items|
    ensures AssetNamed(items[..i + 1], ignored, n)
            <==> AssetNamed(items[..i], ignored, n) || (items[i].name == n && !ShouldIgnore([items[i].id], ignored))
  {
    hide ShouldIgnore;
    var before, after := items[..i], items[..i + 1];
    assert after[i] == items[i];
    assert forall j :: 0 <= j < i ==> before[j] == after[j];
  }

  method AddComponentNames(names: set<string>, items: seq<Component>, ignored: set<string>) returns (all: set<string>)
    ensures forall n :: n in all <==> n in names || ComponentNamed(items, ignored, n)
  {
    hide ShouldIgnore, IdentityIds;
    all := names;
    for i := 0 to |items|
      invariant forall n :: n in all <==> n in names || ComponentNamed(items[..i], ignored, n)
    {
      if !ShouldIgnore(IdentityIds(items[i]), ignored) {
        all := all + {items[i].name};
      }
      forall n
        ensures ComponentNamed(items[..i + 1], ignored, n)
                <==> ComponentNamed(items[..i], ignored, n)
                     || (items[i].name == n && !ShouldIgnore(IdentityIds(items[i]), ignored))
      {
        ComponentNamedStep(items, i, ignored, n);
      }
    }
    assert items[..|items|] == items;
  }

  lemma ComponentNamedStep(items: seq<Component>, i: nat, ignored: set<string>, n: string)
    requires i < |items|
    ensures ComponentNamed(items[..i + 1], ignored, n)
            <==> ComponentNamed(items[..i], ignored, n)
                 || (items[i].name == n && !ShouldIgnore(IdentityIds(items[i]), ignored))
  {
    hide ShouldIgnore, IdentityIds;
    var before, after := items[..i], items[..i + 1];
    assert after[i] == items[i];
    assert forall j :: 0 <= j < i ==> before[j] == after[j];
  }

  /** `collectScenarioNames`: the names of the items that are not ignored. */
  method CollectScenarioNames(s: ScenarioData, ignoredIds: seq<Option<string>>) returns (names: set<string>)
    ensures forall n :: n in names <==> NamedExcept(s, IgnoredSet(ignoredIds), n)
    ensures ignoredIds == [] ==> names == Names(s)
  {
    hide ShouldIgnore, AssetNamed, ComponentNamed, Names, IgnoredSet;
    var ignored := IgnoredSet(ignoredIds);
    names := AddAssetNames({}, s.waveforms, ignored);
    names := AddAssetNames(names, s.timings, ignored);
    names := AddAssetNames(names, s.antennas, ignored);
    ghost var assetNames := names;
    for i := 0 to |s.platforms|
      invariant forall n :: n in names
                            <==> n in assetNames || exists k :: 0 <= k < i && PlatformNamed(s.platforms[k], ignored, n)
    {
      if !ShouldIgnore([s.platforms[i].id], ignored) {
        names := names + {s.platforms[i].name};
      }
      names := AddComponentNames(names, s.platforms[i].components, ignored);
    }
    if ignoredIds == [] {
      NothingIgnored(s, names);
    }
  }

  lemma NothingIgnored(s: ScenarioData, names: set<string>)
    requires forall n :: n in names <==> NamedExcept(s, IgnoredSet([]), n)
    ensures names == Names(s)
  {
    hide Names, NamedExcept, Named;
    assert IgnoredSet([]) == {};
    forall n
      ensures n in names <==> n in Names(s)
    {
      NamedWithoutExceptions(s, n);
    }
  }

  lemma NamedWithoutExceptions(s: ScenarioData, n: string)
    ensures NamedExcept(s, {}, n) <==> Named(s, n)
  {
    assert forall ids :: !ShouldIgnore(ids, {});
    hide ShouldIgnore;
    assert s.Assets(WaveformKind) == s.waveforms && s.Assets(TimingKind) == s.timings
      && s.Assets(AntennaKind) == s.antennas;
    forall i | 0 <= i < |s.platforms|
      ensures PlatformNamed(s.platforms[i], {}, n)
              <==> s.platforms[i].name == n || n in ComponentNames(s.platforms[i].components)
    {
      NamesOfComponents(s.platforms[i].components, n);
    }
    hide ComponentNames, PlatformNamed;
    if k, i :| 0 <= i < |s.Assets(k)| && s.Assets(k)[i].name == n {
      assert AssetNamed(s.Assets(k), {}, n);
    }
  }

  lemma NamesOfComponents(items: seq<Component>, n: string)
    ensures n in ComponentNames(items) <==> exists i :: 0 <= i < |items| && items[i].name == n
  {
    if i :| 0 <= i < |items| && items[i].name == n {
      assert ComponentNames(items)[i] == n;
    }
  }

  // ---------- ids ----------

  function EntryIds(items: seq<Entry>): seq<string> {
    seq(|items|, i requires 0 <= i < |items| => items[i].id)
  }

  function AssetIds(a: Asset): seq<string> {
    [a.id] + EntryIds(a.noiseEntries)
  }

  function IdsOfAssets(items: seq<Asset>): seq<string> {
    if items == [] then [] else AssetIds(items[0]) + IdsOfAssets(items[1..])
  }

  /** A monostatic component also goes by the id of its transmitter, which is its own. */
  function ComponentIds(c: Component): seq<string> {
    match c
    case Monostatic(id, txId, rxId, _, _, _, _) => if id == txId then [id, rxId] else [id, txId, rxId]
    case _ => [c.id]
  }

  function IdsOfComponents(items: seq<Component>): seq<string> {
    if items == [] then [] else ComponentIds(items[0]) + IdsOfComponents(items[1..])
  }

  function RotationIds(r: Rotation): seq<string> {
    match r
    case Fixed(_) => []
    case Path(_, waypoints) => EntryIds(waypoints)
  }

  function PlatformIds(p: Platform): seq<string> {
    [p.id] + EntryIds(p.waypoints) + RotationIds(p.rotation) + IdsOfComponents(p.components)
  }

  function IdsOfPlatforms(items: seq<Platform>): seq<string> {
    if items == [] then [] else PlatformIds(items[0]) + IdsOfPlatforms(items[1..])
  }

  function Ids(s: ScenarioData): seq<string> {
    IdsOfAssets(s.waveforms) + IdsOfAssets(s.timings) + IdsOfAssets(s.antennas) + IdsOfPlatforms(s.platforms)
  }

  // ---------- small operations ----------

  function Sanitized(p: Platform): Platform {
    p.(pathPoints := None, rotationPathPoints := None)
  }

  function SanitizedAll(items: seq<Platform>): seq<Platform> {
    seq(|items|, i requires 0 <= i < |items| => Sanitized(items[i]))
  }

  /** JavaScript treats the empty string as no reference. */
  function Present(ref: Option<string>): bool {
    ref.Some? && ref.value != ""
  }

  /** The references of a component, target components having none. */
  function RefsOf(c: Component): Refs {
    match c
    case Target(_, _, _) => Refs(None, None, None)
    case Receiver(_, _, antennaId, timingId, _, _) => Refs(antennaId, timingId, None)
    case _ => c.refs
  }

  function RefOf(c: Component, k: AssetKind): Option<string> {
    match k
    case WaveformKind => RefsOf(c).waveformId
    case TimingKind => RefsOf(c).timingId
    case AntennaKind => RefsOf(c).antennaId
  }

  function DechirpOf(c: Component): Dechirp {
    if c.Monostatic? || c.Receiver? then c.dechirp else Dechirp(None, None)
  }
}
