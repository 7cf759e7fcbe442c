/** Saving scenario items as templates and inserting templates into a scenario. */
module AssetTemplates {
  import opened Wrappers
  import opened Scenario
  import opened SimIds
  import ScenarioNames

  datatype Dependencies = Dependencies(waveforms: seq<Asset>, timings: seq<Asset>, antennas: seq<Asset>)
  {
    function Of(k: AssetKind): seq<Asset> {
      match k
      case WaveformKind => waveforms
      case TimingKind => timings
      case AntennaKind => antennas
    }
  }

  datatype Template =
    | AssetTemplate(kind: AssetKind, name: string, asset: Asset)
    | PlatformTemplate(name: string, platform: Scenario.Platform, dependencies: Dependencies)

  // ---------- saving ----------

  function FindAsset(items: seq<Asset>, id: string): Option<Asset> {
    if items == [] then None
    else if items[0].id == id then Some(items[0])
    else FindAsset(items[1..], id)
  }

  function FindPlatform(items: seq<Scenario.Platform>, id: string): Option<Scenario.Platform> {
    if items == [] then None
    else if items[0].id == id then Some(items[0])
    else FindPlatform(items[1..], id)
  }

  /** The items whose id is wanted, only the first of those that share an id. */
  function Selected(items: seq<Asset>, wanted: set<string>): seq<Asset> {
    if items == [] then []
    else
      var before, last := Selected(items[..|items| - 1], wanted), items[|items| - 1];
      if last.id in wanted && FindAsset(before, last.id).None? then before + [last] else before
  }

  /** The ids the components refer to, by kind. */
  function WantedIds(components: seq<Component>, k: AssetKind): set<string> {
    set i | 0 <= i < |components| && Present(RefOf(components[i], k)) :: RefOf(components[i], k).value
  }

  function DependenciesOf(p: Scenario.Platform, s: ScenarioData): Dependencies {
    Dependencies(
      Selected(s.waveforms, WantedIds(p.components, WaveformKind)),
      Selected(s.timings, WantedIds(p.components, TimingKind)),
      Selected(s.antennas, WantedIds(p.components, AntennaKind)))
  }

  /** `uniqueById` over a filter. */
  method SelectUnique(items: seq<Asset>, wanted: set<string>) returns (kept: seq<Asset>)
    ensures kept == Selected(items, wanted)
  {
    kept := [];
    var seen: set<string> := {};
    for i := 0 to |items|
      invariant kept == Selected(items[..i], wanted)
      invariant forall id :: id in seen <==> FindAsset(kept, id).Some?
    {
      assert items[..i + 1][..i] == items[..i];
      var item := items[i];
      if item.id in wanted && item.id !in seen {
        seen := seen + {item.id};
        FindInExtension(kept, item);
        kept := kept + [item];
      }
    }
    assert items[..|items|] == items;
  }

  lemma {:induction false} FindInExtension(items: seq<Asset>, a: Asset)
    ensures forall id :: FindAsset(items + [a], id)
                         == if FindAsset(items, id).Some? then FindAsset(items, id)
                            else if a.id == id then Some(a) else None
  {
    if items == [] {
      assert [a][1..] == [];
    } else {
      assert (items + [a])[1..] == items[1..] + [a];
      FindInExtension(items[1..], a);
    }
  }

  method CollectPlatformDependencies(p: Scenario.Platform, s: ScenarioData) returns (dependencies: Dependencies)
    ensures dependencies == DependenciesOf(p, s)
  {
    var antennaIds, waveformIds, timingIds: set<string> := {}, {}, {};
    for i := 0 to |p.components|
      invariant antennaIds == WantedIds(p.components[..i], AntennaKind)
      invariant waveformIds == WantedIds(p.components[..i], WaveformKind)
      invariant timingIds == WantedIds(p.components[..i], TimingKind)
    {
      var c := p.components[i];
      WantedGrows(p.components, i, AntennaKind);
      WantedGrows(p.components, i, WaveformKind);
      WantedGrows(p.components, i, TimingKind);
      var refs := RefsOf(c);
      if Present(refs.antennaId) {
        antennaIds := antennaIds + {refs.antennaId.value};
      }
      if Present(refs.waveformId) {
        waveformIds := waveformIds + {refs.waveformId.value};
      }
      if Present(refs.timingId) {
        timingIds := timingIds + {refs.timingId.value};
      }
    }
    assert p.components[..|p.components|] == p.components;
    var waveforms := SelectUnique(s.waveforms, waveformIds);
    var timings := SelectUnique(s.timings, timingIds);
    var antennas := SelectUnique(s.antennas, antennaIds);
    dependencies := Dependencies(waveforms, timings, antennas);
  }

  lemma WantedGrows(components: seq<Component>, i: nat, k: AssetKind)
    requires i < |components|
    ensures WantedIds(components[..i + 1], k)
            == WantedIds(components[..i], k)
               + (if Present(RefOf(components[i], k)) then {RefOf(components[i], k).value} else {})
  {
    forall id | id in WantedIds(components[..i], k)
      ensures id in WantedIds(components[..i + 1], k)
    {
      var j :| 0 <= j < i && Present(RefOf(components[..i][j], k)) && RefOf(components[..i][j], k).value == id;
      assert components[..i + 1][j] == components[..i][j];
    }
    if Present(RefOf(components[i], k)) {
      assert components[..i + 1][i] == components[i];
    }
  }

  /** `createTemplateFromScenarioItem`: waveforms, timing sources, antennas and platforms are searched in turn. */
  function Save(s: ScenarioData, itemId: string): Option<Template> {
    var w, t, a, p := FindAsset(s.waveforms, itemId), FindAsset(s.timings, itemId),
                      FindAsset(s.antennas, itemId), FindPlatform(s.platforms, itemId);
    if w.Some? then Some(AssetTemplate(WaveformKind, w.value.name, w.value))
    else if t.Some? then Some(AssetTemplate(TimingKind, t.value.name, t.value))
    else if a.Some? then Some(AssetTemplate(AntennaKind, a.value.name, a.value))
    else if p.Some? then Some(PlatformTemplate(p.value.name, Sanitized(p.value), DependenciesOf(p.value, s)))
    else None
  }

  // ---------- inserting: specification ----------

  function TypeOfKind(k: AssetKind): SimType {
    match k
    case WaveformKind => SimType.Waveform
    case TimingKind => SimType.Timing
    case AntennaKind => SimType.Antenna
  }

  /** Copies of entries with new ids, appended to `done`. */
  function CloneEntries(items: seq<Entry>, t: SimType, c: Counters, done: seq<Entry>): Result<(seq<Entry>, Counters)>
    decreases |items|
  {
    if items == [] then Success((done, c))
    else
      var (id, d) :- NextId(c, t);
      CloneEntries(items[1..], t, d, done + [items[0].(id := id)])
  }

  function CloneAsset(k: AssetKind, a: Asset, s: ScenarioData, baseName: string, c: Counters)
    : Result<(Asset, Counters)>
  {
    var (id, d) :- NextId(c, TypeOfKind(k));
    var name := ScenarioNames.UniqueCopyName(baseName, Names(s));
    var (entries, e) :- if k == TimingKind then CloneEntries(a.noiseEntries, SimType.Timing, d, [])
                        else Success((a.noiseEntries, d));
    Success((Asset(id, name, a.settings, entries), e))
  }

  type IdMap = map<string, string>

  datatype Cloned = Cloned(scenario: ScenarioData, ids: IdMap, counters: Counters)

  /** Copies of the dependencies of one kind, pushed to the scenario one by one. */
  function CloneAssets(k: AssetKind, deps: seq<Asset>, s: ScenarioData, ids: IdMap, c: Counters): Result<Cloned>
    decreases |deps|
  {
    if deps == [] then Success(Cloned(s, ids, c))
    else
      var (a, d) :- CloneAsset(k, deps[0], s, deps[0].name, c);
      CloneAssets(k, deps[1..], s.PushAsset(k, a), ids[deps[0].id := a.id], d)
  }

  function Remapped(ref: Option<string>, ids: IdMap): Option<string> {
    if Present(ref) && ref.value in ids && ids[ref.value] != "" then Some(ids[ref.value]) else None
  }

  function Label(k: AssetKind): string {
    match k
    case WaveformKind => "waveform"
    case TimingKind => "timing"
    case AntennaKind => "antenna"
  }

  function Missing(ref: Option<string>, ids: IdMap, k: AssetKind): seq<string> {
    if Present(ref) && Remapped(ref, ids).None? then
      ["Missing " + Label(k) + " dependency " + ref.value + "; reference cleared."]
    else []
  }

  datatype IdMaps = IdMaps(antennas: IdMap, timings: IdMap, waveforms: IdMap)
  {
    function Of(k: AssetKind): IdMap {
      match k
      case WaveformKind => waveforms
      case TimingKind => timings
      case AntennaKind => antennas
    }
  }

  function RemappedRefs(r: Refs, m: IdMaps): Refs {
    Refs(Remapped(r.antennaId, m.antennas), Remapped(r.timingId, m.timings), Remapped(r.waveformId, m.waveforms))
  }

  /** One warning for each reference that could not be resolved, in the order the source resolves them. */
  function MissingRefs(c: Component, m: IdMaps): seq<string> {
    var r := RefsOf(c);
    Missing(r.antennaId, m.antennas, AntennaKind) + Missing(r.timingId, m.timings, TimingKind)
    + Missing(r.waveformId, m.waveforms, WaveformKind)
  }

  function CloneComponent(comp: Component, m: IdMaps, name: string, c: Counters): Result<(Component, Counters)> {
    match comp
    case Monostatic(_, _, _, _, refs, dechirp, settings) =>
      var (txId, d) :- NextId(c, SimType.Transmitter);
      var (rxId, e) :- NextId(d, SimType.Receiver);
      Success((Monostatic(txId, txId, rxId, name, RemappedRefs(refs, m), dechirp, settings), e))
    case Transmitter(_, _, refs, settings) =>
      var (id, d) :- NextId(c, SimType.Transmitter);
      Success((Component.Transmitter(id, name, RemappedRefs(refs, m), settings), d))
    case Receiver(_, _, antennaId, timingId, dechirp, settings) =>
      var (id, d) :- NextId(c, SimType.Receiver);
      var antenna, timing := Remapped(antennaId, m.antennas), Remapped(timingId, m.timings);
      Success((Component.Receiver(id, name, antenna, timing, dechirp, settings), d))
    case Target(_, _, settings) =>
      var (id, d) :- NextId(c, SimType.Target);
      Success((Component.Target(id, name, settings), d))
  }

  datatype ClonedComponents = ClonedComponents(components: seq<Component>, warnings: seq<string>, counters: Counters)

  function CloneComponents(items: seq<Component>, m: IdMaps, names: set<string>, done: seq<Component>,
                           warnings: seq<string>, c: Counters)
    : Result<ClonedComponents>
    decreases |items|
  {
    if items == [] then Success(ClonedComponents(done, warnings, c))
    else
      var name := ScenarioNames.UniqueCopyName(items[0].name, names);
      var (comp, d) :- CloneComponent(items[0], m, name, c);
      CloneComponents(items[1..], m, names + {name}, done + [comp], warnings + MissingRefs(items[0], m), d)
  }

  function CloneRotation(r: Rotation, c: Counters): Result<(Rotation, Counters)> {
    match r
    case Fixed(_) => Success((r, c))
    case Path(interpolation, waypoints) =>
      var (copies, d) :- CloneEntries(waypoints, SimType.Platform, c, []);
      Success((Path(interpolation, copies), d))
  }

  /** `clonePlatformWaypointIds`. */
  function CloneFrame(p: Scenario.Platform, c: Counters): Result<(Scenario.Platform, Counters)> {
    var (id, d) :- NextId(c, SimType.Platform);
    var (waypoints, e) :- CloneEntries(p.waypoints, SimType.Platform, d, []);
    var (rotation, f) :- CloneRotation(p.rotation, e);
    Success((Sanitized(p).(id := id, waypoints := waypoints, rotation := rotation), f))
  }

  datatype Inserted = Inserted(scenario: ScenarioData, itemId: string, name: string, warnings: seq<string>,
                               counters: Counters)

  function Base(s: ScenarioData): ScenarioData {
    s.(platforms := SanitizedAll(s.platforms))
  }

  function InsertPlatform(s: ScenarioData, t: Template, c: Counters): Result<Inserted>
    requires t.PlatformTemplate?
  {
    var w :- CloneAssets(WaveformKind, t.dependencies.waveforms, s, map[], c);
    var ti :- CloneAssets(TimingKind, t.dependencies.timings, w.scenario, map[], w.counters);
    var an :- CloneAssets(AntennaKind, t.dependencies.antennas, ti.scenario, map[], ti.counters);
    var (frame, d) :- CloneFrame(t.platform, an.counters);
    var name := ScenarioNames.UniqueCopyName(t.name, Names(an.scenario));
    var comps :- CloneComponents(t.platform.components, IdMaps(an.ids, ti.ids, w.ids),
                                 Names(an.scenario) + {name}, [], [], d);
    var platform := frame.(name := name, components := comps.components);
    Success(Inserted(an.scenario.(platforms := an.scenario.platforms + [platform]),
                     platform.id, name, comps.warnings, comps.counters))
  }

  function Insert(s: ScenarioData, t: Template, c: Counters): Result<Inserted> {
    match t
    case AssetTemplate(k, name, asset) =>
      var (a, d) :- CloneAsset(k, asset, Base(s), name, c);
      Success(Inserted(Base(s).PushAsset(k, a), a.id, a.name, [], d))
    case PlatformTemplate(_, _, _) => InsertPlatform(Base(s), t, c)
  }
}
