/** The procedures behind the specification of `AssetTemplates`: loops that draw ids from the shared
    counters, fill the id maps and push copies and warnings. */
module TemplateInsertion {
  import opened Wrappers
  import opened Scenario
  import opened SimIds
  import opened AssetTemplates
  import opened TemplateCapacity
  import ScenarioNames

  /** What an operation that draws ids did, against the function that specifies it. When the counters run out the
      source throws and the partly built copy is dropped; the counters keep what was drawn until then. */
  ghost predicate Agrees<T>(r: Result<T>, counters: Counters, spec: Result<(T, Counters)>) {
    match spec
    case Success(v) => r == Success(v.0) && counters == v.1
    case Failure(e) => r == Failure(e)
  }

  method CloneEntryList(items: seq<Entry>, t: SimType, ids: SimIdCounters) returns (r: Result<seq<Entry>>)
    modifies ids
    ensures Agrees(r, ids.counters, CloneEntries(items, t, old(ids.counters), []))
    ensures ids.counters == Drawn(old(ids.counters), OfEntries(items, t))
  {
    hide NextId;
    var done: seq<Entry> := [];
    for i := 0 to |items|
      invariant CloneEntries(items, t, old(ids.counters), []) == CloneEntries(items[i..], t, ids.counters, done)
      invariant Drawn(old(ids.counters), OfEntries(items, t)) == Drawn(ids.counters, OfEntries(items[i..], t))
    {
      assert items[i..][0] == items[i] && items[i..][1..] == items[i + 1..];
      assert OfEntries(items[i..], t)[1..] == OfEntries(items[i + 1..], t);
      var id :- ids.GenerateSimId(t);
      done := done + [items[i].(id := id)];
    }
    r := Success(done);
  }

  /** `cloneWaveform`, `cloneTiming` and `cloneAntenna`. */
  method CloneOne(k: AssetKind, a: Asset, s: ScenarioData, baseName: string, ids: SimIdCounters)
    returns (r: Result<Asset>)
    modifies ids
    ensures Agrees(r, ids.counters, CloneAsset(k, a, s, baseName, old(ids.counters)))
    ensures ids.counters == Drawn(old(ids.counters), OfAsset(k, a))
  {
    hide Names, NextId, Draw, Drawn, OfEntries, CloneEntries;
    ghost var c := ids.counters;
    DrawOne(c, TypeOfKind(k));
    DrawnOne(c, TypeOfKind(k));
    DrawnAppend(c, [TypeOfKind(k)], if k == TimingKind then OfEntries(a.noiseEntries, SimType.Timing) else []);
    var id :- ids.GenerateSimId(TypeOfKind(k));
    var existing := CollectScenarioNames(s, []);
    var name := ScenarioNames.CreateUniqueName(baseName, existing, true);
    var entries := a.noiseEntries;
    DrawnNone(ids.counters);
    if k == TimingKind {
      entries :- CloneEntryList(a.noiseEntries, SimType.Timing, ids);
    }
    r := Success(Asset(id, name, a.settings, entries));
  }

  method CloneDependencies(k: AssetKind, deps: seq<Asset>, s: ScenarioData, ids: SimIdCounters)
    returns (r: Result<(ScenarioData, IdMap)>)
    modifies ids
    ensures match CloneAssets(k, deps, s, map[], old(ids.counters))
            case Success(v) => r == Success((v.scenario, v.ids)) && ids.counters == v.counters
            case Failure(e) => r == Failure(e)
    ensures ids.counters == Drawn(old(ids.counters), OfAssets(k, deps))
  {
    hide CloneAsset, Draw, Drawn, OfAsset;
    var next, idMap := s, map[];
    for i := 0 to |deps|
      invariant CloneAssets(k, deps, s, map[], old(ids.counters))
                == CloneAssets(k, deps[i..], next, idMap, ids.counters)
      invariant Drawn(old(ids.counters), OfAssets(k, deps)) == Drawn(ids.counters, OfAssets(k, deps[i..]))
    {
      assert deps[i..][0] == deps[i] && deps[i..][1..] == deps[i + 1..];
      AssetDraw(k, deps[i], next, deps[i].name, ids.counters);
      DrawnAppend(ids.counters, OfAsset(k, deps[i]), OfAssets(k, deps[i + 1..]));
      var copy :- CloneOne(k, deps[i], next, deps[i].name, ids);
      idMap := idMap[deps[i].id := copy.id];
      next := next.PushAsset(k, copy);
    }
    DrawnNone(ids.counters);
    r := Success((next, idMap));
  }

  /** `remapReference`. */
  method RemapReference(ref: Option<string>, idMap: IdMap, warnings: seq<string>, k: AssetKind)
    returns (remapped: Option<string>, allWarnings: seq<string>)
    ensures remapped == Remapped(ref, idMap) && allWarnings == warnings + Missing(ref, idMap, k)
  {
    remapped, allWarnings := None, warnings;
    if ref.None? || ref.value == "" {
      return;
    }
    if ref.value in idMap && idMap[ref.value] != "" {
      remapped := Some(idMap[ref.value]);
      return;
    }
    allWarnings := warnings + ["Missing " + Label(k) + " dependency " + ref.value + "; reference cleared."];
  }

  method RemapAll(refs: Refs, m: IdMaps, warnings: seq<string>) returns (remapped: Refs, allWarnings: seq<string>)
    ensures remapped == RemappedRefs(refs, m)
    ensures allWarnings == warnings + (Missing(refs.antennaId, m.antennas, AntennaKind)
                                       + Missing(refs.timingId, m.timings, TimingKind)
                                       + Missing(refs.waveformId, m.waveforms, WaveformKind))
  {
    hide Missing, Remapped;
    var antennaId, timingId, waveformId, w;
    antennaId, w := RemapReference(refs.antennaId, m.antennas, warnings, AntennaKind);
    timingId, w := RemapReference(refs.timingId, m.timings, w, TimingKind);
    waveformId, w := RemapReference(refs.waveformId, m.waveforms, w, WaveformKind);
    remapped, allWarnings := Refs(antennaId, timingId, waveformId), w;
  }

  method CloneOneComponent(comp: Component, m: IdMaps, name: string, warnings: seq<string>, ids: SimIdCounters)
    returns (r: Result<(Component, seq<string>)>)
    modifies ids
    ensures match CloneComponent(comp, m, name, old(ids.counters))
            case Success(v) => r == Success((v.0, warnings + MissingRefs(comp, m))) && ids.counters == v.1
            case Failure(e) => r == Failure(e)
    ensures ids.counters == Drawn(old(ids.counters), OfComponent(comp))
  {
    hide Missing, Remapped, NextId, Draw, Drawn;
    ghost var c := ids.counters;
    DrawnOne(c, SimType.Transmitter);
    DrawnOne(c, SimType.Receiver);
    DrawnOne(c, SimType.Target);
    DrawOne(c, SimType.Transmitter);
    DrawnAppend(c, [SimType.Transmitter], [SimType.Receiver]);
    NothingMissing(m);
    match comp
    case Monostatic(_, _, _, _, refs, dechirp, settings) =>
      var txId :- ids.GenerateSimId(SimType.Transmitter);
      DrawnOne(ids.counters, SimType.Receiver);
      var rxId :- ids.GenerateSimId(SimType.Receiver);
      var remapped, w := RemapAll(refs, m, warnings);
      r := Success((Monostatic(txId, txId, rxId, name, remapped, dechirp, settings), w));
    case Transmitter(_, _, refs, settings) =>
      var id :- ids.GenerateSimId(SimType.Transmitter);
      var remapped, w := RemapAll(refs, m, warnings);
      r := Success((Component.Transmitter(id, name, remapped, settings), w));
    case Receiver(_, _, antennaId, timingId, dechirp, settings) =>
      var id :- ids.GenerateSimId(SimType.Receiver);
      var a, w := RemapReference(antennaId, m.antennas, warnings, AntennaKind);
      var t, w' := RemapReference(timingId, m.timings, w, TimingKind);
      assert w' == warnings + MissingRefs(comp, m);
      r := Success((Component.Receiver(id, name, a, t, dechirp, settings), w'));
    case Target(_, _, settings) =>
      var id :- ids.GenerateSimId(SimType.Target);
      assert warnings == warnings + MissingRefs(comp, m);
      r := Success((Component.Target(id, name, settings), warnings));
  }

  lemma NothingMissing(m: IdMaps)
    ensures forall k, ids :: Missing(None, ids, k) == []
  {
  }

  method CloneComponentList(items: seq<Component>, m: IdMaps, names: set<string>, ids: SimIdCounters)
    returns (r: Result<(seq<Component>, seq<string>)>)
    modifies ids
    ensures match CloneComponents(items, m, names, [], [], old(ids.counters))
            case Success(v) => r == Success((v.components, v.warnings)) && ids.counters == v.counters
            case Failure(e) => r == Failure(e)
    ensures ids.counters == Drawn(old(ids.counters), OfComponents(items))
  {
    hide CloneComponent, MissingRefs, Draw, Drawn, OfComponent;
    var done: seq<Component>, warnings: seq<string>, existing := [], [], names;
    for i := 0 to |items|
      invariant CloneComponents(items, m, names, [], [], old(ids.counters))
                == CloneComponents(items[i..], m, existing, done, warnings, ids.counters)
      invariant Drawn(old(ids.counters), OfComponents(items)) == Drawn(ids.counters, OfComponents(items[i..]))
    {
      assert items[i..][0] == items[i] && items[i..][1..] == items[i + 1..];
      var name := ScenarioNames.CreateUniqueName(items[i].name, existing, true);
      ComponentDraw(items[i], m, name, ids.counters);
      DrawnAppend(ids.counters, OfComponent(items[i]), OfComponents(items[i + 1..]));
      existing := existing + {name};
      var copy :- CloneOneComponent(items[i], m, name, warnings, ids);
      done, warnings := done + [copy.0], copy.1;
    }
    DrawnNone(ids.counters);
    r := Success((done, warnings));
  }

  method ClonePlatformWaypointIds(p: Scenario.Platform, ids: SimIdCounters) returns (r: Result<Scenario.Platform>)
    modifies ids
    ensures Agrees(r, ids.counters, CloneFrame(p, old(ids.counters)))
    ensures ids.counters == Drawn(old(ids.counters), OfFrame(p))
  {
    hide CloneEntries, NextId, Draw, Drawn, OfEntries;
    var cloned := Sanitized(p);
    ghost var entries, turning := OfEntries(p.waypoints, SimType.Platform), OfRotation(p.rotation);
    DrawOne(ids.counters, SimType.Platform);
    DrawnOne(ids.counters, SimType.Platform);
    DrawnAppend(ids.counters, [SimType.Platform], entries + turning);
    var id :- ids.GenerateSimId(SimType.Platform);
    DrawnAppend(ids.counters, entries, turning);
    EntriesDraw(p.waypoints, SimType.Platform, ids.counters, []);
    var waypoints :- CloneEntryList(p.waypoints, SimType.Platform, ids);
    cloned := cloned.(id := id, waypoints := waypoints);
    DrawnNone(ids.counters);
    if p.rotation.Path? {
      var turns :- CloneEntryList(p.rotation.waypoints, SimType.Platform, ids);
      cloned := cloned.(rotation := Path(p.rotation.interpolation, turns));
    }
    r := Success(cloned);
  }

  datatype InsertionResult = InsertionResult(insertedItemId: string, insertedName: string, warnings: seq<string>)

  method CloneTemplateIntoScenarioData(s: ScenarioData, t: Template, ids: SimIdCounters)
    returns (r: Result<(ScenarioData, InsertionResult)>)
    modifies ids
    ensures match Insert(s, t, old(ids.counters))
            case Success(v) =>
              r == Success((v.scenario, InsertionResult(v.itemId, v.name, v.warnings))) && ids.counters == v.counters
            case Failure(e) => r == Failure(e)
    ensures ids.counters == Drawn(old(ids.counters), OfTemplate(t))
  {
    hide Names, CloneAsset, CloneAssets, CloneFrame, CloneComponents, Draw, Drawn, OfAsset, OfAssets, OfFrame;
    hide OfComponents;
    var next := s.(platforms := SanitizedAll(s.platforms));
    match t
    case AssetTemplate(k, name, asset) =>
      var copy :- CloneOne(k, asset, next, name, ids);
      r := Success((next.PushAsset(k, copy), InsertionResult(copy.id, copy.name, [])));
    case PlatformTemplate(templateName, payload, dependencies) =>
      ghost var parts := OfAssets(AntennaKind, dependencies.antennas)
          + (OfFrame(payload) + OfComponents(payload.components));
      DrawnAppend(ids.counters, OfAssets(WaveformKind, dependencies.waveforms),
                  OfAssets(TimingKind, dependencies.timings) + parts);
      AssetsDraw(WaveformKind, dependencies.waveforms, next, map[], ids.counters);
      var w :- CloneDependencies(WaveformKind, dependencies.waveforms, next, ids);
      DrawnAppend(ids.counters, OfAssets(TimingKind, dependencies.timings), parts);
      AssetsDraw(TimingKind, dependencies.timings, w.0, map[], ids.counters);
      var ti :- CloneDependencies(TimingKind, dependencies.timings, w.0, ids);
      DrawnAppend(ids.counters, OfAssets(AntennaKind, dependencies.antennas),
                  OfFrame(payload) + OfComponents(payload.components));
      AssetsDraw(AntennaKind, dependencies.antennas, ti.0, map[], ids.counters);
      var an :- CloneDependencies(AntennaKind, dependencies.antennas, ti.0, ids);
      next := an.0;
      DrawnAppend(ids.counters, OfFrame(payload), OfComponents(payload.components));
      FrameDraw(payload, ids.counters);
      var platform :- ClonePlatformWaypointIds(payload, ids);
      var existing := CollectScenarioNames(next, []);
      var name := ScenarioNames.CreateUniqueName(templateName, existing, true);
      var comps :- CloneComponentList(payload.components, IdMaps(an.1, ti.1, w.1), existing + {name}, ids);
      platform := platform.(name := name, components := comps.0);
      r := Success((next.(platforms := next.platforms + [platform]),
                    InsertionResult(platform.id, platform.name, comps.1)));
  }

  /** `createTemplateFromScenarioItem`. */
  method CreateTemplateFromScenarioItem(s: ScenarioData, itemId: string) returns (t: Option<Template>)
    ensures t == Save(s, itemId)
  {
    var waveform := FindAsset(s.waveforms, itemId);
    if waveform.Some? {
      return Some(AssetTemplate(WaveformKind, waveform.value.name, waveform.value));
    }
    var timing := FindAsset(s.timings, itemId);
    if timing.Some? {
      return Some(AssetTemplate(TimingKind, timing.value.name, timing.value));
    }
    var antenna := FindAsset(s.antennas, itemId);
    if antenna.Some? {
      return Some(AssetTemplate(AntennaKind, antenna.value.name, antenna.value));
    }
    var platform := FindPlatform(s.platforms, itemId);
    if platform.Some? {
      var dependencies := CollectPlatformDependencies(platform.value, s);
      return Some(PlatformTemplate(platform.value.name, Sanitized(platform.value), dependencies));
    }
    t := None;
  }
}
