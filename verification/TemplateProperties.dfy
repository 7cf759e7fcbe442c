/** What saving and inserting templates guarantees. */
module TemplateProperties {
  import opened Wrappers
  import opened Scenario
  import opened SimIds
  import opened Sorting
  import opened AssetTemplates
  import opened TemplateCapacity
  import ScenarioNames

  // ---------- copies ----------

  ghost predicate EntriesCopied(a: seq<Entry>, b: seq<Entry>) {
    && |a| == |b|
    && (forall i :: 0 <= i < |a| ==> a[i].values == b[i].values)
  }

  /** `b` is `a` up to its id, its name and the ids of its noise entries. */
  ghost predicate AssetCopied(a: Asset, b: Asset) {
    a.settings == b.settings && EntriesCopied(a.noiseEntries, b.noiseEntries)
  }

  ghost predicate AssetsCopied(a: seq<Asset>, b: seq<Asset>) {
    && |a| == |b|
    && (forall i :: 0 <= i < |a| ==> AssetCopied(a[i], b[i]))
  }

  ghost predicate RotationCopied(a: Rotation, b: Rotation) {
    match a
    case Fixed(_) => b == a
    case Path(interpolation, waypoints) =>
      b.Path? && b.interpolation == interpolation && EntriesCopied(waypoints, b.waypoints)
  }

  /** `b` is `a` with new ids and a new name, its references mapped, and its references by name as they were. */
  ghost predicate ComponentCopied(a: Component, b: Component, m: IdMaps) {
    && a.Monostatic? == b.Monostatic? && a.Transmitter? == b.Transmitter? && a.Receiver? == b.Receiver?
    && a.settings == b.settings && DechirpOf(a) == DechirpOf(b)
    && RefsOf(b) == RemappedRefs(RefsOf(a), m)
    && (b.Monostatic? ==> b.id == b.txId)
  }

  ghost predicate ComponentsCopied(a: seq<Component>, b: seq<Component>, m: IdMaps) {
    && |a| == |b|
    && (forall i :: 0 <= i < |a| ==> ComponentCopied(a[i], b[i], m))
  }

  // ---------- fresh names ----------

  ghost predicate FreshNames(names: seq<string>, taken: set<string>) {
    && Distinct(names)
    && (forall i :: 0 <= i < |names| ==> names[i] !in taken)
  }

  function Union(taken: set<string>, names: seq<string>): set<string> {
    taken + set n | n in names
  }

  /** Each name is the first free copy name of its base, counting the names given before it as taken. */
  ghost predicate NamedInTurn(bases: seq<string>, names: seq<string>, taken: set<string>) {
    && |names| == |bases|
    && (forall i :: 0 <= i < |names| ==> ScenarioNames.FirstFreeCopy(names[i], bases[i], Union(taken, names[..i])))
  }

  lemma UnionStep(taken: set<string>, name: string, names: seq<string>)
    ensures Union(taken + {name}, names) == Union(taken, [name] + names)
  {
  }

  lemma NamedFirst(base: string, name: string, bases: seq<string>, names: seq<string>, taken: set<string>)
    requires ScenarioNames.FirstFreeCopy(name, base, taken) && NamedInTurn(bases, names, taken + {name})
    ensures NamedInTurn([base] + bases, [name] + names, taken)
    ensures Union(taken + {name}, names) == Union(taken, [name] + names)
  {
    hide ScenarioNames.FirstFreeCopy, Union;
    var all := [name] + names;
    NoneJoined(taken);
    UnionStep(taken, name, names);
    forall i | 0 <= i < |all|
      ensures ScenarioNames.FirstFreeCopy(all[i], ([base] + bases)[i], Union(taken, all[..i]))
    {
      if i == 0 {
        assert all[..0] == [];
      } else {
        UnionStep(taken, name, names[..i - 1]);
        assert all[..i] == [name] + names[..i - 1];
      }
    }
  }

  lemma NoneJoined(taken: set<string>)
    ensures Union(taken, []) == taken
  {
  }

  lemma JoinedTwice(taken: set<string>, a: seq<string>, b: seq<string>)
    ensures Union(Union(taken, a), b) == Union(taken, a + b)
  {
  }

  lemma NamedAppend(s: seq<string>, a: seq<string>, t: seq<string>, b: seq<string>, taken: set<string>)
    requires NamedInTurn(s, a, taken) && NamedInTurn(t, b, Union(taken, a))
    ensures NamedInTurn(s + t, a + b, taken) && Union(Union(taken, a), b) == Union(taken, a + b)
  {
    hide ScenarioNames.FirstFreeCopy, Union;
    JoinedTwice(taken, a, b);
    forall i | 0 <= i < |a + b|
      ensures ScenarioNames.FirstFreeCopy((a + b)[i], (s + t)[i], Union(taken, (a + b)[..i]))
    {
      if i < |a| {
        assert (a + b)[..i] == a[..i];
      } else {
        JoinedTwice(taken, a, b[..i - |a|]);
        assert (a + b)[..i] == a + b[..i - |a|];
      }
    }
  }

  /** Names given in turn are pairwise different and new. */
  lemma NamedIsFresh(bases: seq<string>, names: seq<string>, taken: set<string>)
    requires NamedInTurn(bases, names, taken)
    ensures FreshNames(names, taken)
  {
    forall i, j | 0 <= i < j < |names|
      ensures names[i] != names[j]
    {
      assert names[..j][i] in Union(taken, names[..j]);
    }
  }

  // ---------- the cloning steps ----------

  lemma EntriesFront(items: seq<Entry>, copy: Entry, rest: seq<Entry>)
    requires items != [] && copy == items[0].(id := copy.id) && EntriesCopied(items[1..], rest)
    ensures EntriesCopied(items, [copy] + rest)
    ensures EntryIds([copy] + rest) == [copy.id] + EntryIds(rest)
  {
  }

  lemma {:induction false} CloneEntriesFacts(items: seq<Entry>, t: SimType, c: Counters, done: seq<Entry>)
    requires CloneEntries(items, t, c, done).Success?
    ensures var (r, d) := CloneEntries(items, t, c, done).value;
            && |r| == |done| + |items| && r[..|done|] == done
            && EntriesCopied(items, r[|done|..])
            && IdsDrawn(EntryIds(r[|done|..]), OfEntries(items, t), c, d)
    decreases |items|
  {
    var (r, e) := CloneEntries(items, t, c, done).value;
    if items == [] {
      NoIdsDrawn(c);
      assert EntryIds(r[|done|..]) == [];
    } else {
      var (id, d) := NextId(c, t).value;
      var copy := items[0].(id := id);
      OneIdDrawn(c, t);
      CloneEntriesFacts(items[1..], t, d, done + [copy]);
      assert r[..|done|] == r[..|done| + 1][..|done|] == done;
      assert r[|done|] == r[..|done| + 1][|done|] == copy;
      var rest := r[|done| + 1..];
      assert r[|done|..] == [copy] + rest;
      assert OfEntries(items, t) == [t] + OfEntries(items[1..], t);
      hide EntriesCopied, EntryIds, IdsDrawn, OfEntries;
      EntriesFront(items, copy, rest);
      IdsDrawnAppend([id], [t], EntryIds(rest), OfEntries(items[1..], t), c, d, e);
    }
  }

  lemma CloneAssetFacts(k: AssetKind, a: Asset, s: ScenarioData, baseName: string, c: Counters)
    requires CloneAsset(k, a, s, baseName, c).Success?
    requires k != TimingKind ==> a.noiseEntries == []
    ensures var (b, d) := CloneAsset(k, a, s, baseName, c).value;
            && AssetCopied(a, b) && b.id != ""
            && baseName < b.name && ScenarioNames.FirstFreeCopy(b.name, baseName, Names(s))
            && IdsDrawn(AssetIds(b), OfAsset(k, a), c, d)
  {
    hide Names, ScenarioNames.FirstFreeCopy;
    var (b, e) := CloneAsset(k, a, s, baseName, c).value;
    var (id, d) := NextId(c, TypeOfKind(k)).value;
    NextIdIsFresh(c, TypeOfKind(k));
    OneIdDrawn(c, TypeOfKind(k));
    if k == TimingKind {
      CloneEntriesFacts(a.noiseEntries, SimType.Timing, d, []);
      assert b.noiseEntries[0..] == b.noiseEntries;
      IdsDrawnAppend([id], [TypeOfKind(k)], EntryIds(b.noiseEntries), OfEntries(a.noiseEntries, SimType.Timing), c, d,
                     e);
    } else {
      assert AssetIds(b) == [id] && OfAsset(k, a) == [TypeOfKind(k)];
    }
  }

  lemma PushedAssets(s: ScenarioData, k: AssetKind, a: Asset)
    ensures s.PushAsset(k, a).Assets(k) == s.Assets(k) + [a]
    ensures forall j :: j != k ==> s.PushAsset(k, a).Assets(j) == s.Assets(j)
    ensures s.PushAsset(k, a).platforms == s.platforms && s.PushAsset(k, a).globals == s.globals
  {
  }

  lemma PushAssetFacts(s: ScenarioData, k: AssetKind, a: Asset)
    ensures s.PushAsset(k, a).Assets(k) == s.Assets(k) + [a]
    ensures forall j :: j != k ==> s.PushAsset(k, a).Assets(j) == s.Assets(j)
    ensures s.PushAsset(k, a).platforms == s.platforms && s.PushAsset(k, a).globals == s.globals
    ensures Names(s.PushAsset(k, a)) == Names(s) + {a.name}
  {
    hide ScenarioData.PushAsset, ScenarioData.Assets, ComponentNames;
    PushedAssets(s, k, a);
    var t := s.PushAsset(k, a);
    forall n
      ensures Named(t, n) <==> Named(s, n) || n == a.name
    {
      if n == a.name {
        assert t.Assets(k)[|s.Assets(k)|].name == n;
      }
      if j, i :| 0 <= i < |s.Assets(j)| && s.Assets(j)[i].name == n {
        assert t.Assets(j)[i] == s.Assets(j)[i];
      }
      if j, i :| 0 <= i < |t.Assets(j)| && t.Assets(j)[i].name == n {
        assert (j == k && i == |s.Assets(k)|) || s.Assets(j)[i] == t.Assets(j)[i];
      }
    }
  }

  /** `id` is the id of item `i` and of no later one. */
  ghost predicate LastWithId(items: seq<Asset>, id: string, i: nat) {
    && i < |items| && items[i].id == id
    && (forall j :: i < j < |items| ==> items[j].id != id)
  }

  ghost predicate HasId(items: seq<Asset>, id: string) {
    exists i :: 0 <= i < |items| && items[i].id == id
  }

  /** The map sends the id of each dependency to the id of its copy, the last one if several share the id. */
  ghost predicate MapsTo(ids: IdMap, before: IdMap, deps: seq<Asset>, added: seq<Asset>)
    requires |deps| == |added|
  {
    forall id ::
      if HasId(deps, id) then id in ids && exists i: nat :: LastWithId(deps, id, i) && ids[id] == added[i].id
      else (id in ids <==> id in before) && (id in ids ==> ids[id] == before[id])
  }

  /** The copies get their names and ids in turn. */
  ghost predicate NamedAndNumbered(k: AssetKind, deps: seq<Asset>, s: ScenarioData, c: Counters, r: Cloned,
                                   added: seq<Asset>) {
    && NamedInTurn(AssetNames(deps), AssetNames(added), Names(s))
    && Names(r.scenario) == Union(Names(s), AssetNames(added))
    && IdsDrawn(IdsOfAssets(added), OfAssets(k, deps), c, r.counters)
  }

  /** What pushing copies of dependencies of kind `k` does. */
  ghost predicate Added(k: AssetKind, deps: seq<Asset>, s: ScenarioData, before: IdMap, c: Counters, r: Cloned,
                        added: seq<Asset>) {
    && AssetsCopied(deps, added)
    && r.scenario.Assets(k) == s.Assets(k) + added
    && (forall j :: j != k ==> r.scenario.Assets(j) == s.Assets(j))
    && r.scenario.platforms == s.platforms && r.scenario.globals == s.globals
    && NamedAndNumbered(k, deps, s, c, r, added)
    && (forall i :: 0 <= i < |added| ==> added[i].id != "" && deps[i].name < added[i].name)
    && MapsTo(r.ids, before, deps, added)
  }

  lemma AddedNone(k: AssetKind, s: ScenarioData, ids: IdMap, c: Counters)
    ensures Added(k, [], s, ids, c, Cloned(s, ids, c), [])
  {
    hide Names;
    NoIdsDrawn(c);
    assert AssetNames([]) == [] && Union(Names(s), []) == Names(s);
  }

  lemma AssetsFront(before: seq<Asset>, a: Asset, rest: seq<Asset>)
    ensures before + ([a] + rest) == before + [a] + rest
    ensures AssetNames([a] + rest) == [a.name] + AssetNames(rest)
    ensures IdsOfAssets([a] + rest) == AssetIds(a) + IdsOfAssets(rest)
  {
    hide AssetIds;
    assert ([a] + rest)[1..] == rest;
  }

  lemma AssetNamesFront(items: seq<Asset>)
    requires items != []
    ensures AssetNames(items) == [items[0].name] + AssetNames(items[1..])
  {
  }

  lemma CopiesFront(deps: seq<Asset>, a: Asset, rest: seq<Asset>)
    requires deps != [] && AssetCopied(deps[0], a) && a.id != "" && deps[0].name < a.name
    requires AssetsCopied(deps[1..], rest)
    requires forall i :: 0 <= i < |rest| ==> rest[i].id != "" && deps[1..][i].name < rest[i].name
    ensures AssetsCopied(deps, [a] + rest)
    ensures forall i :: 0 <= i < |deps| ==> ([a] + rest)[i].id != "" && deps[i].name < ([a] + rest)[i].name
  {
    hide AssetCopied;
    var added := [a] + rest;
    forall i | 0 <= i < |deps|
      ensures AssetCopied(deps[i], added[i]) && added[i].id != "" && deps[i].name < added[i].name
    {
      if i > 0 {
        assert deps[1..][i - 1] == deps[i] && added[i] == rest[i - 1];
      }
    }
  }

  lemma NamedAndNumberedStep(k: AssetKind, deps: seq<Asset>, s: ScenarioData, c: Counters, a: Asset, d: Counters,
                             r: Cloned, rest: seq<Asset>)
    requires deps != [] && ScenarioNames.FirstFreeCopy(a.name, deps[0].name, Names(s))
    requires IdsDrawn(AssetIds(a), OfAsset(k, deps[0]), c, d)
    requires NamedAndNumbered(k, deps[1..], s.PushAsset(k, a), d, r, rest)
    ensures NamedAndNumbered(k, deps, s, c, r, [a] + rest)
  {
    AssetNamesFront(deps);
    hide Names, IdsDrawn, NamedInTurn, Union, OfAsset, ScenarioNames.FirstFreeCopy;
    hide IdsOfAssets, AssetIds, AssetNames, ScenarioData.PushAsset, ScenarioData.Assets;
    PushAssetFacts(s, k, a);
    AssetsFront(s.Assets(k), a, rest);
    NamedFirst(deps[0].name, a.name, AssetNames(deps[1..]), AssetNames(rest), Names(s));
    IdsDrawnAppend(AssetIds(a), OfAsset(k, deps[0]), IdsOfAssets(rest), OfAssets(k, deps[1..]), c, d, r.counters);
  }

  lemma AddedStep(k: AssetKind, deps: seq<Asset>, s: ScenarioData, ids: IdMap, c: Counters, a: Asset, d: Counters,
                  r: Cloned, rest: seq<Asset>)
    requires deps != [] && AssetCopied(deps[0], a) && a.id != "" && deps[0].name < a.name
    requires ScenarioNames.FirstFreeCopy(a.name, deps[0].name, Names(s))
    requires IdsDrawn(AssetIds(a), OfAsset(k, deps[0]), c, d)
    requires Added(k, deps[1..], s.PushAsset(k, a), ids[deps[0].id := a.id], d, r, rest)
    ensures Added(k, deps, s, ids, c, r, [a] + rest)
  {
    hide Names, IdsDrawn, NamedAndNumbered, MapsTo, AssetCopied, OfAsset, ScenarioNames.FirstFreeCopy;
    hide AssetIds, ScenarioData.PushAsset, ScenarioData.Assets;
    PushAssetFacts(s, k, a);
    AssetsFront(s.Assets(k), a, rest);
    NamedAndNumberedStep(k, deps, s, c, a, d, r, rest);
    MapStep(deps, ids, a, rest, r.ids);
    CopiesFront(deps, a, rest);
    hide AssetsCopied;
  }

  lemma {:induction false} CloneAssetsFacts(k: AssetKind, deps: seq<Asset>, s: ScenarioData, ids: IdMap, c: Counters)
    returns (added: seq<Asset>)
    requires CloneAssets(k, deps, s, ids, c).Success?
    requires k != TimingKind ==> forall i :: 0 <= i < |deps| ==> deps[i].noiseEntries == []
    ensures Added(k, deps, s, ids, c, CloneAssets(k, deps, s, ids, c).value, added)
    decreases |deps|
  {
    hide Names, Added, CloneAsset, IdsDrawn, ScenarioNames.FirstFreeCopy;
    if deps == [] {
      added := [];
      AddedNone(k, s, ids, c);
    } else {
      var (a, d) := CloneAsset(k, deps[0], s, deps[0].name, c).value;
      CloneAssetFacts(k, deps[0], s, deps[0].name, c);
      var rest := CloneAssetsFacts(k, deps[1..], s.PushAsset(k, a), ids[deps[0].id := a.id], d);
      added := [a] + rest;
      AddedStep(k, deps, s, ids, c, a, d, CloneAssets(k, deps, s, ids, c).value, rest);
    }
  }

  lemma MapStep(deps: seq<Asset>, before: IdMap, a: Asset, rest: seq<Asset>, ids: IdMap)
    requires deps != [] && |rest| == |deps| - 1
    requires MapsTo(ids, before[deps[0].id := a.id], deps[1..], rest)
    ensures MapsTo(ids, before, deps, [a] + rest)
  {
    var added := [a] + rest;
    forall id
      ensures if HasId(deps, id) then id in ids && exists i: nat :: LastWithId(deps, id, i) && ids[id] == added[i].id
              else (id in ids <==> id in before) && (id in ids ==> ids[id] == before[id])
    {
      if HasId(deps[1..], id) {
        var i: nat :| LastWithId(deps[1..], id, i) && ids[id] == rest[i].id;
        assert deps[i + 1].id == id;
        assert LastWithId(deps, id, i + 1) && added[i + 1] == rest[i];
      } else {
        assert forall j :: 0 < j < |deps| ==> deps[j] == deps[1..][j - 1];
        if deps[0].id == id {
          assert LastWithId(deps, id, 0) && added[0] == a;
        }
      }
    }
  }

  lemma CloneComponentFacts(comp: Component, m: IdMaps, name: string, c: Counters)
    requires CloneComponent(comp, m, name, c).Success?
    ensures var (r, d) := CloneComponent(comp, m, name, c).value;
            ComponentCopied(comp, r, m) && r.name == name && IdsDrawn(ComponentIds(r), OfComponent(comp), c, d)
  {
    match comp
    case Monostatic(_, _, _, _, _, _, _) =>
      var (txId, d) := NextId(c, SimType.Transmitter).value;
      var (rxId, e) := NextId(d, SimType.Receiver).value;
      OneIdDrawn(c, SimType.Transmitter);
      OneIdDrawn(d, SimType.Receiver);
      assert [txId] + [rxId] == [txId, rxId];
      IdsDrawnAppend([txId], [SimType.Transmitter], [rxId], [SimType.Receiver], c, d, e);
    case Transmitter(_, _, _, _) => OneIdDrawn(c, SimType.Transmitter);
    case Receiver(_, _, _, _, _, _) => OneIdDrawn(c, SimType.Receiver);
    case Target(_, _, _) => OneIdDrawn(c, SimType.Target);
  }

  /** The warnings of a list of components: one for each reference that could not be resolved. */
  function AllMissing(items: seq<Component>, m: IdMaps): seq<string> {
    if items == [] then [] else MissingRefs(items[0], m) + AllMissing(items[1..], m)
  }

  ghost predicate ComponentsNamedAndNumbered(items: seq<Component>, names: set<string>, c: Counters, d: Counters,
                                             added: seq<Component>) {
    && NamedInTurn(ComponentNames(items), ComponentNames(added), names)
    && IdsDrawn(IdsOfComponents(added), OfComponents(items), c, d)
  }

  lemma ComponentsNamedAndNumberedStep(items: seq<Component>, names: set<string>, c: Counters, comp: Component,
                                       d: Counters, e: Counters, rest: seq<Component>)
    requires items != [] && ScenarioNames.FirstFreeCopy(comp.name, items[0].name, names)
    requires IdsDrawn(ComponentIds(comp), OfComponent(items[0]), c, d)
    requires ComponentsNamedAndNumbered(items[1..], names + {comp.name}, d, e, rest)
    ensures ComponentsNamedAndNumbered(items, names, c, e, [comp] + rest)
  {
    ComponentNamesFront(items);
    hide IdsDrawn, NamedInTurn, ComponentIds, IdsOfComponents, ComponentNames, OfComponent, ScenarioNames.FirstFreeCopy;
    ComponentsFront([], comp, rest);
    NamedFirst(items[0].name, comp.name, ComponentNames(items[1..]), ComponentNames(rest), names);
    IdsDrawnAppend(ComponentIds(comp), OfComponent(items[0]), IdsOfComponents(rest), OfComponents(items[1..]), c, d, e);
  }

  /** What cloning a list of components gives. */
  ghost predicate AddedComponents(items: seq<Component>, m: IdMaps, names: set<string>, c: Counters,
                                  r: ClonedComponents,
                                  done: seq<Component>, warnings: seq<string>, added: seq<Component>) {
    && r.components == done + added
    && ComponentsCopied(items, added, m)
    && (forall i :: 0 <= i < |items| ==> items[i].name < added[i].name)
    && ComponentsNamedAndNumbered(items, names, c, r.counters, added)
    && r.warnings == warnings + AllMissing(items, m)
  }

  lemma ComponentsFront(done: seq<Component>, comp: Component, rest: seq<Component>)
    ensures done + [comp] + rest == done + ([comp] + rest)
    ensures ComponentNames([comp] + rest) == [comp.name] + ComponentNames(rest)
    ensures IdsOfComponents([comp] + rest) == ComponentIds(comp) + IdsOfComponents(rest)
  {
    hide ComponentIds;
    assert ([comp] + rest)[1..] == rest;
  }

  lemma WarningsFront(warnings: seq<string>, items: seq<Component>, m: IdMaps)
    requires items != []
    ensures warnings + MissingRefs(items[0], m) + AllMissing(items[1..], m) == warnings + AllMissing(items, m)
  {
    hide MissingRefs;
  }

  lemma ComponentNamesFront(items: seq<Component>)
    requires items != []
    ensures ComponentNames(items) == [items[0].name] + ComponentNames(items[1..])
  {
  }

  lemma CopiedFront(items: seq<Component>, m: IdMaps, comp: Component, rest: seq<Component>)
    requires items != [] && ComponentCopied(items[0], comp, m) && ComponentsCopied(items[1..], rest, m)
    requires items[0].name < comp.name && forall i :: 0 <= i < |rest| ==> items[1..][i].name < rest[i].name
    ensures ComponentsCopied(items, [comp] + rest, m)
    ensures forall i :: 0 <= i < |items| ==> items[i].name < ([comp] + rest)[i].name
  {
    hide ComponentCopied;
    var added := [comp] + rest;
    forall i | 0 <= i < |items|
      ensures ComponentCopied(items[i], added[i], m) && items[i].name < added[i].name
    {
      if i > 0 {
        assert items[1..][i - 1] == items[i] && added[i] == rest[i - 1];
      }
    }
  }

  lemma AddedComponentsStep(items: seq<Component>, m: IdMaps, names: set<string>, c: Counters, r: ClonedComponents,
                            done: seq<Component>, warnings: seq<string>, comp: Component, d: Counters,
                            rest: seq<Component>)
    requires items != [] && ComponentCopied(items[0], comp, m)
    requires IdsDrawn(ComponentIds(comp), OfComponent(items[0]), c, d)
    requires ScenarioNames.FirstFreeCopy(comp.name, items[0].name, names) && items[0].name < comp.name
    requires AddedComponents(items[1..], m, names + {comp.name}, d, r, done + [comp],
                             warnings + MissingRefs(items[0], m), rest)
    ensures AddedComponents(items, m, names, c, r, done, warnings, [comp] + rest)
  {
    hide IdsDrawn, ComponentsNamedAndNumbered, ComponentCopied, MissingRefs, ComponentIds, IdsOfComponents;
    hide ComponentNames, AllMissing, OfComponent, ScenarioNames.FirstFreeCopy;
    ComponentsFront(done, comp, rest);
    ComponentsNamedAndNumberedStep(items, names, c, comp, d, r.counters, rest);
    WarningsFront(warnings, items, m);
    CopiedFront(items, m, comp, rest);
    hide ComponentsCopied;
  }

  lemma {:induction false} CloneComponentsFacts(items: seq<Component>, m: IdMaps, names: set<string>,
                                                done: seq<Component>,
                                                warnings: seq<string>, c: Counters) returns (added: seq<Component>)
    requires CloneComponents(items, m, names, done, warnings, c).Success?
    ensures AddedComponents(items, m, names, c, CloneComponents(items, m, names, done, warnings, c).value, done,
                            warnings, added)
    decreases |items|
  {
    hide CloneComponent, MissingRefs, IdsDrawn, ComponentCopied, ScenarioNames.FirstFreeCopy;
    if items == [] {
      added := [];
      NoIdsDrawn(c);
      assert done + [] == done && warnings + [] == warnings && ComponentNames([]) == [];
    } else {
      var name := ScenarioNames.UniqueCopyName(items[0].name, names);
      var (comp, d) := CloneComponent(items[0], m, name, c).value;
      CloneComponentFacts(items[0], m, name, c);
      var rest := CloneComponentsFacts(items[1..], m, names + {name}, done + [comp],
                                       warnings + MissingRefs(items[0], m), d);
      added := [comp] + rest;
      AddedComponentsStep(items, m, names, c, CloneComponents(items, m, names, done, warnings, c).value, done, warnings,
                          comp, d, rest);
    }
  }

  // ---------- a whole insertion ----------

  function FrameIds(p: Platform): seq<string> {
    [p.id] + EntryIds(p.waypoints) + RotationIds(p.rotation)
  }

  lemma CloneRotationFacts(r: Rotation, c: Counters)
    requires CloneRotation(r, c).Success?
    ensures RotationCopied(r, CloneRotation(r, c).value.0)
    ensures IdsDrawn(RotationIds(CloneRotation(r, c).value.0), OfRotation(r), c, CloneRotation(r, c).value.1)
  {
    match r
    case Fixed(_) => NoIdsDrawn(c);
    case Path(_, waypoints) =>
      CloneEntriesFacts(waypoints, SimType.Platform, c, []);
      var copies := CloneEntries(waypoints, SimType.Platform, c, []).value.0;
      assert copies[0..] == copies;
  }

  ghost predicate FrameCopied(p: Platform, q: Platform) {
    && q.interpolation == p.interpolation && EntriesCopied(p.waypoints, q.waypoints)
    && RotationCopied(p.rotation, q.rotation)
    && q.pathPoints == None && q.rotationPathPoints == None
  }

  lemma CloneFrameFacts(p: Platform, c: Counters)
    requires CloneFrame(p, c).Success?
    ensures FrameCopied(p, CloneFrame(p, c).value.0)
    ensures IdsDrawn(FrameIds(CloneFrame(p, c).value.0), OfFrame(p), c, CloneFrame(p, c).value.1)
  {
    hide IdsDrawn, OfEntries, OfRotation;
    var (id, d) := NextId(c, SimType.Platform).value;
    var (waypoints, e) := CloneEntries(p.waypoints, SimType.Platform, d, []).value;
    var (rotation, f) := CloneRotation(p.rotation, e).value;
    OneIdDrawn(c, SimType.Platform);
    CloneEntriesFacts(p.waypoints, SimType.Platform, d, []);
    assert waypoints[0..] == waypoints;
    CloneRotationFacts(p.rotation, e);
    IdsDrawnAppend(EntryIds(waypoints), OfEntries(p.waypoints, SimType.Platform), RotationIds(rotation),
                   OfRotation(p.rotation), d, e, f);
    IdsDrawnAppend([id], [SimType.Platform], EntryIds(waypoints) + RotationIds(rotation),
                   OfEntries(p.waypoints, SimType.Platform) + OfRotation(p.rotation), c, d, f);
    assert [id] + (EntryIds(waypoints) + RotationIds(rotation)) == [id] + EntryIds(waypoints) + RotationIds(rotation);
  }

  /** The assets and components an insertion added, and the maps it used for references. */
  datatype Additions = Additions(waveforms: seq<Asset>, timings: seq<Asset>, antennas: seq<Asset>, platform: Platform,
                                 maps: IdMaps)
  {
    function Of(k: AssetKind): seq<Asset> {
      match k
      case WaveformKind => waveforms
      case TimingKind => timings
      case AntennaKind => antennas
    }

    function NewNames(): seq<string> {
      AssetNames(waveforms) + AssetNames(timings) + AssetNames(antennas) + [platform.name]
      + ComponentNames(platform.components)
    }

    function NewIds(): seq<string> {
      IdsOfAssets(waveforms) + IdsOfAssets(timings) + IdsOfAssets(antennas) + PlatformIds(platform)
    }
  }

  /** The names the copies are named after, in the order of `NewNames`: the platform's is the template's. */
  function BaseNames(t: Template): seq<string>
    requires t.PlatformTemplate?
  {
    AssetNames(t.dependencies.waveforms) + AssetNames(t.dependencies.timings) + AssetNames(t.dependencies.antennas)
    + [t.name] + ComponentNames(t.platform.components)
  }

  /** Only timing sources have noise entries, as the schema says. */
  ghost predicate WellTyped(t: Template) {
    t.PlatformTemplate? ==>
      forall k, i :: k != TimingKind && 0 <= i < |t.dependencies.Of(k)| ==> t.dependencies.Of(k)[i].noiseEntries == []
  }

  ghost predicate PlatformInserted(s: ScenarioData, t: Template, c: Counters, r: Inserted, o: Additions)
    requires t.PlatformTemplate?
  {
    && r.scenario.globals == s.globals
    && (forall k :: r.scenario.Assets(k) == s.Assets(k) + o.Of(k))
    && r.scenario.platforms == SanitizedAll(s.platforms) + [o.platform]
    && r.itemId == o.platform.id && r.name == o.platform.name
    && FrameCopied(t.platform, o.platform)
    && (forall k :: AssetsCopied(t.dependencies.Of(k), o.Of(k)))
    && (forall k :: MapsTo(o.maps.Of(k), map[], t.dependencies.Of(k), o.Of(k)))
    && (forall k, i :: 0 <= i < |o.Of(k)| ==> o.Of(k)[i].id != "" && t.dependencies.Of(k)[i].name < o.Of(k)[i].name)
    && ComponentsCopied(t.platform.components, o.platform.components, o.maps)
    && (forall i :: 0 <= i < |t.platform.components| ==> t.platform.components[i].name < o.platform.components[i].name)
    && r.warnings == AllMissing(t.platform.components, o.maps)
    && NamedInTurn(BaseNames(t), o.NewNames(), Names(s)) && FreshNames(o.NewNames(), Names(s))
    && IdsDrawn(o.NewIds(), OfTemplate(t), c, r.counters) && FreshIds(o.NewIds(), c, r.counters)
  }

  lemma SanitizedNames(s: ScenarioData)
    ensures Names(Base(s)) == Names(s)
  {
    hide Named, ComponentNames;
    forall n
      ensures Named(Base(s), n) <==> Named(s, n)
    {
      StillNamed(s, Base(s), n);
      StillNamed(Base(s), s, n);
    }
  }

  lemma StillNamed(s: ScenarioData, t: ScenarioData, n: string)
    requires s.waveforms == t.waveforms && s.timings == t.timings && s.antennas == t.antennas
    requires |s.platforms| == |t.platforms|
    requires forall i | 0 <= i < |s.platforms| ::
               t.platforms[i].name == s.platforms[i].name && t.platforms[i].components == s.platforms[i].components
    ensures Named(s, n) ==> Named(t, n)
  {
    hide ComponentNames;
    if k, i :| 0 <= i < |s.Assets(k)| && s.Assets(k)[i].name == n {
      assert t.Assets(k)[i].name == n;
    } else if i :| 0 <= i < |s.platforms|
                   && (s.platforms[i].name == n || n in ComponentNames(s.platforms[i].components)) {
      assert t.platforms[i].name == n || n in ComponentNames(t.platforms[i].components);
    }
  }

  lemma NewNamesInTurn(taken: set<string>, w': seq<string>, w: seq<string>, t': seq<string>, t: seq<string>,
                       a': seq<string>, a: seq<string>, base: string, name: string, comps': seq<string>,
                       comps: seq<string>)
    requires NamedInTurn(w', w, taken) && NamedInTurn(t', t, Union(taken, w))
    requires NamedInTurn(a', a, Union(Union(taken, w), t))
    requires ScenarioNames.FirstFreeCopy(name, base, Union(Union(Union(taken, w), t), a))
    requires NamedInTurn(comps', comps, Union(Union(Union(taken, w), t), a) + {name})
    ensures NamedInTurn(w' + t' + a' + [base] + comps', w + t + a + [name] + comps, taken)
  {
    hide NamedInTurn, Union, ScenarioNames.FirstFreeCopy;
    NamedFirst(base, name, comps', comps, Union(Union(Union(taken, w), t), a));
    NamedAppend(w', w, t', t, taken);
    NamedAppend(w' + t', w + t, a', a, taken);
    NamedAppend(w' + t' + a', w + t + a, [base] + comps', [name] + comps, taken);
    assert w + t + a + ([name] + comps) == w + t + a + [name] + comps;
    assert w' + t' + a' + ([base] + comps') == w' + t' + a' + [base] + comps';
  }

  lemma NewIdsInTurn(w: seq<string>, w': seq<SimType>, t: seq<string>, t': seq<SimType>, a: seq<string>,
                     a': seq<SimType>, frame: seq<string>, frame': seq<SimType>, comps: seq<string>,
                     comps': seq<SimType>, c: Counters, c1: Counters, c2: Counters, c3: Counters, c4: Counters,
                     c5: Counters)
    requires IdsDrawn(w, w', c, c1) && IdsDrawn(t, t', c1, c2) && IdsDrawn(a, a', c2, c3)
    requires IdsDrawn(frame, frame', c3, c4) && IdsDrawn(comps, comps', c4, c5)
    ensures IdsDrawn(w + t + a + (frame + comps), w' + (t' + (a' + (frame' + comps'))), c, c5)
  {
    hide IdsDrawn;
    IdsDrawnAppend(frame, frame', comps, comps', c3, c4, c5);
    IdsDrawnAppend(a, a', frame + comps, frame' + comps', c2, c3, c5);
    IdsDrawnAppend(t, t', a + (frame + comps), a' + (frame' + comps'), c1, c2, c5);
    IdsDrawnAppend(w, w', t + (a + (frame + comps)), t' + (a' + (frame' + comps')), c, c1, c5);
    assert w + (t + (a + (frame + comps))) == w + t + a + (frame + comps);
  }

  /** The scenario after the dependencies of all three kinds have been pushed. */
  ghost predicate DependenciesAdded(s: ScenarioData, deps: Dependencies, c: Counters, w: Cloned, ti: Cloned, an: Cloned,
                                    o: Additions) {
    && an.scenario.globals == s.globals && an.scenario.platforms == s.platforms
    && an.scenario.waveforms == s.waveforms + o.waveforms
    && an.scenario.timings == s.timings + o.timings
    && an.scenario.antennas == s.antennas + o.antennas
    && Names(an.scenario) == Union(Union(Union(Names(s), AssetNames(o.waveforms)), AssetNames(o.timings)),
                                   AssetNames(o.antennas))
    && Added(WaveformKind, deps.waveforms, s, map[], c, w, o.waveforms)
    && Added(TimingKind, deps.timings, w.scenario, map[], w.counters, ti, o.timings)
    && Added(AntennaKind, deps.antennas, ti.scenario, map[], ti.counters, an, o.antennas)
    && o.maps == IdMaps(an.ids, ti.ids, w.ids)
  }

  lemma InsertDependencies(s: ScenarioData, t: Template, c: Counters, o: Additions) returns (r: Additions)
    requires t.PlatformTemplate? && WellTyped(t) && InsertPlatform(s, t, c).Success?
    ensures var deps := t.dependencies;
            var w := CloneAssets(WaveformKind, deps.waveforms, s, map[], c).value;
            var ti := CloneAssets(TimingKind, deps.timings, w.scenario, map[], w.counters).value;
            var an := CloneAssets(AntennaKind, deps.antennas, ti.scenario, map[], ti.counters).value;
            DependenciesAdded(s, deps, c, w, ti, an, r) && r.platform == o.platform
  {
    hide Names, IdsDrawn, NamedInTurn, MapsTo, Union, CloneAssets, CloneFrame, CloneComponents, AssetsCopied;
    hide OfAssets;
    var deps := t.dependencies;
    assert deps.Of(WaveformKind) == deps.waveforms && deps.Of(AntennaKind) == deps.antennas;
    var w := CloneAssets(WaveformKind, deps.waveforms, s, map[], c).value;
    var ti := CloneAssets(TimingKind, deps.timings, w.scenario, map[], w.counters).value;
    var an := CloneAssets(AntennaKind, deps.antennas, ti.scenario, map[], ti.counters).value;
    var waveforms := CloneAssetsFacts(WaveformKind, deps.waveforms, s, map[], c);
    var timings := CloneAssetsFacts(TimingKind, deps.timings, w.scenario, map[], w.counters);
    var antennas := CloneAssetsFacts(AntennaKind, deps.antennas, ti.scenario, map[], ti.counters);
    r := Additions(waveforms, timings, antennas, o.platform, IdMaps(an.ids, ti.ids, w.ids));
    assert an.scenario.waveforms == an.scenario.Assets(WaveformKind) == ti.scenario.Assets(WaveformKind)
      == w.scenario.Assets(WaveformKind);
    assert an.scenario.timings == an.scenario.Assets(TimingKind) == ti.scenario.Assets(TimingKind);
    assert s.timings == s.Assets(TimingKind) && w.scenario.Assets(TimingKind) == s.timings;
    assert s.antennas == s.Assets(AntennaKind) && w.scenario.Assets(AntennaKind) == s.antennas
      && ti.scenario.Assets(AntennaKind) == s.antennas;
  }

  lemma AddedByKind(s: ScenarioData, deps: Dependencies, c: Counters, w: Cloned, ti: Cloned, an: Cloned, o: Additions,
                    k: AssetKind)
    requires DependenciesAdded(s, deps, c, w, ti, an, o)
    ensures an.scenario.Assets(k) == s.Assets(k) + o.Of(k) && |deps.Of(k)| == |o.Of(k)|
    ensures AssetsCopied(deps.Of(k), o.Of(k)) && MapsTo(o.maps.Of(k), map[], deps.Of(k), o.Of(k))
    ensures forall i :: 0 <= i < |o.Of(k)| ==> o.Of(k)[i].id != "" && deps.Of(k)[i].name < o.Of(k)[i].name
  {
    hide Names, IdsDrawn, NamedInTurn, MapsTo, Union, AssetCopied, OfAssets;
  }

  lemma NamesAndIdsOfAdditions(s: ScenarioData, t: Template, c: Counters, w: Cloned, ti: Cloned, an: Cloned,
                               d: Counters, e: Counters, o: Additions)
    requires t.PlatformTemplate? && DependenciesAdded(s, t.dependencies, c, w, ti, an, o)
    requires IdsDrawn(FrameIds(o.platform), OfFrame(t.platform), an.counters, d)
    requires IdsDrawn(IdsOfComponents(o.platform.components), OfComponents(t.platform.components), d, e)
    requires ScenarioNames.FirstFreeCopy(o.platform.name, t.name, Names(an.scenario))
    requires NamedInTurn(ComponentNames(t.platform.components), ComponentNames(o.platform.components),
                         Names(an.scenario) + {o.platform.name})
    ensures NamedInTurn(BaseNames(t), o.NewNames(), Names(s)) && FreshNames(o.NewNames(), Names(s))
    ensures IdsDrawn(o.NewIds(), OfTemplate(t), c, e) && FreshIds(o.NewIds(), c, e)
  {
    hide Names, IdsDrawn, NamedInTurn, MapsTo, Union, AssetsCopied, ScenarioNames.FirstFreeCopy, FreshNames, FreshIds;
    hide OfAssets, OfFrame, OfComponents;
    var deps := t.dependencies;
    NewNamesInTurn(Names(s), AssetNames(deps.waveforms), AssetNames(o.waveforms), AssetNames(deps.timings),
                   AssetNames(o.timings), AssetNames(deps.antennas), AssetNames(o.antennas), t.name, o.platform.name,
                   ComponentNames(t.platform.components), ComponentNames(o.platform.components));
    NewIdsInTurn(IdsOfAssets(o.waveforms), OfAssets(WaveformKind, deps.waveforms),
                 IdsOfAssets(o.timings), OfAssets(TimingKind, deps.timings),
                 IdsOfAssets(o.antennas), OfAssets(AntennaKind, deps.antennas),
                 FrameIds(o.platform), OfFrame(t.platform),
                 IdsOfComponents(o.platform.components), OfComponents(t.platform.components),
                 c, w.counters, ti.counters, an.counters, d, e);
    assert PlatformIds(o.platform) == FrameIds(o.platform) + IdsOfComponents(o.platform.components);
    NamedIsFresh(BaseNames(t), o.NewNames(), Names(s));
    DrawnIdsAreFresh(o.NewIds(), OfTemplate(t), c, e);
  }

  lemma PlatformFromParts(s: ScenarioData, t: Template, c: Counters, w: Cloned, ti: Cloned, an: Cloned, frame: Platform,
                          d: Counters, comps: ClonedComponents, o: Additions, r: Inserted)
    requires t.PlatformTemplate? && DependenciesAdded(Base(s), t.dependencies, c, w, ti, an, o)
    requires FrameCopied(t.platform, frame) && IdsDrawn(FrameIds(frame), OfFrame(t.platform), an.counters, d)
    requires ScenarioNames.FirstFreeCopy(r.name, t.name, Names(an.scenario))
    requires AddedComponents(t.platform.components, o.maps, Names(an.scenario) + {r.name}, d, comps, [], [],
                             o.platform.components)
    requires o.platform == frame.(name := r.name, components := comps.components)
    requires r == Inserted(an.scenario.(platforms := an.scenario.platforms + [o.platform]), frame.id, r.name,
                           comps.warnings, comps.counters)
    ensures PlatformInserted(s, t, c, r, o)
  {
    hide Names, IdsDrawn, FreshIds, NamedInTurn, FreshNames, MapsTo, Union, AssetsCopied, ComponentsCopied;
    hide FrameCopied, DependenciesAdded, AllMissing, IdsOfComponents, ComponentNames, Additions.NewNames;
    hide Additions.NewIds, Named, BaseNames, OfTemplate, OfFrame, OfComponents, ScenarioNames.FirstFreeCopy;
    SanitizedNames(s);
    FrameStays(t.platform, frame, r.name, comps.components);
    DependenciesLeaveRest(Base(s), t.dependencies, c, w, ti, an, o);
    NamesAndIdsOfAdditions(Base(s), t, c, w, ti, an, d, comps.counters, o);
    forall k
      ensures r.scenario.Assets(k) == s.Assets(k) + o.Of(k) && |t.dependencies.Of(k)| == |o.Of(k)|
      ensures AssetsCopied(t.dependencies.Of(k), o.Of(k)) && MapsTo(o.maps.Of(k), map[], t.dependencies.Of(k), o.Of(k))
      ensures forall i :: 0 <= i < |o.Of(k)| ==> o.Of(k)[i].id != "" && t.dependencies.Of(k)[i].name < o.Of(k)[i].name
    {
      AddedByKind(Base(s), t.dependencies, c, w, ti, an, o, k);
    }
    assert [] + AllMissing(t.platform.components, o.maps) == AllMissing(t.platform.components, o.maps);
  }

  lemma DependenciesLeaveRest(s: ScenarioData, deps: Dependencies, c: Counters, w: Cloned, ti: Cloned, an: Cloned,
                              o: Additions)
    requires DependenciesAdded(s, deps, c, w, ti, an, o)
    ensures an.scenario.globals == s.globals && an.scenario.platforms == s.platforms
  {
  }

  /** Everything an insertion of a platform does, for every scenario, template and state of the counters. */
  lemma InsertPlatformFacts(s: ScenarioData, t: Template, c: Counters) returns (o: Additions)
    requires t.PlatformTemplate? && WellTyped(t) && Insert(s, t, c).Success?
    ensures PlatformInserted(s, t, c, Insert(s, t, c).value, o)
  {
    hide Names, IdsDrawn, CloneAssets, CloneFrame, CloneComponents, DependenciesAdded, FrameCopied, AddedComponents;
    hide PlatformInserted, OfFrame, ScenarioNames.FirstFreeCopy;
    var deps, b := t.dependencies, Base(s);
    var w := CloneAssets(WaveformKind, deps.waveforms, b, map[], c).value;
    var ti := CloneAssets(TimingKind, deps.timings, w.scenario, map[], w.counters).value;
    var an := CloneAssets(AntennaKind, deps.antennas, ti.scenario, map[], ti.counters).value;
    var (frame, d) := CloneFrame(t.platform, an.counters).value;
    var name := ScenarioNames.UniqueCopyName(t.name, Names(an.scenario));
    var maps := IdMaps(an.ids, ti.ids, w.ids);
    var comps := CloneComponents(t.platform.components, maps, Names(an.scenario) + {name}, [], [], d).value;
    var platform := frame.(name := name, components := comps.components);
    o := InsertDependencies(b, t, c, Additions([], [], [], platform, maps));
    MapsOfDependencies(b, deps, c, w, ti, an, o);
    CloneFrameFacts(t.platform, an.counters);
    var added := CloneComponentsFacts(t.platform.components, maps, Names(an.scenario) + {name}, [], [], d);
    ComponentsFromNothing(t.platform.components, maps, Names(an.scenario) + {name}, d, comps, added);
    PlatformFromParts(s, t, c, w, ti, an, frame, d, comps, o, Insert(s, t, c).value);
  }

  lemma MapsOfDependencies(s: ScenarioData, deps: Dependencies, c: Counters, w: Cloned, ti: Cloned, an: Cloned,
                           o: Additions)
    requires DependenciesAdded(s, deps, c, w, ti, an, o)
    ensures o.maps == IdMaps(an.ids, ti.ids, w.ids)
  {
  }

  lemma ComponentsFromNothing(items: seq<Component>, m: IdMaps, names: set<string>, c: Counters, r: ClonedComponents,
                              added: seq<Component>)
    requires AddedComponents(items, m, names, c, r, [], [], added)
    ensures added == r.components
  {
    assert [] + added == added;
  }

  lemma FrameStays(p: Platform, frame: Platform, name: string, comps: seq<Component>)
    requires FrameCopied(p, frame)
    ensures FrameCopied(p, frame.(name := name, components := comps))
  {
  }

  /** Inserting a single waveform, timing source or antenna adds one copy under a fresh name and fresh ids,
      warns of nothing, and leaves prior items as they were apart from cached path points. */
  lemma InsertAssetFacts(s: ScenarioData, t: Template, c: Counters) returns (a: Asset)
    requires t.AssetTemplate? && (t.kind != TimingKind ==> t.asset.noiseEntries == []) && Insert(s, t, c).Success?
    ensures var r := Insert(s, t, c).value;
            && r.scenario.globals == s.globals && r.scenario.platforms == SanitizedAll(s.platforms)
            && (forall k :: r.scenario.Assets(k) == s.Assets(k) + (if k == t.kind then [a] else []))
            && r.itemId == a.id && r.name == a.name && r.warnings == []
            && AssetCopied(t.asset, a) && a.name !in Names(s) && Names(r.scenario) == Names(s) + {a.name}
            && ScenarioNames.FirstFreeCopy(a.name, t.name, Names(s))
            && IdsDrawn(AssetIds(a), OfTemplate(t), c, r.counters) && FreshIds(AssetIds(a), c, r.counters)
    ensures (forall j :: 0 <= j < |Ids(s)| ==> Reserved(c, Ids(s)[j])) ==>
              Distinct(AssetIds(a)) && NoneTaken(AssetIds(a), Ids(s))
  {
    hide Names, IdsDrawn, FreshIds, CloneAsset, AssetCopied, Reserved, Ids, ScenarioData.PushAsset, OfAsset;
    var (b, d) := CloneAsset(t.kind, t.asset, Base(s), t.name, c).value;
    a := b;
    CloneAssetFacts(t.kind, t.asset, Base(s), t.name, c);
    DrawnIdsAreFresh(AssetIds(a), OfTemplate(t), c, d);
    SanitizedNames(s);
    PushAssetFacts(Base(s), t.kind, a);
    if forall j :: 0 <= j < |Ids(s)| ==> Reserved(c, Ids(s)[j]) {
      FreshIdsAreNotTaken(AssetIds(a), Ids(s), c, d);
    }
  }

  // ---------- referential integrity ----------

  ghost predicate NoneTaken(ids: seq<string>, taken: seq<string>) {
    forall i, j :: 0 <= i < |ids| && 0 <= j < |taken| ==> ids[i] != taken[j]
  }

  lemma FreshIdsAreNotTaken(ids: seq<string>, taken: seq<string>, c: Counters, d: Counters)
    requires FreshIds(ids, c, d) && forall j :: 0 <= j < |taken| ==> Reserved(c, taken[j])
    ensures NoneTaken(ids, taken) && Distinct(ids)
    ensures forall i :: 0 <= i < |ids| ==> Reserved(d, ids[i])
    ensures forall j :: 0 <= j < |taken| ==> Reserved(d, taken[j])
  {
    hide Issued, Reserved, AtMost;
    forall i, j | 0 <= i < |ids| && 0 <= j < |taken|
      ensures ids[i] != taken[j]
    {
      IssuedIsNotReservedBefore(ids[i], c, d);
    }
    forall i | 0 <= i < |ids|
      ensures Reserved(d, ids[i])
    {
      IssuedIsReserved(ids[i], c, d);
    }
    forall j | 0 <= j < |taken|
      ensures Reserved(d, taken[j])
    {
      ReservedStays(c, d, taken[j]);
    }
  }

  lemma RemappedMeans(ref: Option<string>, ids: IdMap, deps: seq<Asset>, added: seq<Asset>)
    requires |deps| == |added| && MapsTo(ids, map[], deps, added)
    requires forall i :: 0 <= i < |added| ==> added[i].id != ""
    ensures Remapped(ref, ids).Some? <==> Present(ref) && HasId(deps, ref.value)
    ensures Remapped(ref, ids).Some? ==>
              exists i: nat :: LastWithId(deps, ref.value, i) && Remapped(ref, ids) == Some(added[i].id)
  {
  }

  /** The warnings, from the template alone: one for each present reference without a dependency. */
  function Unresolved(ref: Option<string>, deps: seq<Asset>, kind: string): seq<string> {
    if Present(ref) && !(exists i :: 0 <= i < |deps| && deps[i].id == ref.value) then
      ["Missing " + kind + " dependency " + ref.value + "; reference cleared."]
    else []
  }

  function AllUnresolved(items: seq<Component>, deps: Dependencies): seq<string> {
    if items == [] then []
    else
      Unresolved(RefOf(items[0], AntennaKind), deps.antennas, "antenna")
      + Unresolved(RefOf(items[0], TimingKind), deps.timings, "timing")
      + Unresolved(RefOf(items[0], WaveformKind), deps.waveforms, "waveform")
      + AllUnresolved(items[1..], deps)
  }

  lemma MissingIsUnresolved(ref: Option<string>, ids: IdMap, deps: seq<Asset>, added: seq<Asset>, k: AssetKind)
    requires |deps| == |added| && MapsTo(ids, map[], deps, added)
    requires forall i :: 0 <= i < |added| ==> added[i].id != ""
    ensures Missing(ref, ids, k) == Unresolved(ref, deps, Label(k))
  {
    hide MapsTo;
    RemappedMeans(ref, ids, deps, added);
  }

  lemma {:induction false} WarningsAreUnresolved(items: seq<Component>, deps: Dependencies, o: Additions)
    requires forall k :: |deps.Of(k)| == |o.Of(k)| && MapsTo(o.maps.Of(k), map[], deps.Of(k), o.Of(k))
    requires forall k, i :: 0 <= i < |o.Of(k)| ==> o.Of(k)[i].id != ""
    ensures AllMissing(items, o.maps) == AllUnresolved(items, deps)
  {
    hide MapsTo, Missing, Unresolved;
    if items != [] {
      var r := RefsOf(items[0]);
      assert deps.Of(AntennaKind) == deps.antennas && deps.Of(TimingKind) == deps.timings
        && deps.Of(WaveformKind) == deps.waveforms;
      MissingIsUnresolved(r.antennaId, o.maps.Of(AntennaKind), deps.antennas, o.Of(AntennaKind), AntennaKind);
      MissingIsUnresolved(r.timingId, o.maps.Of(TimingKind), deps.timings, o.Of(TimingKind), TimingKind);
      MissingIsUnresolved(r.waveformId, o.maps.Of(WaveformKind), deps.waveforms, o.Of(WaveformKind), WaveformKind);
      WarningsAreUnresolved(items[1..], deps, o);
    }
  }

  /** For every scenario and template: prior items stay as they were apart from cached path points; new names
      are pairwise different and clash with nothing; so are new ids, when the counters are past every id
      of the scenario; each reference of the inserted platform is empty or names an asset this insertion
      added; and there is one warning for each reference the template's dependencies do not resolve. */
  lemma InsertionKeepsIntegrity(s: ScenarioData, t: Template, c: Counters) returns (o: Additions)
    requires t.PlatformTemplate? && WellTyped(t) && Insert(s, t, c).Success?
    ensures var r := Insert(s, t, c).value;
            && r.scenario.globals == s.globals
            && (forall k :: r.scenario.Assets(k) == s.Assets(k) + o.Of(k))
            && r.scenario.platforms == SanitizedAll(s.platforms) + [o.platform]
            && r.itemId == o.platform.id && r.name == o.platform.name
            && FreshNames(o.NewNames(), Names(s))
            && r.warnings == AllUnresolved(t.platform.components, t.dependencies)
            && |o.platform.components| == |t.platform.components|
            && (forall i, k :: 0 <= i < |o.platform.components| ==>
                  var ref := RefOf(o.platform.components[i], k);
                  var was := RefOf(t.platform.components[i], k);
                  && (ref.Some? <==> Present(was) && HasId(t.dependencies.Of(k), was.value))
                  && (ref.Some? ==> HasId(o.Of(k), ref.value)))
    ensures (forall j :: 0 <= j < |Ids(s)| ==> Reserved(c, Ids(s)[j])) ==>
              Distinct(o.NewIds()) && NoneTaken(o.NewIds(), Ids(s))
    ensures (forall j :: 0 <= j < |Ids(s)| ==> Reserved(c, Ids(s)[j])) ==>
              forall i :: 0 <= i < |o.NewIds()| ==> Reserved(Insert(s, t, c).value.counters, o.NewIds()[i])
  {
    o := InsertPlatformFacts(s, t, c);
    hide Names, FreshIds, FreshNames, Insert, AssetsCopied, FrameCopied, MapsTo, Reserved, Ids, Additions.NewIds;
    hide Additions.NewNames;
    WarningsAreUnresolved(t.platform.components, t.dependencies, o);
    forall i, k | 0 <= i < |o.platform.components|
      ensures var ref := RefOf(o.platform.components[i], k);
              var was := RefOf(t.platform.components[i], k);
              && (ref.Some? <==> Present(was) && HasId(t.dependencies.Of(k), was.value))
              && (ref.Some? ==> HasId(o.Of(k), ref.value))
    {
      ReferenceMeans(s, t, c, Insert(s, t, c).value, o, i, k);
    }
    if forall j :: 0 <= j < |Ids(s)| ==> Reserved(c, Ids(s)[j]) {
      FreshIdsAreNotTaken(o.NewIds(), Ids(s), c, Insert(s, t, c).value.counters);
    }
  }

  /** Where one reference of the inserted platform leads. */
  lemma ReferenceMeans(s: ScenarioData, t: Template, c: Counters, r: Inserted, o: Additions, i: nat, k: AssetKind)
    requires t.PlatformTemplate? && PlatformInserted(s, t, c, r, o)
    requires i < |t.platform.components|
    ensures |t.dependencies.Of(k)| == |o.Of(k)| && i < |o.platform.components|
    ensures var ref := RefOf(o.platform.components[i], k);
            var was := RefOf(t.platform.components[i], k);
            && (ref.Some? <==> Present(was) && HasId(t.dependencies.Of(k), was.value))
            && (ref.Some? ==> HasId(o.Of(k), ref.value))
            && (ref.Some? ==>
                  exists j: nat :: LastWithId(t.dependencies.Of(k), was.value, j) && ref.value == o.Of(k)[j].id)
  {
    hide Names, FreshIds, FreshNames, FrameCopied, MapsTo;
    var was := RefOf(t.platform.components[i], k);
    assert ComponentCopied(t.platform.components[i], o.platform.components[i], o.maps);
    assert RefOf(o.platform.components[i], k) == Remapped(was, o.maps.Of(k));
    RemappedMeans(was, o.maps.Of(k), t.dependencies.Of(k), o.Of(k));
  }

  // ---------- saving, then inserting ----------

  lemma {:induction false} FindAssetFacts(items: seq<Asset>, id: string)
    ensures FindAsset(items, id).Some? <==> HasId(items, id)
    ensures FindAsset(items, id).Some? ==> FindAsset(items, id).value in items && FindAsset(items, id).value.id == id
  {
    if items != [] {
      FindAssetFacts(items[1..], id);
      assert items[0] in items;
      if HasId(items, id) && items[0].id != id {
        var i :| 0 <= i < |items| && items[i].id == id;
        assert items[1..][i - 1].id == id;
      }
      if HasId(items[1..], id) {
        var i :| 0 <= i < |items[1..]| && items[1..][i].id == id;
        assert items[i + 1].id == id;
      }
    }
  }

  /** A saved list of dependencies holds, once each, the first item of every wanted id. */
  lemma {:induction false} SelectedFacts(items: seq<Asset>, wanted: set<string>, id: string)
    ensures FindAsset(Selected(items, wanted), id) == if id in wanted then FindAsset(items, id) else None
    ensures forall i, j :: 0 <= i < j < |Selected(items, wanted)| ==>
              Selected(items, wanted)[i].id != Selected(items, wanted)[j].id
    ensures forall a :: a in Selected(items, wanted) ==> a in items
  {
    if items != [] {
      var init, last := items[..|items| - 1], items[|items| - 1];
      var before := Selected(init, wanted);
      SelectedFacts(init, wanted, id);
      SelectedFacts(init, wanted, last.id);
      assert items == init + [last];
      FindInExtension(init, last);
      FindInExtension(before, last);
      FindAssetFacts(before, last.id);
    }
  }

  ghost predicate FirstWithId(items: seq<Asset>, id: string, i: nat) {
    && i < |items| && items[i].id == id
    && (forall j :: 0 <= j < i ==> items[j].id != id)
  }

  /** The selected items stand at increasing places, each the first with a wanted id, and none is left out. */
  ghost predicate SelectedAt(items: seq<Asset>, wanted: set<string>, kept: seq<Asset>, places: seq<nat>) {
    && |places| == |kept|
    && (forall i, j :: 0 <= i < j < |places| ==> places[i] < places[j])
    && (forall i :: 0 <= i < |places| ==> places[i] < |items| && kept[i] == items[places[i]])
    && (forall i: nat :: i in places <==> i < |items| && items[i].id in wanted && FirstWithId(items, items[i].id, i))
  }

  lemma {:induction false} SelectedInOrder(items: seq<Asset>, wanted: set<string>) returns (places: seq<nat>)
    ensures SelectedAt(items, wanted, Selected(items, wanted), places)
  {
    hide FirstWithId, FindAsset, SelectedAt;
    if items == [] {
      places := [];
      NothingSelected(wanted);
    } else {
      var init, last := items[..|items| - 1], items[|items| - 1];
      var before := SelectedInOrder(init, wanted);
      var kept := Selected(init, wanted);
      SelectedFacts(init, wanted, last.id);
      FindAssetFacts(init, last.id);
      places := if last.id in wanted && FindAsset(kept, last.id).None? then before + [|items| - 1] else before;
      SelectedStep(items, wanted, kept, before);
    }
  }

  lemma NothingSelected(wanted: set<string>)
    ensures SelectedAt([], wanted, [], [])
  {
  }

  lemma SelectedStep(items: seq<Asset>, wanted: set<string>, kept: seq<Asset>, places: seq<nat>)
    requires items != [] && SelectedAt(items[..|items| - 1], wanted, kept, places)
    ensures var last := items[|items| - 1];
            if last.id in wanted && !HasId(items[..|items| - 1], last.id)
            then SelectedAt(items, wanted, kept + [last], places + [|items| - 1])
            else SelectedAt(items, wanted, kept, places)
  {
    FirstInPrefix(items);
    hide FirstWithId, HasId;
    var init, last := items[..|items| - 1], |items| - 1;
    assert forall i :: i in places ==> i < |init|;
    forall i: nat
      ensures i < |items| && items[i].id in wanted && FirstWithId(items, items[i].id, i)
              <==> i in places || (i == last && items[last].id in wanted && !HasId(init, items[last].id))
    {
      if i < |init| {
        assert init[i] == items[i];
      }
    }
  }

  lemma FirstInPrefix(items: seq<Asset>)
    requires items != []
    ensures var init, last := items[..|items| - 1], items[|items| - 1];
            && (forall i, id :: 0 <= i < |init| ==> (FirstWithId(init, id, i) <==> FirstWithId(items, id, i)))
            && (FirstWithId(items, last.id, |items| - 1) <==> !HasId(init, last.id))
  {
    var init, last := items[..|items| - 1], items[|items| - 1];
    assert forall i :: 0 <= i < |init| ==> init[i] == items[i];
    if HasId(init, last.id) {
      var i :| 0 <= i < |init| && init[i].id == last.id;
      assert items[i].id == last.id;
    }
  }

  lemma {:induction false} FindIsFirst(items: seq<Asset>, id: string) returns (i: nat)
    ensures HasId(items, id) ==> FirstWithId(items, id, i) && FindAsset(items, id) == Some(items[i])
    ensures !HasId(items, id) ==> FindAsset(items, id) == None
  {
    i := 0;
    FindAssetFacts(items, id);
    if items != [] && items[0].id != id {
      var j := FindIsFirst(items[1..], id);
      i := j + 1;
      FindAssetFacts(items[1..], id);
    }
  }

  ghost predicate PlatformHasId(items: seq<Platform>, id: string) {
    exists i :: 0 <= i < |items| && items[i].id == id
  }

  lemma {:induction false} FindPlatformIsFirst(items: seq<Platform>, id: string) returns (i: nat)
    ensures FindPlatform(items, id).Some? <==> PlatformHasId(items, id)
    ensures PlatformHasId(items, id) ==>
              && i < |items| && items[i].id == id && FindPlatform(items, id) == Some(items[i])
              && forall j :: 0 <= j < i ==> items[j].id != id
  {
    i := 0;
    if items != [] && items[0].id != id {
      var j := FindPlatformIsFirst(items[1..], id);
      i := j + 1;
      if k :| 0 <= k < |items| && items[k].id == id {
        assert items[1..][k - 1].id == id;
      }
      if k :| 0 <= k < |items[1..]| && items[1..][k].id == id {
        assert items[k + 1].id == id;
      }
    }
  }

  /** What saving an item gives: the first waveform with its id as it is, or else the first such timing source, or else
      the first such antenna, or else the first such platform without its cached points; always under
      the item's own name. */
  lemma SaveFacts(s: ScenarioData, itemId: string) returns (i: nat)
    ensures match Save(s, itemId)
            case None => (forall k :: !HasId(s.Assets(k), itemId)) && !PlatformHasId(s.platforms, itemId)
            case Some(AssetTemplate(k, name, a)) =>
              && FirstWithId(s.Assets(k), itemId, i) && a == s.Assets(k)[i] && name == a.name
              && (k == TimingKind ==> !HasId(s.waveforms, itemId))
              && (k == AntennaKind ==> !HasId(s.waveforms, itemId) && !HasId(s.timings, itemId))
            case Some(PlatformTemplate(name, p, _)) =>
              && (forall k :: !HasId(s.Assets(k), itemId))
              && i < |s.platforms| && s.platforms[i].id == itemId
              && (forall j :: 0 <= j < i ==> s.platforms[j].id != itemId)
              && p == s.platforms[i].(pathPoints := None, rotationPathPoints := None) && name == s.platforms[i].name
  {
    hide FindAsset, HasId, DependenciesOf, FirstWithId;
    var w := FindIsFirst(s.waveforms, itemId);
    var t := FindIsFirst(s.timings, itemId);
    var a := FindIsFirst(s.antennas, itemId);
    var p := FindPlatformIsFirst(s.platforms, itemId);
    i := if HasId(s.waveforms, itemId) then w else if HasId(s.timings, itemId) then t
         else if HasId(s.antennas, itemId) then a else p;
  }

  lemma DistinctParts(a: seq<string>, b: seq<string>, c: seq<string>)
    requires Distinct(a + b + c)
    ensures Distinct(b)
  {
    assert forall i :: 0 <= i < |b| ==> b[i] == (a + b + c)[|a| + i];
  }

  lemma {:induction false} DistinctAssetIds(items: seq<Asset>, i: nat, j: nat)
    requires i < j < |items| && Distinct(IdsOfAssets(items))
    ensures items[i].id != items[j].id
  {
    var head, tail := AssetIds(items[0]), IdsOfAssets(items[1..]);
    if i == 0 {
      var p := PlaceOfId(items[1..], j - 1);
      assert IdsOfAssets(items)[0] == items[0].id && IdsOfAssets(items)[|head| + p] == tail[p];
    } else {
      assert IdsOfAssets(items) == head + tail + [];
      DistinctParts(head, tail, []);
      DistinctAssetIds(items[1..], i - 1, j - 1);
    }
  }

  lemma {:induction false} PlaceOfId(items: seq<Asset>, i: nat) returns (p: nat)
    requires i < |items|
    ensures p < |IdsOfAssets(items)| && IdsOfAssets(items)[p] == items[i].id
  {
    if i == 0 {
      p := 0;
    } else {
      var q := PlaceOfId(items[1..], i - 1);
      p := |AssetIds(items[0])| + q;
    }
  }

  lemma AddedIdsAreDistinct(o: Additions, k: AssetKind)
    requires Distinct(o.NewIds())
    ensures Distinct(IdsOfAssets(o.Of(k)))
  {
    hide IdsOfAssets, PlatformIds, Distinct;
    DistinctQuarters(IdsOfAssets(o.waveforms), IdsOfAssets(o.timings), IdsOfAssets(o.antennas),
                     PlatformIds(o.platform));
  }

  lemma DistinctQuarters(w: seq<string>, t: seq<string>, a: seq<string>, p: seq<string>)
    requires Distinct(w + t + a + p)
    ensures Distinct(w) && Distinct(t) && Distinct(a)
  {
    hide Distinct;
    assert w + t + a + p == [] + w + (t + a + p) by {
      FirstQuarter(w, t, a, p);
    }
    DistinctParts([], w, t + a + p);
    assert w + t + a + p == w + t + (a + p) by {
      SecondQuarter(w + t, a, p);
    }
    DistinctParts(w, t, a + p);
    DistinctParts(w + t, a, p);
  }

  lemma FirstQuarter(w: seq<string>, t: seq<string>, a: seq<string>, p: seq<string>)
    ensures w + t + a + p == [] + w + (t + a + p)
  {
  }

  lemma SecondQuarter(w: seq<string>, a: seq<string>, p: seq<string>)
    ensures w + a + p == w + (a + p)
  {
  }

  /** Every reference of the platform is empty or resolves in its scenario. */
  ghost predicate Closed(s: ScenarioData, p: Platform) {
    forall i, k :: 0 <= i < |p.components| && Present(RefOf(p.components[i], k)) ==>
      HasId(s.Assets(k), RefOf(p.components[i], k).value)
  }

  ghost predicate ScenarioWellTyped(s: ScenarioData) {
    forall k, a :: k != TimingKind && a in s.Assets(k) ==> a.noiseEntries == []
  }

  lemma DependencyOfReference(s: ScenarioData, p: Platform, i: nat, k: AssetKind)
    requires i < |p.components| && Present(RefOf(p.components[i], k))
    ensures FindAsset(DependenciesOf(p, s).Of(k), RefOf(p.components[i], k).value)
            == FindAsset(s.Assets(k), RefOf(p.components[i], k).value)
  {
    SelectedFacts(s.Assets(k), WantedIds(p.components, k), RefOf(p.components[i], k).value);
  }

  lemma DependenciesAreUnique(s: ScenarioData, p: Platform, k: AssetKind)
    ensures forall i, j :: 0 <= i < j < |DependenciesOf(p, s).Of(k)| ==>
              DependenciesOf(p, s).Of(k)[i].id != DependenciesOf(p, s).Of(k)[j].id
    ensures forall a :: a in DependenciesOf(p, s).Of(k) ==> a in s.Assets(k)
  {
    SelectedFacts(s.Assets(k), WantedIds(p.components, k), "");
  }

  lemma {:induction false} NothingUnresolved(items: seq<Component>, deps: Dependencies)
    requires forall i, k :: 0 <= i < |items| && Present(RefOf(items[i], k)) ==>
               HasId(deps.Of(k), RefOf(items[i], k).value)
    ensures AllUnresolved(items, deps) == []
  {
    if items != [] {
      assert deps.Of(AntennaKind) == deps.antennas && deps.Of(TimingKind) == deps.timings
        && deps.Of(WaveformKind) == deps.waveforms;
      assert forall k :: Present(RefOf(items[0], k)) ==> HasId(deps.Of(k), RefOf(items[0], k).value);
      forall i, k | 0 <= i < |items[1..]| && Present(RefOf(items[1..][i], k))
        ensures HasId(deps.Of(k), RefOf(items[1..][i], k).value)
      {
        assert items[1..][i] == items[i + 1];
      }
      NothingUnresolved(items[1..], deps);
    }
  }

  /** One reference of the saved platform and its counterpart in the inserted copy: both empty, or the
      copy leads to a copy of the asset the original led to. */
  ghost predicate ReferenceCopied(source: ScenarioData, was: Option<string>, now: Option<string>, k: AssetKind,
                                  added: seq<Asset>) {
    && (Present(was) <==> now.Some?)
    && (now.Some? ==>
          FindAsset(source.Assets(k), was.value).Some?
          && exists j :: 0 <= j < |added| && added[j].id == now.value
               && AssetCopied(FindAsset(source.Assets(k), was.value).value, added[j]))
  }

  lemma SavedReference(source: ScenarioData, p: Platform, target: ScenarioData, t: Template, c: Counters, r: Inserted,
                       o: Additions, i: nat, k: AssetKind)
      returns (j: nat)
    requires Closed(source, p) && t == PlatformTemplate(p.name, Sanitized(p), DependenciesOf(p, source))
    requires PlatformInserted(target, t, c, r, o) && i < |p.components|
    ensures |o.Of(k)| == |t.dependencies.Of(k)| && |o.platform.components| == |p.components|
    ensures ReferenceCopied(source, RefOf(p.components[i], k), RefOf(o.platform.components[i], k), k, o.Of(k))
    ensures RefOf(o.platform.components[i], k).Some? ==>
              && j < |o.Of(k)| && t.dependencies.Of(k)[j].id == RefOf(p.components[i], k).value
              && o.Of(k)[j].id == RefOf(o.platform.components[i], k).value
  {
    hide FreshIds, FreshNames, Names, FrameCopied, AssetCopied, DependenciesOf, MapsTo, PlatformInserted;
    ReferenceMeans(target, t, c, r, o, i, k);
    AssetsOfKind(target, t, c, r, o, k);
    var was, now := RefOf(p.components[i], k), RefOf(o.platform.components[i], k);
    var deps := t.dependencies.Of(k);
    j := 0;
    if Present(was) {
      FindAssetFacts(source.Assets(k), was.value);
      DependencyOfReference(source, p, i, k);
      FindAssetFacts(deps, was.value);
      j :| LastWithId(deps, was.value, j) && now.value == o.Of(k)[j].id;
      var found := FindAsset(deps, was.value).value;
      var l :| 0 <= l < |deps| && deps[l] == found;
      DependenciesAreUnique(source, p, k);
      assert l == j;
      assert AssetCopied(deps[j], o.Of(k)[j]);
    }
  }

  lemma AssetsOfKind(s: ScenarioData, t: Template, c: Counters, r: Inserted, o: Additions, k: AssetKind)
    requires t.PlatformTemplate? && PlatformInserted(s, t, c, r, o)
    ensures AssetsCopied(t.dependencies.Of(k), o.Of(k))
    ensures |t.platform.components| == |o.platform.components|
  {
  }

  // ---------- looking a copied reference up in the scenario that results ----------

  lemma {:induction false} FindAppended(items: seq<Asset>, added: seq<Asset>, j: nat)
    requires j < |added|
    requires forall i :: 0 <= i < |items| ==> items[i].id != added[j].id
    requires forall i :: 0 <= i < |added| && i != j ==> added[i].id != added[j].id
    ensures FindAsset(items + added, added[j].id) == Some(added[j])
    decreases |items|, j
  {
    if items == [] {
      assert items + added == added;
      if j > 0 {
        FindAppended([], added[1..], j - 1);
        assert [] + added[1..] == added[1..];
      }
    } else {
      assert (items + added)[0] == items[0] && (items + added)[1..] == items[1..] + added;
      FindAppended(items[1..], added, j);
    }
  }

  lemma IdOfAssetIsListed(s: ScenarioData, k: AssetKind, i: nat)
    requires i < |s.Assets(k)|
    ensures s.Assets(k)[i].id in Ids(s)
  {
    hide IdsOfAssets, IdsOfPlatforms;
    var p := PlaceOfId(s.Assets(k), i);
    assert s.Assets(k)[i].id in IdsOfAssets(s.Assets(k));
  }

  lemma IdOfCopyIsNew(o: Additions, k: AssetKind, j: nat)
    requires j < |o.Of(k)|
    ensures o.Of(k)[j].id in o.NewIds()
  {
    hide IdsOfAssets, PlatformIds;
    var p := PlaceOfId(o.Of(k), j);
    assert o.Of(k)[j].id in IdsOfAssets(o.Of(k));
  }

  /** The asset that a reference of the copied platform finds in the resulting scenario is the copy of the asset the
      original reference found in the source. */
  ghost predicate ReferenceResolved(source: ScenarioData, was: Option<string>, now: Option<string>, k: AssetKind,
                                    end: ScenarioData, added: seq<Asset>) {
    now.Some? ==>
      && was.Some? && FindAsset(source.Assets(k), was.value).Some?
      && FindAsset(end.Assets(k), now.value).Some?
      && FindAsset(end.Assets(k), now.value).value in added
      && AssetCopied(FindAsset(source.Assets(k), was.value).value, FindAsset(end.Assets(k), now.value).value)
  }

  lemma CopyIsFound(source: ScenarioData, p: Platform, target: ScenarioData, t: Template, c: Counters, r: Inserted,
                    o: Additions, i: nat, k: AssetKind)
    requires Closed(source, p) && t == PlatformTemplate(p.name, Sanitized(p), DependenciesOf(p, source))
    requires PlatformInserted(target, t, c, r, o) && i < |p.components|
    requires forall j :: 0 <= j < |Ids(target)| ==> Reserved(c, Ids(target)[j])
    ensures |o.platform.components| == |p.components|
    ensures ReferenceResolved(source, RefOf(p.components[i], k), RefOf(o.platform.components[i], k), k, r.scenario,
                              o.Of(k))
  {
    hide Ids, FreshIds, Reserved, Additions.NewIds, AssetCopied, DependenciesOf, PlatformInserted, Closed;
    var j := SavedReference(source, p, target, t, c, r, o, i, k);
    CopiesAreAppended(target, t, c, r, o, k);
    FreshIdsAreNotTaken(o.NewIds(), Ids(target), c, r.counters);
    if RefOf(o.platform.components[i], k).Some? {
      hide RefOf;
      CopyStandsAlone(target, t, c, r, o, k, j);
      FindAppended(target.Assets(k), o.Of(k), j);
      AssetOfCopy(source, p, target, t, c, r, o, i, k, j);
    }
  }

  lemma CopiesAreAppended(target: ScenarioData, t: Template, c: Counters, r: Inserted, o: Additions, k: AssetKind)
    requires t.PlatformTemplate? && PlatformInserted(target, t, c, r, o)
    ensures r.scenario.Assets(k) == target.Assets(k) + o.Of(k) && FreshIds(o.NewIds(), c, r.counters)
  {
    hide FreshIds, FreshNames, Names, AssetCopied, FrameCopied, MapsTo, Additions.NewIds;
  }

  /** The copy a reference leads to is a copy of what the original reference found. */
  lemma AssetOfCopy(source: ScenarioData, p: Platform, target: ScenarioData, t: Template, c: Counters, r: Inserted,
                    o: Additions, i: nat, k: AssetKind, j: nat)
    requires Closed(source, p) && t == PlatformTemplate(p.name, Sanitized(p), DependenciesOf(p, source))
    requires PlatformInserted(target, t, c, r, o) && i < |p.components| && |o.platform.components| == |p.components|
    requires ReferenceCopied(source, RefOf(p.components[i], k), RefOf(o.platform.components[i], k), k, o.Of(k))
    requires RefOf(o.platform.components[i], k).Some? && j < |o.Of(k)|
    requires o.Of(k)[j].id == RefOf(o.platform.components[i], k).value
    requires forall l :: 0 <= l < |o.Of(k)| && l != j ==> o.Of(k)[l].id != o.Of(k)[j].id
    ensures RefOf(p.components[i], k).Some? && FindAsset(source.Assets(k), RefOf(p.components[i], k).value).Some?
    ensures AssetCopied(FindAsset(source.Assets(k), RefOf(p.components[i], k).value).value, o.Of(k)[j])
  {
    hide PlatformInserted, AssetCopied, Closed, DependenciesOf, RefOf, FindAsset;
  }

  /** No other asset of the kind has the id of a copy. */
  lemma CopyStandsAlone(target: ScenarioData, t: Template, c: Counters, r: Inserted, o: Additions, k: AssetKind, j: nat)
    requires t.PlatformTemplate? && PlatformInserted(target, t, c, r, o) && j < |o.Of(k)|
    requires NoneTaken(o.NewIds(), Ids(target))
    ensures forall i :: 0 <= i < |target.Assets(k)| ==> target.Assets(k)[i].id != o.Of(k)[j].id
    ensures forall i :: 0 <= i < |o.Of(k)| && i != j ==> o.Of(k)[i].id != o.Of(k)[j].id
  {
    hide Ids, Additions.NewIds, PlatformInserted;
    forall i | 0 <= i < |target.Assets(k)|
      ensures target.Assets(k)[i].id != o.Of(k)[j].id
    {
      IdOfAssetIsListed(target, k, i);
      IdOfCopyIsNew(o, k, j);
    }
    forall i | 0 <= i < |o.Of(k)| && i != j
      ensures o.Of(k)[i].id != o.Of(k)[j].id
    {
      AddedAssetIdsDiffer(target, t, c, r, o, k, if i < j then i else j, if i < j then j else i);
    }
  }

  /** Saving a platform whose references resolve and inserting it into any scenario gives an isomorphic
      copy: no warnings; the platform and each component equal the originals apart from ids, names and
      references; each reference leads to a copy of the asset the original led to; and two
      references are equal exactly when they were. When the counters are past every id of the target,
      looking a reference up in the scenario that results finds that copy. */
  lemma SaveInsertIsIsomorphic(source: ScenarioData, itemId: string, p: Platform, target: ScenarioData, c: Counters)
    returns (o: Additions)
    requires ScenarioWellTyped(source) && Closed(source, p)
    requires FindPlatform(source.platforms, itemId) == Some(p)
    requires Save(source, itemId).Some? && Save(source, itemId).value.PlatformTemplate?
    requires Insert(target, Save(source, itemId).value, c).Success?
    ensures var r := Insert(target, Save(source, itemId).value, c).value;
            && r.warnings == []
            && r.scenario.platforms == SanitizedAll(target.platforms) + [o.platform]
            && (forall k :: r.scenario.Assets(k) == target.Assets(k) + o.Of(k))
            && FrameCopied(Sanitized(p), o.platform)
            && ComponentsCopied(p.components, o.platform.components, o.maps)
            && (forall i, k :: 0 <= i < |p.components| ==>
                  ReferenceCopied(source, RefOf(p.components[i], k), RefOf(o.platform.components[i], k), k, o.Of(k)))
            && (forall i, j, k | 0 <= i < |p.components| && 0 <= j < |p.components|
                    && Present(RefOf(p.components[i], k)) && Present(RefOf(p.components[j], k)) ::
                  (RefOf(p.components[i], k) == RefOf(p.components[j], k)
                   <==> RefOf(o.platform.components[i], k) == RefOf(o.platform.components[j], k)))
    ensures (forall j :: 0 <= j < |Ids(target)| ==> Reserved(c, Ids(target)[j])) ==>
              forall i, k :: 0 <= i < |p.components| ==>
                ReferenceResolved(source, RefOf(p.components[i], k), RefOf(o.platform.components[i], k), k,
                                  Insert(target, Save(source, itemId).value, c).value.scenario, o.Of(k))
  {
    var t := Save(source, itemId).value;
    SavedIsWellTyped(source, p);
    o := InsertPlatformFacts(target, t, c);
    var r := Insert(target, t, c).value;
    hide FreshIds, FreshNames, Names, AssetCopied, DependenciesOf, MapsTo, Insert, Additions.NewIds;
    NoWarnings(source, p, target, t, c, r, o);
    forall i, k | 0 <= i < |p.components|
      ensures ReferenceCopied(source, RefOf(p.components[i], k), RefOf(o.platform.components[i], k), k, o.Of(k))
    {
      var j := SavedReference(source, p, target, t, c, r, o, i, k);
    }
    forall i, j, k | 0 <= i < |p.components| && 0 <= j < |p.components|
                     && Present(RefOf(p.components[i], k)) && Present(RefOf(p.components[j], k))
      ensures RefOf(p.components[i], k) == RefOf(p.components[j], k)
              <==> RefOf(o.platform.components[i], k) == RefOf(o.platform.components[j], k)
    {
      SameReferences(source, p, target, t, c, r, o, i, j, k);
    }
    hide Ids, Reserved, ReferenceResolved;
    if forall j :: 0 <= j < |Ids(target)| ==> Reserved(c, Ids(target)[j]) {
      forall i, k | 0 <= i < |p.components|
        ensures ReferenceResolved(source, RefOf(p.components[i], k), RefOf(o.platform.components[i], k), k, r.scenario,
                                  o.Of(k))
      {
        CopyIsFound(source, p, target, t, c, r, o, i, k);
      }
    }
  }

  lemma SavedIsWellTyped(s: ScenarioData, p: Platform)
    requires ScenarioWellTyped(s)
    ensures WellTyped(PlatformTemplate(p.name, Sanitized(p), DependenciesOf(p, s)))
  {
    forall k, i | k != TimingKind && 0 <= i < |DependenciesOf(p, s).Of(k)|
      ensures DependenciesOf(p, s).Of(k)[i].noiseEntries == []
    {
      DependenciesAreUnique(s, p, k);
      var a := DependenciesOf(p, s).Of(k)[i];
      assert a in DependenciesOf(p, s).Of(k);
    }
  }

  lemma NoWarnings(source: ScenarioData, p: Platform, target: ScenarioData, t: Template, c: Counters, r: Inserted,
                   o: Additions)
    requires Closed(source, p) && t == PlatformTemplate(p.name, Sanitized(p), DependenciesOf(p, source))
    requires PlatformInserted(target, t, c, r, o)
    ensures r.warnings == []
  {
    hide FreshIds, FreshNames, Names, DependenciesOf, MapsTo, FrameCopied, AssetCopied;
    WarningsAreUnresolved(t.platform.components, t.dependencies, o);
    forall i, k | 0 <= i < |p.components| && Present(RefOf(p.components[i], k))
      ensures HasId(t.dependencies.Of(k), RefOf(p.components[i], k).value)
    {
      var ref := RefOf(p.components[i], k).value;
      FindAssetFacts(source.Assets(k), ref);
      DependencyOfReference(source, p, i, k);
      FindAssetFacts(t.dependencies.Of(k), ref);
    }
    NothingUnresolved(p.components, t.dependencies);
  }

  lemma SameReferences(source: ScenarioData, p: Platform, target: ScenarioData, t: Template, c: Counters, r: Inserted,
                       o: Additions, i: nat, j: nat, k: AssetKind)
    requires Closed(source, p) && t == PlatformTemplate(p.name, Sanitized(p), DependenciesOf(p, source))
    requires PlatformInserted(target, t, c, r, o)
    requires i < |p.components| && j < |p.components| && |o.platform.components| == |p.components|
    requires Present(RefOf(p.components[i], k)) && Present(RefOf(p.components[j], k))
    ensures RefOf(p.components[i], k) == RefOf(p.components[j], k)
            <==> RefOf(o.platform.components[i], k) == RefOf(o.platform.components[j], k)
  {
    hide FreshIds, FreshNames, Names, AssetCopied, DependenciesOf, MapsTo, FrameCopied, PlatformInserted, Closed;
    var a := SavedReference(source, p, target, t, c, r, o, i, k);
    var b := SavedReference(source, p, target, t, c, r, o, j, k);
    DependenciesAreUnique(source, p, k);
    if a < b {
      AddedAssetIdsDiffer(target, t, c, r, o, k, a, b);
    } else if b < a {
      AddedAssetIdsDiffer(target, t, c, r, o, k, b, a);
    }
  }

  lemma AddedAssetIdsDiffer(s: ScenarioData, t: Template, c: Counters, r: Inserted, o: Additions, k: AssetKind, a: nat,
                            b: nat)
    requires t.PlatformTemplate? && PlatformInserted(s, t, c, r, o) && a < b < |o.Of(k)|
    ensures o.Of(k)[a].id != o.Of(k)[b].id
  {
    hide FreshNames, Names, AssetCopied, MapsTo, FrameCopied, Additions.NewIds, IdsOfAssets;
    AddedIdsAreDistinct(o, k);
    DistinctAssetIds(o.Of(k), a, b);
  }

  // ---------- references by name ----------

  ghost predicate NewlyNamed(o: Additions, n: string) {
    || (exists k, i :: 0 <= i < |o.Of(k)| && o.Of(k)[i].name == n)
    || o.platform.name == n || n in ComponentNames(o.platform.components)
  }

  lemma NewNamesAre(o: Additions, n: string)
    ensures n in o.NewNames() <==> NewlyNamed(o, n)
  {
    hide ComponentNames;
    assert forall k :: n in AssetNames(o.Of(k)) <==> exists i :: 0 <= i < |o.Of(k)| && o.Of(k)[i].name == n by {
      forall k
        ensures n in AssetNames(o.Of(k)) <==> exists i :: 0 <= i < |o.Of(k)| && o.Of(k)[i].name == n
      {
        NamesOfList(o.Of(k), n);
      }
    }
    hide AssetNames;
    assert o.Of(WaveformKind) == o.waveforms && o.Of(TimingKind) == o.timings && o.Of(AntennaKind) == o.antennas;
  }

  lemma NamesOfList(items: seq<Asset>, n: string)
    ensures n in AssetNames(items) <==> exists i :: 0 <= i < |items| && items[i].name == n
  {
    if i :| 0 <= i < |items| && items[i].name == n {
      assert AssetNames(items)[i] == n;
    }
  }

  /** The names of the scenario after an insertion are those before and the new ones. */
  lemma NamesAfterInsertion(s: ScenarioData, t: Template, c: Counters, r: Inserted, o: Additions, n: string)
    requires t.PlatformTemplate? && PlatformInserted(s, t, c, r, o)
    ensures n in Names(r.scenario) <==> n in Names(s) || n in o.NewNames()
  {
    hide FreshIds, FreshNames, FrameCopied, AssetCopied, MapsTo, ComponentNames, Additions.NewNames, Names;
    NewNamesAre(o, n);
    NamedAfter(s, r.scenario, o, n);
  }

  lemma NamedAfter(s: ScenarioData, r: ScenarioData, o: Additions, n: string)
    requires (forall k :: r.Assets(k) == s.Assets(k) + o.Of(k))
    requires r.platforms == SanitizedAll(s.platforms) + [o.platform]
    ensures Named(r, n) <==> Named(s, n) || NewlyNamed(o, n)
  {
    hide ComponentNames, ScenarioData.Assets, Additions.Of;
    var last := |s.platforms|;
    assert forall i :: 0 <= i < last ==>
      r.platforms[i].name == s.platforms[i].name && r.platforms[i].components == s.platforms[i].components;
    assert r.platforms[last] == o.platform;
    if k, i :| 0 <= i < |r.Assets(k)| && r.Assets(k)[i].name == n {
      if i >= |s.Assets(k)| {
        assert o.Of(k)[i - |s.Assets(k)|].name == n;
      } else {
        assert s.Assets(k)[i].name == n;
      }
    }
    if k, i :| 0 <= i < |s.Assets(k)| && s.Assets(k)[i].name == n {
      assert r.Assets(k)[i].name == n;
    }
    if k, i :| 0 <= i < |o.Of(k)| && o.Of(k)[i].name == n {
      assert r.Assets(k)[|s.Assets(k)| + i].name == n;
    }
  }

  /** A reference by name to something saved with the template: a component of its platform, or a waveform among
      its dependencies. */
  ghost predicate NamesSomethingSaved(t: Template)
    requires t.PlatformTemplate?
  {
    || (exists i, j :: 0 <= i < |t.platform.components| && 0 <= j < |t.platform.components|
          && DechirpOf(t.platform.components[i]).transmitterName == Some(t.platform.components[j].name))
    || (exists i, j :: 0 <= i < |t.platform.components| && 0 <= j < |t.dependencies.waveforms|
          && DechirpOf(t.platform.components[i]).waveformName == Some(t.dependencies.waveforms[j].name))
  }

  /** Every reference by name that named something saved names its copy. */
  ghost predicate NamesFollowCopies(t: Template, o: Additions)
    requires t.PlatformTemplate? && |o.platform.components| == |t.platform.components|
    requires |o.waveforms| == |t.dependencies.waveforms|
  {
    && (forall i, j | 0 <= i < |t.platform.components| && 0 <= j < |t.platform.components|
            && DechirpOf(t.platform.components[i]).transmitterName == Some(t.platform.components[j].name) ::
          DechirpOf(o.platform.components[i]).transmitterName == Some(o.platform.components[j].name))
    && (forall i, j | 0 <= i < |t.platform.components| && 0 <= j < |o.waveforms|
            && DechirpOf(t.platform.components[i]).waveformName == Some(t.dependencies.waveforms[j].name) ::
          DechirpOf(o.platform.components[i]).waveformName == Some(o.waveforms[j].name))
  }

  /** References by name (the dechirp reference of a receiver) are carried over as they are, while every
      copy gets a new name. So all of them follow their copies if and only if none named something saved. What
      a kept name denotes afterwards is something the scenario had under that name, or a copy that
      happens to have got it; otherwise it dangles. */
  lemma NameReferencesFollowIff(s: ScenarioData, t: Template, c: Counters) returns (o: Additions)
    requires t.PlatformTemplate? && WellTyped(t) && Insert(s, t, c).Success?
    ensures |o.platform.components| == |t.platform.components|
    ensures Insert(s, t, c).value.scenario.platforms == SanitizedAll(s.platforms) + [o.platform]
    ensures forall i :: 0 <= i < |t.platform.components| ==>
              DechirpOf(o.platform.components[i]) == DechirpOf(t.platform.components[i])
    ensures |o.waveforms| == |t.dependencies.waveforms|
    ensures NamesFollowCopies(t, o) <==> !NamesSomethingSaved(t)
    ensures forall i, j | 0 <= i < |t.platform.components| && 0 <= j < |t.platform.components|
                && DechirpOf(t.platform.components[i]).transmitterName == Some(t.platform.components[j].name) ::
              DechirpOf(o.platform.components[i]).transmitterName != Some(o.platform.components[j].name)
    ensures forall i, j | 0 <= i < |t.platform.components| && 0 <= j < |o.waveforms|
                && DechirpOf(t.platform.components[i]).waveformName == Some(t.dependencies.waveforms[j].name) ::
              DechirpOf(o.platform.components[i]).waveformName != Some(o.waveforms[j].name)
    ensures forall n :: n in Names(Insert(s, t, c).value.scenario) <==> n in Names(s) || n in o.NewNames()
  {
    o := InsertPlatformFacts(s, t, c);
    forall n
      ensures n in Names(Insert(s, t, c).value.scenario) <==> n in Names(s) || n in o.NewNames()
    {
      NamesAfterInsertion(s, t, c, Insert(s, t, c).value, o, n);
    }
    CopiesAreRenamed(s, t, c, Insert(s, t, c).value, o);
    hide PlatformInserted, Insert, Names, Additions.NewNames, NamesSomethingSaved, NamesFollowCopies;
    FollowIff(t, o);
  }

  lemma CopiesAreRenamed(s: ScenarioData, t: Template, c: Counters, r: Inserted, o: Additions)
    requires t.PlatformTemplate? && PlatformInserted(s, t, c, r, o)
    ensures |o.platform.components| == |t.platform.components| && |o.waveforms| == |t.dependencies.waveforms|
    ensures r.scenario.platforms == SanitizedAll(s.platforms) + [o.platform]
    ensures forall i :: 0 <= i < |t.platform.components| ==>
              DechirpOf(o.platform.components[i]) == DechirpOf(t.platform.components[i])
              && o.platform.components[i].name != t.platform.components[i].name
    ensures forall j :: 0 <= j < |o.waveforms| ==> o.waveforms[j].name != t.dependencies.waveforms[j].name
  {
    hide FreshIds, FreshNames, Names, AssetCopied, FrameCopied, MapsTo, DechirpOf, SanitizedAll;
    assert o.Of(WaveformKind) == o.waveforms && t.dependencies.Of(WaveformKind) == t.dependencies.waveforms;
    forall i | 0 <= i < |t.platform.components|
      ensures DechirpOf(o.platform.components[i]) == DechirpOf(t.platform.components[i])
    {
      assert ComponentCopied(t.platform.components[i], o.platform.components[i], o.maps);
    }
    forall j | 0 <= j < |o.waveforms|
      ensures o.waveforms[j].name != t.dependencies.waveforms[j].name
    {
      assert t.dependencies.Of(WaveformKind)[j].name < o.Of(WaveformKind)[j].name;
    }
  }

  /** References kept and names changed: exactly those without a saved target follow. */
  lemma FollowIff(t: Template, o: Additions)
    requires t.PlatformTemplate? && |o.platform.components| == |t.platform.components|
    requires |o.waveforms| == |t.dependencies.waveforms|
    requires forall i :: 0 <= i < |t.platform.components| ==>
               DechirpOf(o.platform.components[i]) == DechirpOf(t.platform.components[i])
               && o.platform.components[i].name != t.platform.components[i].name
    requires forall j :: 0 <= j < |o.waveforms| ==> o.waveforms[j].name != t.dependencies.waveforms[j].name
    ensures NamesFollowCopies(t, o) <==> !NamesSomethingSaved(t)
  {
    hide DechirpOf;
    if i, j :| 0 <= i < |t.platform.components| && 0 <= j < |t.platform.components|
               && DechirpOf(t.platform.components[i]).transmitterName == Some(t.platform.components[j].name) {
      assert DechirpOf(o.platform.components[i]).transmitterName != Some(o.platform.components[j].name);
    } else if i, j :| 0 <= i < |t.platform.components| && 0 <= j < |t.dependencies.waveforms|
                      && DechirpOf(t.platform.components[i]).waveformName == Some(t.dependencies.waveforms[j].name) {
      assert DechirpOf(o.platform.components[i]).waveformName != Some(o.waveforms[j].name);
    }
  }
}
