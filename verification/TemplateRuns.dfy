/** Insertions one after the other: the ids of a scenario whose counters were seeded stay pairwise different. */
module TemplateRuns {
  import opened Wrappers
  import opened Scenario
  import opened SimIds
  import opened Sorting
  import opened AssetTemplates
  import opened TemplateCapacity
  import opened TemplateProperties

  /** What the schema says of a template: only timing sources have noise entries. */
  ghost predicate SchemaTyped(t: Template) {
    && WellTyped(t)
    && (t.AssetTemplate? && t.kind != TimingKind ==> t.asset.noiseEntries == [])
  }

  /** The ids of a scenario are pairwise different, and none of them will be generated again. */
  ghost predicate IdsKept(s: ScenarioData, c: Counters) {
    && Distinct(Ids(s))
    && (forall i :: 0 <= i < |Ids(s)| ==> Reserved(c, Ids(s)[i]))
  }

  /** The insertions of the templates in turn, up to the first that fails. */
  function InsertAll(s: ScenarioData, templates: seq<Template>, c: Counters): Result<(ScenarioData, Counters)>
    decreases |templates|
  {
    if templates == [] then Success((s, c))
    else
      var r :- Insert(s, templates[0], c);
      InsertAll(r.scenario, templates[1..], r.counters)
  }

  // ---------- the ids of the parts ----------

  lemma {:induction false} AssetIdsAppend(a: seq<Asset>, b: seq<Asset>)
    ensures IdsOfAssets(a + b) == IdsOfAssets(a) + IdsOfAssets(b)
    decreases |a|
  {
    hide AssetIds;
    if a == [] {
      assert a + b == b;
    } else {
      assert (a + b)[0] == a[0] && (a + b)[1..] == a[1..] + b;
      AssetIdsAppend(a[1..], b);
    }
  }

  lemma {:induction false} PlatformIdsAppend(a: seq<Platform>, p: Platform)
    ensures IdsOfPlatforms(a + [p]) == IdsOfPlatforms(a) + PlatformIds(p)
    decreases |a|
  {
    hide PlatformIds;
    if a == [] {
      assert a + [p] == [p];
      assert [p][1..] == [];
    } else {
      assert (a + [p])[0] == a[0] && (a + [p])[1..] == a[1..] + [p];
      PlatformIdsAppend(a[1..], p);
    }
  }

  lemma {:induction false} SanitizedPlatformIds(a: seq<Platform>)
    ensures IdsOfPlatforms(SanitizedAll(a)) == IdsOfPlatforms(a)
    decreases |a|
  {
    if a == [] {
      assert SanitizedAll(a) == [];
    } else {
      assert SanitizedAll(a)[1..] == SanitizedAll(a[1..]);
      SanitizedIds(a[0]);
      hide PlatformIds, Sanitized;
      SanitizedPlatformIds(a[1..]);
    }
  }

  lemma SanitizedIds(p: Platform)
    ensures PlatformIds(Sanitized(p)) == PlatformIds(p)
  {
    hide EntryIds, RotationIds, IdsOfComponents;
  }

  lemma GroupedParts<T>(a: seq<T>, b: seq<T>, c: seq<T>, d: seq<T>)
    ensures multiset(a + b + c + d) == multiset(a) + multiset(b) + multiset(c) + multiset(d)
  {
  }

  lemma CountsAdd<T>(a: multiset<T>, b: multiset<T>, c: multiset<T>, d: multiset<T>,
                     p: multiset<T>, q: multiset<T>, r: multiset<T>, s: multiset<T>)
    ensures (a + p) + (b + q) + (c + r) + (d + s) == (a + b + c + d) + (p + q + r + s)
  {
  }

  /** The ids after adding assets and ids of platforms are the ids before and the added ones. */
  lemma IdsWithParts(s: ScenarioData, r: ScenarioData, x: seq<Asset>, y: seq<Asset>, z: seq<Asset>, q: seq<string>)
    requires r.waveforms == s.waveforms + x && r.timings == s.timings + y && r.antennas == s.antennas + z
    requires IdsOfPlatforms(r.platforms) == IdsOfPlatforms(s.platforms) + q
    ensures multiset(Ids(r)) == multiset(Ids(s)) + multiset(IdsOfAssets(x) + IdsOfAssets(y) + IdsOfAssets(z) + q)
  {
    hide IdsOfAssets, IdsOfPlatforms;
    AssetIdsAppend(s.waveforms, x);
    AssetIdsAppend(s.timings, y);
    AssetIdsAppend(s.antennas, z);
    var w, t, a, p :=
        IdsOfAssets(s.waveforms), IdsOfAssets(s.timings), IdsOfAssets(s.antennas), IdsOfPlatforms(s.platforms);
    var u, v, n := IdsOfAssets(x), IdsOfAssets(y), IdsOfAssets(z);
    GroupedParts(w, t, a, p);
    GroupedParts(u, v, n, q);
    GroupedParts(w + u, t + v, a + n, p + q);
    CountsAdd(multiset(w), multiset(t), multiset(a), multiset(p), multiset(u), multiset(v), multiset(n), multiset(q));
  }

  lemma IdsWithPlatform(s: ScenarioData, r: ScenarioData, o: Additions)
    requires r.waveforms == s.waveforms + o.waveforms && r.timings == s.timings + o.timings
    requires r.antennas == s.antennas + o.antennas && r.platforms == SanitizedAll(s.platforms) + [o.platform]
    ensures multiset(Ids(r)) == multiset(Ids(s)) + multiset(o.NewIds())
  {
    hide IdsOfAssets, IdsOfPlatforms, PlatformIds, SanitizedAll, Ids;
    PlatformIdsAppend(SanitizedAll(s.platforms), o.platform);
    SanitizedPlatformIds(s.platforms);
    IdsWithParts(s, r, o.waveforms, o.timings, o.antennas, PlatformIds(o.platform));
  }

  function AssetFor(k: AssetKind, j: AssetKind, a: Asset): seq<Asset> {
    if j == k then [a] else []
  }

  lemma IdsWithAsset(s: ScenarioData, r: ScenarioData, k: AssetKind, a: Asset)
    requires forall j :: r.Assets(j) == s.Assets(j) + AssetFor(k, j, a)
    requires r.platforms == SanitizedAll(s.platforms)
    ensures multiset(Ids(r)) == multiset(Ids(s)) + multiset(AssetIds(a))
  {
    AssetsByKind(s, r, k, a);
    hide IdsOfAssets, IdsOfPlatforms, SanitizedAll, AssetIds, Ids, ScenarioData.Assets, AssetFor;
    SanitizedPlatformIds(s.platforms);
    AppendNothing(IdsOfPlatforms(s.platforms));
    IdsWithParts(s, r, AssetFor(k, WaveformKind, a), AssetFor(k, TimingKind, a), AssetFor(k, AntennaKind, a), []);
    IdsForKind(k, a);
  }

  lemma AssetsByKind(s: ScenarioData, r: ScenarioData, k: AssetKind, a: Asset)
    requires forall j :: r.Assets(j) == s.Assets(j) + AssetFor(k, j, a)
    ensures r.waveforms == s.waveforms + AssetFor(k, WaveformKind, a)
    ensures r.timings == s.timings + AssetFor(k, TimingKind, a)
    ensures r.antennas == s.antennas + AssetFor(k, AntennaKind, a)
  {
    hide AssetFor;
    assert r.Assets(WaveformKind) == s.Assets(WaveformKind) + AssetFor(k, WaveformKind, a);
    assert r.Assets(TimingKind) == s.Assets(TimingKind) + AssetFor(k, TimingKind, a);
    assert r.Assets(AntennaKind) == s.Assets(AntennaKind) + AssetFor(k, AntennaKind, a);
  }

  lemma AppendNothing<T>(s: seq<T>)
    ensures s + [] == s
  {
  }

  lemma IdsForKind(k: AssetKind, a: Asset)
    ensures IdsOfAssets(AssetFor(k, WaveformKind, a)) + IdsOfAssets(AssetFor(k, TimingKind, a))
            + IdsOfAssets(AssetFor(k, AntennaKind, a)) + [] == AssetIds(a)
  {
    hide IdsOfAssets, AssetIds;
    OneAssetIds(a);
  }

  lemma OneAssetIds(a: Asset)
    ensures IdsOfAssets([a]) == AssetIds(a) && IdsOfAssets([]) == []
  {
    hide AssetIds;
    assert [a][1..] == [];
    assert AssetIds(a) + [] == AssetIds(a);
  }

  // ---------- one insertion ----------

  lemma DistinctTogether(a: seq<string>, b: seq<string>)
    requires Distinct(a) && Distinct(b) && NoneTaken(b, a)
    ensures Sorting.DistinctBy(a + b, (id: string) => id)
  {
    forall i, j | 0 <= i < j < |a + b|
      ensures (a + b)[i] != (a + b)[j]
    {
      if i < |a| <= j {
        assert b[j - |a|] != a[i];
      }
    }
  }

  lemma FreshIdsKeep(s: ScenarioData, r: ScenarioData, added: seq<string>, c: Counters, d: Counters)
    requires IdsKept(s, c) && FreshIds(added, c, d) && multiset(Ids(r)) == multiset(Ids(s)) + multiset(added)
    ensures IdsKept(r, d)
  {
    hide Ids, Reserved, FreshIds;
    FreshIdsAreNotTaken(added, Ids(s), c, d);
    DistinctTogether(Ids(s), added);
    var key := (id: string) => id;
    assert multiset(Ids(s) + added) == multiset(Ids(r));
    Sorting.DistinctAfterReordering(Ids(s) + added, Ids(r), key);
    forall i, j | 0 <= i < j < |Ids(r)|
      ensures Ids(r)[i] != Ids(r)[j]
    {
      assert key(Ids(r)[i]) != key(Ids(r)[j]);
    }
    forall i | 0 <= i < |Ids(r)|
      ensures Reserved(d, Ids(r)[i])
    {
      assert Ids(r)[i] in multiset(Ids(r));
      assert Ids(r)[i] in multiset(Ids(s)) || Ids(r)[i] in multiset(added);
    }
  }

  lemma InsertKeepsIds(s: ScenarioData, t: Template, c: Counters)
    requires IdsKept(s, c) && SchemaTyped(t) && Insert(s, t, c).Success?
    ensures IdsKept(Insert(s, t, c).value.scenario, Insert(s, t, c).value.counters)
  {
    var r := Insert(s, t, c).value;
    hide IdsKept, Ids, FreshIds, FreshNames, Names, FrameCopied, AssetCopied, MapsTo, Insert, SanitizedAll, Reserved;
    if t.PlatformTemplate? {
      var o := InsertPlatformFacts(s, t, c);
      WhatPlatformAdds(s, t, c, r, o);
      IdsWithPlatform(s, r.scenario, o);
      FreshIdsKeep(s, r.scenario, o.NewIds(), c, r.counters);
    } else {
      var a := InsertAssetFacts(s, t, c);
      IdsWithAsset(s, r.scenario, t.kind, a);
      FreshIdsKeep(s, r.scenario, AssetIds(a), c, r.counters);
    }
  }

  lemma WhatPlatformAdds(s: ScenarioData, t: Template, c: Counters, r: Inserted, o: Additions)
    requires t.PlatformTemplate? && PlatformInserted(s, t, c, r, o)
    ensures r.scenario.waveforms == s.waveforms + o.waveforms && r.scenario.timings == s.timings + o.timings
    ensures r.scenario.antennas == s.antennas + o.antennas
    ensures r.scenario.platforms == SanitizedAll(s.platforms) + [o.platform]
    ensures FreshIds(o.NewIds(), c, r.counters)
  {
    hide FreshIds, FreshNames, Names, FrameCopied, AssetCopied, MapsTo, SanitizedAll;
    assert r.scenario.Assets(WaveformKind) == s.Assets(WaveformKind) + o.Of(WaveformKind);
    assert r.scenario.Assets(TimingKind) == s.Assets(TimingKind) + o.Of(TimingKind);
    assert r.scenario.Assets(AntennaKind) == s.Assets(AntennaKind) + o.Of(AntennaKind);
  }

  // ---------- any number of insertions ----------

  lemma {:induction false} InsertionsKeepIds(s: ScenarioData, templates: seq<Template>, c: Counters)
    requires IdsKept(s, c) && (forall i :: 0 <= i < |templates| ==> SchemaTyped(templates[i]))
    requires InsertAll(s, templates, c).Success?
    ensures IdsKept(InsertAll(s, templates, c).value.0, InsertAll(s, templates, c).value.1)
    decreases |templates|
  {
    hide Insert, IdsKept, SchemaTyped;
    if templates != [] {
      InsertKeepsIds(s, templates[0], c);
      var r := Insert(s, templates[0], c).value;
      InsertionsKeepIds(r.scenario, templates[1..], r.counters);
    }
  }

  /** From counters seeded with the ids of a scenario, any number of insertions leaves all ids of the scenario pairwise
      different, the ones it had and the ones it got, and none of them will be generated again.
      An id that was generated before the seeding need not be among the seeds. */
  lemma SeededInsertionsKeepIds(s: ScenarioData, before: Counters, seeds: seq<Option<string>>, templates: seq<Template>)
    requires Distinct(Ids(s)) && Seed(before, seeds).Success?
    requires forall i :: 0 <= i < |Ids(s)| ==> Some(Ids(s)[i]) in seeds || Reserved(before, Ids(s)[i])
    requires forall i :: 0 <= i < |templates| ==> SchemaTyped(templates[i])
    requires InsertAll(s, templates, Seed(before, seeds).value).Success?
    ensures var (end, counters) := InsertAll(s, templates, Seed(before, seeds).value).value;
            IdsKept(end, counters)
  {
    hide Ids, Insert, Reserved, Seed, SchemaTyped;
    var c := Seed(before, seeds).value;
    SeedReserves(before, seeds);
    forall i | 0 <= i < |Ids(s)|
      ensures Reserved(c, Ids(s)[i])
    {
      if Some(Ids(s)[i]) in seeds {
        var j :| 0 <= j < |seeds| && seeds[j] == Some(Ids(s)[i]);
        EmptyIsReserved(c);
      } else {
        ReservedStays(before, c, Ids(s)[i]);
      }
    }
    InsertionsKeepIds(s, templates, c);
  }

  // ---------- a reference by name that stays behind ----------

  /** A platform with a transmitter called Tx and a receiver that dechirps with it. */
  function DechirpingTemplate(): Template {
    var tx := Component.Transmitter("1", "Tx", Refs(None, None, None), map[]);
    var rx := Component.Receiver("2", "Rx", None, None, Dechirp(Some("Tx"), None), map[]);
    var platform := Scenario.Platform("3", "P", "static", [], Fixed(map[]), [tx, rx], None, None);
    PlatformTemplate("P", platform, Dependencies([], [], []))
  }

  lemma DechirpingNeeds()
    ensures OfTemplate(DechirpingTemplate()) == [SimType.Platform, SimType.Transmitter, SimType.Receiver]
  {
    var items := DechirpingTemplate().platform.components;
    assert items[1..] == [items[1]] && items[1..][1..] == [];
    assert OfComponents([]) == [];
    assert OfComponents(items[1..]) == [SimType.Receiver];
    assert OfComponents(items) == [SimType.Transmitter] + [SimType.Receiver];
  }

  lemma RoomForThree()
    ensures HasRoom(InitialCounters, [SimType.Platform, SimType.Transmitter, SimType.Receiver])
  {
  }

  /** Inserted into any scenario, the copy of the receiver goes on naming Tx, and the copy of Tx is called otherwise. */
  lemma DechirpStaysBehind(s: ScenarioData) returns (o: Additions)
    ensures Insert(s, DechirpingTemplate(), InitialCounters).Success?
    ensures Insert(s, DechirpingTemplate(), InitialCounters).value.scenario.platforms
            == SanitizedAll(s.platforms) + [o.platform]
    ensures |o.platform.components| == 2
    ensures DechirpOf(o.platform.components[1]).transmitterName == Some("Tx") != Some(o.platform.components[0].name)
  {
    var t := DechirpingTemplate();
    hide Insert, OfTemplate, HasRoom, SanitizedAll, Names;
    DechirpingNeeds();
    RoomForThree();
    InsertSucceedsIff(s, t, InitialCounters);
    o := NameReferencesFollowIff(s, t, InitialCounters);
    assert DechirpOf(t.platform.components[1]).transmitterName == Some(t.platform.components[0].name);
    assert DechirpOf(o.platform.components[1]) == DechirpOf(t.platform.components[1]);
  }

  /** A platform with a transmitter that uses the waveform W by its id and a receiver that dechirps with it by name. */
  function WaveformTemplate(): Template {
    var tx := Component.Transmitter("1", "Tx", Refs(None, None, Some("4")), map[]);
    var rx := Component.Receiver("2", "Rx", None, None, Dechirp(None, Some("W")), map[]);
    var platform := Scenario.Platform("3", "P", "static", [], Fixed(map[]), [tx, rx], None, None);
    PlatformTemplate("P", platform, Dependencies([Asset("4", "W", map[], [])], [], []))
  }

  lemma WaveformNeeds()
    ensures OfTemplate(WaveformTemplate())
            == [SimType.Waveform, SimType.Platform, SimType.Transmitter, SimType.Receiver]
  {
    var items, deps := WaveformTemplate().platform.components, WaveformTemplate().dependencies.waveforms;
    assert deps[1..] == [] && OfAssets(WaveformKind, deps) == [SimType.Waveform];
    assert items[1..] == [items[1]] && items[1..][1..] == [];
    assert OfComponents([]) == [];
    assert OfComponents(items[1..]) == [SimType.Receiver];
    assert OfComponents(items) == [SimType.Transmitter] + [SimType.Receiver];
  }

  lemma RoomForFour()
    ensures HasRoom(InitialCounters, [SimType.Waveform, SimType.Platform, SimType.Transmitter, SimType.Receiver])
  {
  }

  /** Inserted into any scenario, the copy of the receiver goes on naming W, and the copy of W is called otherwise. */
  lemma WaveformStaysBehind(s: ScenarioData) returns (o: Additions)
    ensures Insert(s, WaveformTemplate(), InitialCounters).Success?
    ensures Insert(s, WaveformTemplate(), InitialCounters).value.scenario.platforms
            == SanitizedAll(s.platforms) + [o.platform]
    ensures |o.platform.components| == 2 && |o.waveforms| == 1
    ensures DechirpOf(o.platform.components[1]).waveformName == Some("W") != Some(o.waveforms[0].name)
  {
    var t := WaveformTemplate();
    hide Insert, OfTemplate, HasRoom, SanitizedAll, Names;
    WaveformNeeds();
    RoomForFour();
    InsertSucceedsIff(s, t, InitialCounters);
    o := NameReferencesFollowIff(s, t, InitialCounters);
    assert DechirpOf(t.platform.components[1]).waveformName == Some(t.dependencies.waveforms[0].name);
    assert DechirpOf(o.platform.components[1]) == DechirpOf(t.platform.components[1]);
  }
}
