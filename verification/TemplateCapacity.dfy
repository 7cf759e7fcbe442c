/** When an insertion succeeds: exactly when every id counter has room for the ids the template needs. */
module TemplateCapacity {
  import opened Wrappers
  import opened Scenario
  import opened SimIds
  import opened AssetTemplates
  import Decimal
  import ScenarioNames

  /** The counters after ids of the given types have been generated in turn. */
  function Draw(c: Counters, types: seq<SimType>): Result<Counters>
    decreases |types|
  {
    if types == [] then Success(c)
    else
      var (_, d) :- NextId(c, types[0]);
      Draw(d, types[1..])
  }

  /** An operation with outcome `ok` and, if successful, the counters `after` generates exactly these ids. */
  ghost predicate Draws(ok: bool, after: Counters, c: Counters, types: seq<SimType>) {
    && (ok <==> Draw(c, types).Success?)
    && (ok ==> Draw(c, types).value == after)
  }

  lemma {:induction false} DrawAppend(c: Counters, a: seq<SimType>, b: seq<SimType>)
    ensures Draw(c, a + b) == match Draw(c, a) case Success(d) => Draw(d, b) case Failure(e) => Failure(e)
    decreases |a|
  {
    hide NextId;
    if a == [] {
      assert a + b == b;
    } else {
      assert (a + b)[0] == a[0] && (a + b)[1..] == a[1..] + b;
      if NextId(c, a[0]).Success? {
        DrawAppend(NextId(c, a[0]).value.1, a[1..], b);
      }
    }
  }

  /** The ids generated on the way. */
  function DrawIds(c: Counters, types: seq<SimType>): seq<string>
    requires Draw(c, types).Success?
    decreases |types|
  {
    if types == [] then []
    else [NextId(c, types[0]).value.0] + DrawIds(NextId(c, types[0]).value.1, types[1..])
  }

  /** `ids` are the ids that generating one of each of the types in turn gives. */
  ghost predicate IdsDrawn(ids: seq<string>, types: seq<SimType>, c: Counters, d: Counters) {
    Draw(c, types) == Success(d) && ids == DrawIds(c, types)
  }

  lemma {:induction false} IdsDrawnAppend(a: seq<string>, s: seq<SimType>, b: seq<string>, t: seq<SimType>, c: Counters,
                                          d: Counters, e: Counters)
    requires IdsDrawn(a, s, c, d) && IdsDrawn(b, t, d, e)
    ensures IdsDrawn(a + b, s + t, c, e)
    decreases |s|
  {
    hide NextId;
    if s == [] {
      assert s + t == t && a + b == b;
    } else {
      assert (s + t)[0] == s[0] && (s + t)[1..] == s[1..] + t;
      var (id, next) := NextId(c, s[0]).value;
      IdsDrawnAppend(a[1..], s[1..], b, t, next, d, e);
      assert a + b == [id] + (a[1..] + b);
    }
  }

  lemma OneIdDrawn(c: Counters, t: SimType)
    requires NextId(c, t).Success?
    ensures IdsDrawn([NextId(c, t).value.0], [t], c, NextId(c, t).value.1)
  {
    hide NextId;
    var (id, d) := NextId(c, t).value;
    DrawOne(c, t);
    assert DrawIds(c, [t]) == [id] + DrawIds(d, [t][1..]);
    assert [t][1..] == [] && DrawIds(d, []) == [];
  }

  lemma NoIdsDrawn(c: Counters)
    ensures IdsDrawn([], [], c, c)
  {
  }

  lemma {:induction false} DrawnIdsAreFresh(ids: seq<string>, types: seq<SimType>, c: Counters, d: Counters)
    requires IdsDrawn(ids, types, c, d)
    ensures FreshIds(ids, c, d)
    decreases |types|
  {
    hide NextId, FreshIds;
    if types == [] {
      NoIdsAreFresh(c);
    } else {
      NextIdIsFresh(c, types[0]);
      var (id, next) := NextId(c, types[0]).value;
      DrawnIdsAreFresh(ids[1..], types[1..], next, d);
      FreshAppend([id], ids[1..], c, next, d);
      assert [id] + ids[1..] == ids;
    }
  }

  lemma DrawOne(c: Counters, t: SimType)
    ensures Draw(c, [t]) == match NextId(c, t) case Success(next) => Success(next.1) case Failure(e) => Failure(e)
  {
    hide NextId;
  }

  /** The counters after generating as many of the ids as there is room for, up to the first that fails. */
  function Drawn(c: Counters, types: seq<SimType>): Counters
    decreases |types|
  {
    if types == [] || NextId(c, types[0]).Failure? then c
    else Drawn(NextId(c, types[0]).value.1, types[1..])
  }

  lemma {:induction false} DrawnAll(c: Counters, types: seq<SimType>)
    requires Draw(c, types).Success?
    ensures Drawn(c, types) == Draw(c, types).value
    decreases |types|
  {
    hide NextId;
    if types != [] {
      DrawnAll(NextId(c, types[0]).value.1, types[1..]);
    }
  }

  lemma {:induction false} DrawnAppend(c: Counters, a: seq<SimType>, b: seq<SimType>)
    ensures Drawn(c, a + b) == match Draw(c, a) case Success(d) => Drawn(d, b) case Failure(_) => Drawn(c, a)
    ensures Draw(c, a).Success? ==> Drawn(c, a) == Draw(c, a).value
    decreases |a|
  {
    hide NextId;
    if Draw(c, a).Success? {
      DrawnAll(c, a);
    }
    if a == [] {
      assert a + b == b;
    } else {
      assert (a + b)[0] == a[0] && (a + b)[1..] == a[1..] + b;
      if NextId(c, a[0]).Success? {
        DrawnAppend(NextId(c, a[0]).value.1, a[1..], b);
      }
    }
  }

  lemma DrawnOne(c: Counters, t: SimType)
    ensures Drawn(c, [t]) == match NextId(c, t) case Success(next) => next.1 case Failure(_) => c
  {
    hide NextId;
  }

  lemma DrawnNone(c: Counters)
    ensures Drawn(c, []) == c
  {
  }

  // ---------- the ids each part needs, in the order they are generated ----------

  function OfEntries(items: seq<Entry>, t: SimType): seq<SimType> {
    seq(|items|, _ => t)
  }

  function OfAsset(k: AssetKind, a: Asset): seq<SimType> {
    [TypeOfKind(k)] + (if k == TimingKind then OfEntries(a.noiseEntries, SimType.Timing) else [])
  }

  function OfAssets(k: AssetKind, deps: seq<Asset>): seq<SimType> {
    if deps == [] then [] else OfAsset(k, deps[0]) + OfAssets(k, deps[1..])
  }

  function OfComponent(comp: Component): seq<SimType> {
    match comp
    case Monostatic(_, _, _, _, _, _, _) => [SimType.Transmitter] + [SimType.Receiver]
    case Transmitter(_, _, _, _) => [SimType.Transmitter]
    case Receiver(_, _, _, _, _, _) => [SimType.Receiver]
    case Target(_, _, _) => [SimType.Target]
  }

  function OfComponents(items: seq<Component>): seq<SimType> {
    if items == [] then [] else OfComponent(items[0]) + OfComponents(items[1..])
  }

  function OfRotation(r: Rotation): seq<SimType> {
    if r.Path? then OfEntries(r.waypoints, SimType.Platform) else []
  }

  function OfFrame(p: Scenario.Platform): seq<SimType> {
    [SimType.Platform] + (OfEntries(p.waypoints, SimType.Platform) + OfRotation(p.rotation))
  }

  function OfTemplate(t: Template): seq<SimType> {
    match t
    case AssetTemplate(k, _, asset) => OfAsset(k, asset)
    case PlatformTemplate(_, platform, deps) =>
      OfAssets(WaveformKind, deps.waveforms)
      + (OfAssets(TimingKind, deps.timings)
         + (OfAssets(AntennaKind, deps.antennas)
            + (OfFrame(platform) + OfComponents(platform.components))))
  }

  // ---------- each part generates exactly those ----------

  lemma {:induction false} EntriesDraw(items: seq<Entry>, t: SimType, c: Counters, done: seq<Entry>)
    ensures var r := CloneEntries(items, t, c, done);
            Draws(r.Success?, if r.Success? then r.value.1 else c, c, OfEntries(items, t))
    decreases |items|
  {
    hide NextId;
    if items != [] {
      assert OfEntries(items, t)[1..] == OfEntries(items[1..], t);
      if NextId(c, t).Success? {
        var (id, d) := NextId(c, t).value;
        EntriesDraw(items[1..], t, d, done + [items[0].(id := id)]);
      }
    }
  }

  lemma AssetDraw(k: AssetKind, a: Asset, s: ScenarioData, baseName: string, c: Counters)
    ensures var r := CloneAsset(k, a, s, baseName, c);
            Draws(r.Success?, if r.Success? then r.value.1 else c, c, OfAsset(k, a))
  {
    hide NextId, Draw, OfEntries;
    DrawOne(c, TypeOfKind(k));
    DrawAppend(c, [TypeOfKind(k)], if k == TimingKind then OfEntries(a.noiseEntries, SimType.Timing) else []);
    if NextId(c, TypeOfKind(k)).Success? {
      var d := NextId(c, TypeOfKind(k)).value.1;
      EntriesDraw(a.noiseEntries, SimType.Timing, d, []);
      NothingDrawn(d);
    }
  }

  lemma NothingDrawn(c: Counters)
    ensures Draw(c, []) == Success(c)
  {
  }

  lemma {:induction false} AssetsDraw(k: AssetKind, deps: seq<Asset>, s: ScenarioData, ids: IdMap, c: Counters)
    ensures var r := CloneAssets(k, deps, s, ids, c);
            Draws(r.Success?, if r.Success? then r.value.counters else c, c, OfAssets(k, deps))
    decreases |deps|
  {
    hide Draw, OfAsset, CloneAsset;
    if deps == [] {
      NothingDrawn(c);
    } else {
      AssetDraw(k, deps[0], s, deps[0].name, c);
      DrawAppend(c, OfAsset(k, deps[0]), OfAssets(k, deps[1..]));
      var r := CloneAsset(k, deps[0], s, deps[0].name, c);
      if r.Success? {
        AssetsDraw(k, deps[1..], s.PushAsset(k, r.value.0), ids[deps[0].id := r.value.0.id], r.value.1);
      }
    }
  }

  lemma ComponentDraw(comp: Component, m: IdMaps, name: string, c: Counters)
    ensures var r := CloneComponent(comp, m, name, c);
            Draws(r.Success?, if r.Success? then r.value.1 else c, c, OfComponent(comp))
  {
    hide Draw, NextId, RemappedRefs, Remapped;
    DrawOne(c, SimType.Transmitter);
    DrawOne(c, SimType.Receiver);
    DrawOne(c, SimType.Target);
    DrawAppend(c, [SimType.Transmitter], [SimType.Receiver]);
    if NextId(c, SimType.Transmitter).Success? {
      DrawOne(NextId(c, SimType.Transmitter).value.1, SimType.Receiver);
    }
  }

  lemma {:induction false} ComponentsDraw(items: seq<Component>, m: IdMaps, names: set<string>, done: seq<Component>,
                                          warnings: seq<string>, c: Counters)
    ensures var r := CloneComponents(items, m, names, done, warnings, c);
            Draws(r.Success?, if r.Success? then r.value.counters else c, c, OfComponents(items))
    decreases |items|
  {
    hide Draw, OfComponent, CloneComponent, MissingRefs;
    if items == [] {
      NothingDrawn(c);
    } else {
      var name := ScenarioNames.UniqueCopyName(items[0].name, names);
      ComponentDraw(items[0], m, name, c);
      DrawAppend(c, OfComponent(items[0]), OfComponents(items[1..]));
      var r := CloneComponent(items[0], m, name, c);
      if r.Success? {
        ComponentsDraw(items[1..], m, names + {name}, done + [r.value.0], warnings + MissingRefs(items[0], m),
                       r.value.1);
      }
    }
  }

  lemma RotationDraw(r: Rotation, c: Counters)
    ensures var q := CloneRotation(r, c);
            Draws(q.Success?, if q.Success? then q.value.1 else c, c, OfRotation(r))
  {
    hide Draw;
    if r.Path? {
      EntriesDraw(r.waypoints, SimType.Platform, c, []);
    } else {
      NothingDrawn(c);
    }
  }

  lemma FrameDraw(p: Scenario.Platform, c: Counters)
    ensures var r := CloneFrame(p, c);
            Draws(r.Success?, if r.Success? then r.value.1 else c, c, OfFrame(p))
  {
    hide Draw, NextId, CloneEntries, CloneRotation, OfEntries, OfRotation;
    var entries := OfEntries(p.waypoints, SimType.Platform);
    DrawOne(c, SimType.Platform);
    DrawAppend(c, [SimType.Platform], entries + OfRotation(p.rotation));
    if NextId(c, SimType.Platform).Success? {
      var d := NextId(c, SimType.Platform).value.1;
      DrawAppend(d, entries, OfRotation(p.rotation));
      EntriesDraw(p.waypoints, SimType.Platform, d, []);
      var r := CloneEntries(p.waypoints, SimType.Platform, d, []);
      if r.Success? {
        RotationDraw(p.rotation, r.value.1);
      }
    }
  }

  lemma PlatformDraw(s: ScenarioData, t: Template, c: Counters)
    requires t.PlatformTemplate?
    ensures var r := InsertPlatform(s, t, c);
            Draws(r.Success?, if r.Success? then r.value.counters else c, c, OfTemplate(t))
  {
    hide Draw, CloneAssets, CloneFrame, CloneComponents, OfAssets, OfFrame, OfComponents, Names;
    var deps := t.dependencies;
    var last := OfFrame(t.platform) + OfComponents(t.platform.components);
    DrawAppend(c, OfAssets(WaveformKind, deps.waveforms),
               OfAssets(TimingKind, deps.timings) + (OfAssets(AntennaKind, deps.antennas) + last));
    AssetsDraw(WaveformKind, deps.waveforms, s, map[], c);
    var w := CloneAssets(WaveformKind, deps.waveforms, s, map[], c);
    if w.Success? {
      DrawAppend(w.value.counters, OfAssets(TimingKind, deps.timings), OfAssets(AntennaKind, deps.antennas) + last);
      AssetsDraw(TimingKind, deps.timings, w.value.scenario, map[], w.value.counters);
      var ti := CloneAssets(TimingKind, deps.timings, w.value.scenario, map[], w.value.counters);
      if ti.Success? {
        DrawAppend(ti.value.counters, OfAssets(AntennaKind, deps.antennas), last);
        AssetsDraw(AntennaKind, deps.antennas, ti.value.scenario, map[], ti.value.counters);
        var an := CloneAssets(AntennaKind, deps.antennas, ti.value.scenario, map[], ti.value.counters);
        if an.Success? {
          DrawAppend(an.value.counters, OfFrame(t.platform), OfComponents(t.platform.components));
          FrameDraw(t.platform, an.value.counters);
          var frame := CloneFrame(t.platform, an.value.counters);
          if frame.Success? {
            var name := ScenarioNames.UniqueCopyName(t.name, Names(an.value.scenario));
            ComponentsDraw(t.platform.components, IdMaps(an.value.ids, ti.value.ids, w.value.ids),
                           Names(an.value.scenario) + {name}, [], [], frame.value.1);
          }
        }
      }
    }
  }

  // ---------- room in the counters ----------

  function Count(types: seq<SimType>, t: SimType): nat {
    multiset(types)[t]
  }

  ghost predicate HasRoom(c: Counters, types: seq<SimType>) {
    forall t :: t in types ==> c.Get(t) + Count(types, t) <= MAX_COUNTER + 1
  }

  lemma CountFront(types: seq<SimType>, t: SimType)
    requires types != []
    ensures Count(types, t) == Count(types[1..], t) + (if t == types[0] then 1 else 0)
    ensures t in types <==> Count(types, t) > 0
  {
    assert types == [types[0]] + types[1..];
  }

  lemma {:induction false} DrawIff(c: Counters, types: seq<SimType>)
    ensures Draw(c, types).Success? <==> HasRoom(c, types)
    ensures Draw(c, types).Success? ==> forall t :: Draw(c, types).value.Get(t) == c.Get(t) + Count(types, t)
    decreases |types|
  {
    hide Count, IdText, Counters.Get, Counters.Set;
    if types != [] {
      var u := types[0];
      forall t
        ensures Count(types, t) == Count(types[1..], t) + (if t == u then 1 else 0)
        ensures t in types <==> Count(types, t) > 0
        ensures t in types[1..] <==> Count(types[1..], t) > 0
      {
        CountFront(types, t);
        CountMember(types[1..], t);
      }
      if c.Get(u) > MAX_COUNTER {
        assert u in types && Count(types, u) > 0;
      } else {
        var d := NextId(c, u).value.1;
        DrawIff(d, types[1..]);
        assert forall t :: d.Get(t) + Count(types[1..], t) == c.Get(t) + Count(types, t);
        assert HasRoom(d, types[1..]) ==> HasRoom(c, types);
        assert HasRoom(c, types) ==> HasRoom(d, types[1..]);
      }
    } else {
      NothingCounted();
    }
  }

  lemma CountMember(types: seq<SimType>, t: SimType)
    ensures t in types <==> Count(types, t) > 0
  {
  }

  lemma NothingCounted()
    ensures forall t :: Count([], t) == 0
  {
  }

  /** Each id has the code of its type and the next free number of that type. */
  lemma {:induction false} DrawnIdIs(ids: seq<string>, types: seq<SimType>, c: Counters, d: Counters, i: nat)
    requires IdsDrawn(ids, types, c, d) && i < |types|
    ensures |ids| == |types|
    ensures ids[i] == Decimal.Print(TypeCode(types[i]) * TYPE_UNIT + c.Get(types[i]) + Count(types[..i], types[i]))
    decreases |types|
  {
    hide Counters.Get, Counters.Set, Count, Decimal.Print;
    var (id, next) := NextId(c, types[0]).value;
    if |types| == 1 {
      assert types[1..] == [];
    }
    if i > 0 {
      DrawnIdIs(ids[1..], types[1..], next, d, i - 1);
      CountFront(types[..i], types[i]);
      assert types[..i][1..] == types[1..][..i - 1];
    } else {
      DrawnLength(ids[1..], types[1..], next, d);
      NothingCounted();
      assert types[..0] == [];
    }
  }

  lemma {:induction false} DrawnLength(ids: seq<string>, types: seq<SimType>, c: Counters, d: Counters)
    requires IdsDrawn(ids, types, c, d)
    ensures |ids| == |types|
    decreases |types|
  {
    hide NextId;
    if types != [] {
      DrawnLength(ids[1..], types[1..], NextId(c, types[0]).value.1, d);
    }
  }

  /** An insertion succeeds if and only if every counter the template draws on has room for the ids it needs; each
      counter then advances by exactly their number. */
  lemma InsertSucceedsIff(s: ScenarioData, t: Template, c: Counters)
    ensures Insert(s, t, c).Success? <==> HasRoom(c, OfTemplate(t))
    ensures Insert(s, t, c).Success? ==>
              forall u :: Insert(s, t, c).value.counters.Get(u) == c.Get(u) + Count(OfTemplate(t), u)
  {
    hide Draw, CloneAsset, InsertPlatform, OfAsset, HasRoom, Count, Counters.Get;
    if t.PlatformTemplate? {
      PlatformDraw(Base(s), t, c);
    } else {
      AssetDraw(t.kind, t.asset, Base(s), t.name, c);
    }
    DrawIff(c, OfTemplate(t));
  }
}
