/** The progress reducer: messages of the simulator are matched to a step, and a map from
    step to its latest progress is kept up to date event by event. */
module Progress {
  import opened Wrappers
  import opened Sorting
  import Decimal
  import Reals

  // ---------- messages ----------

  datatype Kind = Main | Streaming | Export | Unknown

  datatype Match = Match(kind: Kind, key: string, receiverName: string, detailId: string)

  /** Message, current and total of an event or a stored step; the counts are 32-bit integers in the events. */
  datatype Event = Event(message: string, current: int, total: int)

  datatype Detail = Detail(id: string, event: Event)

  /** A stored step. Main steps have no details. */
  datatype Step = Step(event: Event, details: seq<Detail>)

  type Snapshot = map<string, Step>

  function ReceiverKey(name: string): string {
    "receiver:" + name
  }

  predicate StartsWith(s: string, prefix: string) {
    prefix <= s
  }

  function After(s: string, prefix: string): string
    requires StartsWith(s, prefix)
  {
    s[|prefix|..]
  }

  /** How many characters at the end of `s` are digits. */
  function TrailingDigits(s: string): (n: nat)
    ensures n <= |s|
  {
    if s != "" && Decimal.IsDigit(s[|s| - 1]) then 1 + TrailingDigits(s[..|s| - 1]) else 0
  }

  /** The characters the dot of a regular expression does not match. */
  predicate IsLineTerminator(c: char) {
    c as int in {0x0A, 0x0D, 0x2028, 0x2029}
  }

  const EXPORTING: string := "Exporting "
  const CHUNK: string := ": Chunk "

  /** The receiver of `Exporting <receiver>: Chunk <digits>`. */
  function ExportChunk(s: string): Option<string> {
    var n := TrailingDigits(s);
    var head := s[..|s| - n];
    if n > 0 && StartsWith(head, EXPORTING) && |head| > |EXPORTING| + |CHUNK| && head[|head| - |CHUNK|..] == CHUNK then
      var name := head[|EXPORTING|..|head| - |CHUNK|];
      if forall i :: 0 <= i < |name| ==> !IsLineTerminator(name[i]) then Some(name) else None
    else None
  }

  function ReceiverMatch(kind: Kind, name: string, detailId: string): Match {
    Match(kind, ReceiverKey(name), name, detailId)
  }

  const FINALIZING_CW: string := "Finalizing CW Receiver "
  const FINALIZING_FMCW: string := "Finalizing FMCW Receiver "
  const RENDERING: string := "Rendering Interference for "
  const APPLYING: string := "Applying Noise for "
  const WRITING: string := "Writing HDF5 for "
  const FINALIZED: string := "Finalized "
  const FINISHED_EXPORTING: string := "Finished Exporting "

  /** `matchProgressMessage`. */
  function MatchMessage(m: string): Match {
    if StartsWith(m, "Simulating") || StartsWith(m, "Initializing") then Match(Main, "main", "", "main-progress")
    else if StartsWith(m, "Main simulation finished") then Match(Main, "main", "", "main-export-wait")
    else if m == "Simulation complete" then Match(Main, "main", "", "main-complete")
    else if StartsWith(m, FINALIZING_CW) then ReceiverMatch(Streaming, After(m, FINALIZING_CW), "streaming-finalizing")
    else if StartsWith(m, FINALIZING_FMCW) then
      ReceiverMatch(Streaming, After(m, FINALIZING_FMCW), "streaming-finalizing")
    else if StartsWith(m, RENDERING) then
      ReceiverMatch(Streaming, After(m, RENDERING), "streaming-rendering-interference")
    else if StartsWith(m, APPLYING) then ReceiverMatch(Streaming, After(m, APPLYING), "streaming-applying-noise")
    else if StartsWith(m, WRITING) then ReceiverMatch(Streaming, After(m, WRITING), "streaming-writing-hdf5")
    else if StartsWith(m, FINALIZED) then ReceiverMatch(Streaming, After(m, FINALIZED), "streaming-finalized")
    else if ExportChunk(m).Some? then ReceiverMatch(Export, ExportChunk(m).value, "export-chunk")
    else if StartsWith(m, FINISHED_EXPORTING) then
      ReceiverMatch(Export, After(m, FINISHED_EXPORTING), "export-finished")
    else Match(Unknown, m, "", m)
  }

  // ---------- details ----------

  const LAST_RANK: nat := 9007199254740991

  /** `detailOrder`, with the largest safe integer for ids it does not list. */
  function Rank(id: string): nat {
    if id in {"main-progress", "streaming-finalizing", "export-chunk"} then 0
    else if id in {"main-export-wait", "streaming-rendering-interference", "export-finished"} then 1
    else if id in {"main-complete", "streaming-applying-noise"} then 2
    else if id == "streaming-writing-hdf5" then 3
    else if id == "streaming-finalized" then 4
    else LAST_RANK
  }

  predicate NotAfter(a: Detail, b: Detail) {
    Rank(a.id) <= Rank(b.id)
  }

  /** The order of the details of a step. */
  lemma RankIsPlace(k: nat)
    ensures k < 3 ==> Rank(["main-progress", "main-export-wait", "main-complete"][k]) == k
    ensures k < 5 ==>
              Rank(["streaming-finalizing", "streaming-rendering-interference", "streaming-applying-noise",
                    "streaming-writing-hdf5", "streaming-finalized"][k]) == k
    ensures k < 2 ==> Rank(["export-chunk", "export-finished"][k]) == k
  {
  }

  lemma NotAfterIsOrder()
    ensures TotalPreorder(NotAfter)
  {
  }

  /** `findIndex` for an id; the length when there is none. */
  function IndexOf(details: seq<Detail>, id: string): (i: nat)
    ensures i <= |details|
    ensures i < |details| ==> details[i].id == id
    ensures forall j :: 0 <= j < i ==> details[j].id != id
  {
    if details == [] || details[0].id == id then 0 else 1 + IndexOf(details[1..], id)
  }

  function Upsert(details: seq<Detail>, d: Detail): seq<Detail> {
    var i := IndexOf(details, d.id);
    if i == |details| then Sort(details + [d], NotAfter) else Sort(details[i := d], NotAfter)
  }

  // ---------- the reducer ----------

  function ToDetail(e: Event): Detail {
    Detail(MatchMessage(e.message).detailId, e)
  }

  function Merge(existing: Option<Step>, e: Event): Step {
    if MatchMessage(e.message).kind == Main then Step(e, [])
    else Step(e, Upsert(if existing.Some? then existing.value.details else [], ToDetail(e)))
  }

  function Lookup(m: Snapshot, key: string): Option<Step> {
    if key in m then Some(m[key]) else None
  }

  /** `addSimulationProgressEvent`. */
  function Add(m: Snapshot, e: Event): Snapshot {
    var key := MatchMessage(e.message).key;
    m[key := Merge(Lookup(m, key), e)]
  }

  function AddAll(events: seq<Event>): Snapshot {
    if events == [] then map[] else Add(AddAll(events[..|events| - 1]), events[|events| - 1])
  }

  // ---------- what the map means: the history of events ----------

  /** The last event of a step. */
  function LastOf(events: seq<Event>, key: string): Option<Event> {
    if events == [] then None
    else if MatchMessage(events[|events| - 1].message).key == key then Some(events[|events| - 1])
    else LastOf(events[..|events| - 1], key)
  }

  /** The last event of a step with a given detail id. */
  function LastDetailOf(events: seq<Event>, key: string, id: string): Option<Event> {
    if events == [] then None
    else
      var m := MatchMessage(events[|events| - 1].message);
      if m.key == key && m.detailId == id then Some(events[|events| - 1])
      else LastDetailOf(events[..|events| - 1], key, id)
  }

  function DetailAt(details: seq<Detail>, id: string): Option<Event> {
    var i := IndexOf(details, id);
    if i < |details| then Some(details[i].event) else None
  }

  ghost predicate UniqueIds(details: seq<Detail>) {
    DistinctBy(details, (detail: Detail) => detail.id)
  }

  /** A list of details of one step: unique ids, in the order of `detailOrder`, each message belonging where it is. */
  ghost predicate GoodDetails(details: seq<Detail>, key: string) {
    && UniqueIds(details)
    && Sorted(details, NotAfter)
    && (forall i :: 0 <= i < |details| ==>
          var m := MatchMessage(details[i].event.message);
          m.kind != Main && m.key == key && m.detailId == details[i].id)
  }

  lemma IndexOfUnique(details: seq<Detail>, i: nat)
    requires UniqueIds(details) && i < |details|
    ensures IndexOf(details, details[i].id) == i
  {
  }

  /** In a list without repeated ids an entry is found by its id, wherever it stands. */
  lemma DetailAtMember(details: seq<Detail>, d: Detail)
    requires UniqueIds(details) && d in details
    ensures DetailAt(details, d.id) == Some(d.event)
  {
    var i :| 0 <= i < |details| && details[i] == d;
    IndexOfUnique(details, i);
  }

  lemma DetailAtNone(details: seq<Detail>, id: string)
    ensures DetailAt(details, id) == None <==> forall d :: d in details ==> d.id != id
  {
    var i := IndexOf(details, id);
    if i < |details| {
      assert details[i] in details;
    }
  }

  /** The unsorted update that `upsertDetail` makes before it sorts. */
  function Put(details: seq<Detail>, d: Detail): seq<Detail> {
    var i := IndexOf(details, d.id);
    if i == |details| then details + [d] else details[i := d]
  }

  lemma PutFacts(details: seq<Detail>, d: Detail)
    requires UniqueIds(details)
    ensures UniqueIds(Put(details, d))
    ensures forall x :: x in Put(details, d) <==> x == d || (x in details && x.id != d.id)
  {
    var i, r := IndexOf(details, d.id), Put(details, d);
    forall x
      ensures x in r <==> x == d || (x in details && x.id != d.id)
    {
      if x in details && x.id != d.id {
        var j :| 0 <= j < |details| && details[j] == x;
        assert r[j] == x;
      }
      if x == d {
        assert r[i] == x;
      }
    }
  }

  /** Upserting a detail replaces what was stored under its id and keeps everything else. */
  lemma UpsertFacts(details: seq<Detail>, d: Detail)
    requires UniqueIds(details)
    ensures UniqueIds(Upsert(details, d)) && Sorted(Upsert(details, d), NotAfter)
    ensures forall x :: x in Upsert(details, d) <==> x == d || (x in details && x.id != d.id)
    ensures forall id :: DetailAt(Upsert(details, d), id) == if id == d.id then Some(d.event) else DetailAt(details, id)
  {
    hide Sort, InsertInto;
    var p, r := Put(details, d), Upsert(details, d);
    PutFacts(details, d);
    SortKeeps(p, NotAfter);
    NotAfterIsOrder();
    SortSorts(p, NotAfter);
    SortMembers(p, NotAfter);
    DistinctAfterReordering(p, r, (x: Detail) => x.id);
    forall id
      ensures DetailAt(r, id) == if id == d.id then Some(d.event) else DetailAt(details, id)
    {
      LookupAfterPut(details, d, r, id);
    }
  }

  lemma LookupAfterPut(details: seq<Detail>, d: Detail, r: seq<Detail>, id: string)
    requires UniqueIds(details) && UniqueIds(r)
    requires forall x :: x in r <==> x == d || (x in details && x.id != d.id)
    ensures DetailAt(r, id) == if id == d.id then Some(d.event) else DetailAt(details, id)
  {
    hide DetailAt;
    if id == d.id {
      DetailAtMember(r, d);
    } else if x :| x in details && x.id == id {
      DetailAtMember(details, x);
      DetailAtMember(r, x);
    } else {
      DetailAtNone(details, id);
      DetailAtNone(r, id);
    }
  }

  // ---------- the map refines the history ----------

  /** What one stored step says about the events so far. */
  ghost predicate Refines(step: Option<Step>, events: seq<Event>, key: string) {
    match step
    case None => LastOf(events, key) == None
    case Some(s) =>
      && LastOf(events, key) == Some(s.event)
      && GoodDetails(s.details, key)
      && (forall id :: DetailAt(s.details, id) == LastDetailOf(events, key, id))
  }

  lemma MainKey(m: string)
    ensures MatchMessage(m).kind == Main ==> MatchMessage(m).key == "main"
  {
  }

  lemma UpsertKeepsGood(details: seq<Detail>, e: Event, key: string)
    requires GoodDetails(details, key) && MatchMessage(e.message).kind != Main && MatchMessage(e.message).key == key
    ensures GoodDetails(Upsert(details, ToDetail(e)), key)
  {
    hide MatchMessage, Upsert;
    var d := ToDetail(e);
    UpsertFacts(details, d);
    var r := Upsert(details, d);
    forall i | 0 <= i < |r|
      ensures MatchMessage(r[i].event.message).kind != Main && MatchMessage(r[i].event.message).key == key
              && MatchMessage(r[i].event.message).detailId == r[i].id
    {
      assert r[i] in r;
      if r[i] != d {
        var j :| 0 <= j < |details| && details[j] == r[i];
      }
    }
  }

  /** After any sequence of events each step but the main one holds its last event; its details are, in the
      fixed order and without repetition, the last event of every detail id; and every stored message
      matches the step and the detail it is stored under. */
  lemma {:induction false} MapRefinesHistory(events: seq<Event>, key: string)
    requires key != "main"
    ensures Refines(Lookup(AddAll(events), key), events, key)
  {
    hide MatchMessage, Upsert;
    if events != [] {
      var init, e := events[..|events| - 1], events[|events| - 1];
      MapRefinesHistory(init, key);
      MainKey(e.message);
      var m := MatchMessage(e.message);
      if m.key == key {
        var before := Lookup(AddAll(init), key);
        var details := if before.Some? then before.value.details else [];
        if before.None? {
          NoHistory(init, key);
        }
        UpsertFacts(details, ToDetail(e));
        UpsertKeepsGood(details, e, key);
        var now := Lookup(AddAll(events), key).value;
        assert now == Step(e, Upsert(details, ToDetail(e)));
        forall id
          ensures DetailAt(now.details, id) == LastDetailOf(events, key, id)
        {
          assert DetailAt(details, id) == LastDetailOf(init, key, id);
        }
      }
    }
  }

  lemma {:induction false} NoHistory(events: seq<Event>, key: string)
    requires LastOf(events, key) == None
    ensures forall id :: LastDetailOf(events, key, id) == None
  {
    if events != [] {
      NoHistory(events[..|events| - 1], key);
    }
  }

  /** The main step holds the last event matched to it, too. */
  lemma {:induction false} MainStepIsLast(events: seq<Event>)
    ensures match Lookup(AddAll(events), "main")
            case None => LastOf(events, "main") == None
            case Some(s) => LastOf(events, "main") == Some(s.event)
  {
    hide MatchMessage, Upsert;
    if events != [] {
      MainStepIsLast(events[..|events| - 1]);
    }
  }

  // ---------- details of the same rank ----------

  /** The detail ids reported for a step, in the order of their first report. */
  function FirstReported(events: seq<Event>, key: string): seq<string> {
    if events == [] then []
    else
      var before, m := FirstReported(events[..|events| - 1], key), MatchMessage(events[|events| - 1].message);
      if m.key == key && m.detailId !in before then before + [m.detailId] else before
  }

  function OfRank(ids: seq<string>, rank: nat): seq<string> {
    if ids == [] then []
    else OfRank(ids[..|ids| - 1], rank) + if Rank(ids[|ids| - 1]) == rank then [ids[|ids| - 1]] else []
  }

  function IdsOf(details: seq<Detail>): seq<string> {
    seq(|details|, i requires 0 <= i < |details| => details[i].id)
  }

  lemma {:induction false} RankedIds(details: seq<Detail>, y: Detail)
    ensures IdsOf(RankedWith(details, y, NotAfter)) == OfRank(IdsOf(details), Rank(y.id))
  {
    hide Rank;
    if details != [] {
      var init := details[..|details| - 1];
      RankedIds(init, y);
      assert IdsOf(details)[..|details| - 1] == IdsOf(init);
    }
  }

  lemma OfRankAppend(ids: seq<string>, id: string, rank: nat)
    ensures OfRank(ids + [id], rank) == OfRank(ids, rank) + if Rank(id) == rank then [id] else []
  {
    assert (ids + [id])[..|ids|] == ids;
  }

  /** An upsert leaves the details of each rank in their order and puts a new one last. */
  lemma UpsertKeepsRank(details: seq<Detail>, d: Detail, y: Detail)
    ensures OfRank(IdsOf(Upsert(details, d)), Rank(y.id))
            == OfRank(if d.id in IdsOf(details) then IdsOf(details) else IdsOf(details) + [d.id], Rank(y.id))
  {
    hide Rank, Sort;
    var p := Put(details, d);
    NotAfterIsOrder();
    SortIsStable(p, y, NotAfter);
    RankedIds(p, y);
    RankedIds(Sort(p, NotAfter), y);
    var i := IndexOf(details, d.id);
    assert forall j :: 0 <= j < |details| ==> IdsOf(details)[j] == details[j].id;
    if i == |details| {
      assert IdsOf(p) == IdsOf(details) + [d.id];
    } else {
      assert IdsOf(details)[i] == d.id;
      assert IdsOf(p) == IdsOf(details);
    }
  }

  /** The ids stored for a step are those reported, and those of a rank stand in the order of their first report. */
  ghost predicate TiesKept(ids: seq<string>, reported: seq<string>, rank: nat) {
    && OfRank(ids, rank) == OfRank(reported, rank)
    && forall id :: id in ids <==> id in reported
  }

  function DetailsOf(events: seq<Event>, key: string): seq<Detail> {
    var step := Lookup(AddAll(events), key);
    if step.Some? then step.value.details else []
  }

  /** One event more about the step. */
  lemma TiesStep(details: seq<Detail>, reported: seq<string>, d: Detail, y: Detail)
    requires UniqueIds(details) && TiesKept(IdsOf(details), reported, Rank(y.id))
    ensures TiesKept(IdsOf(Upsert(details, d)), if d.id in reported then reported else reported + [d.id], Rank(y.id))
  {
    hide Upsert, Rank, OfRank, UniqueIds, IdsOf;
    UpsertKeepsRank(details, d, y);
    UpsertedIds(details, d);
    OfRankAppend(IdsOf(details), d.id, Rank(y.id));
    OfRankAppend(reported, d.id, Rank(y.id));
  }

  lemma DetailsAfter(init: seq<Event>, e: Event, key: string)
    requires key != "main"
    ensures UniqueIds(DetailsOf(init, key))
    ensures DetailsOf(init + [e], key)
            == if MatchMessage(e.message).key == key then Upsert(DetailsOf(init, key), ToDetail(e))
               else DetailsOf(init, key)
  {
    MapRefinesHistory(init, key);
    MainKey(e.message);
    hide MatchMessage, Upsert;
    assert (init + [e])[..|init|] == init;
  }

  /** Details of the same rank stand in the order in which they were first reported. So, with their ids, their ranks and
      the events they hold, the details of a step are determined. */
  lemma {:induction false} TiesByFirstReport(events: seq<Event>, key: string, y: Detail)
    requires key != "main"
    ensures TiesKept(IdsOf(DetailsOf(events, key)), FirstReported(events, key), Rank(y.id))
  {
    hide MatchMessage, Upsert, Rank, TiesKept, IdsOf, UniqueIds;
    if events == [] {
      NothingReported(key, y);
    } else {
      var init, e := events[..|events| - 1], events[|events| - 1];
      assert events == init + [e];
      TiesByFirstReport(init, key, y);
      DetailsAfter(init, e, key);
      hide DetailsOf;
      if MatchMessage(e.message).key == key {
        TiesStep(DetailsOf(init, key), FirstReported(init, key), ToDetail(e), y);
      }
    }
  }

  lemma NothingReported(key: string, y: Detail)
    ensures TiesKept(IdsOf(DetailsOf([], key)), FirstReported([], key), Rank(y.id))
  {
  }

  lemma UpsertedIds(details: seq<Detail>, d: Detail)
    requires UniqueIds(details)
    ensures forall id :: id in IdsOf(Upsert(details, d)) <==> id == d.id || id in IdsOf(details)
  {
    hide Upsert;
    UpsertFacts(details, d);
    var r := Upsert(details, d);
    forall id
      ensures id in IdsOf(r) <==> id == d.id || id in IdsOf(details)
    {
      IdListed(r, id);
      IdListed(details, id);
    }
  }

  lemma IdListed(details: seq<Detail>, id: string)
    ensures id in IdsOf(details) <==> DetailAt(details, id).Some?
  {
    var i := IndexOf(details, id);
    if i < |details| {
      assert IdsOf(details)[i] == id;
    }
  }

  // ---------- the completion pass ----------

  function Percent(e: Event): Option<real> {
    if e.total <= 0 then None
    else
      var p := e.current as real / e.total as real * 100.0;
      Some(if p < 0.0 then 0.0 else if p > 100.0 then 100.0 else p)
  }

  /** `getSimulationProgressPercent`: nothing without a total, and otherwise the share done, kept between 0 and 100. */
  lemma PercentIs(e: Event)
    ensures Percent(e).None? <==> e.total <= 0
    ensures e.total > 0 && 0 <= e.current <= e.total ==>
              Percent(e).value * e.total as real == 100.0 * e.current as real
    ensures e.total > 0 && e.current < 0 ==> Percent(e) == Some(0.0)
    ensures e.total > 0 && e.current > e.total ==> Percent(e) == Some(100.0)
  {
    if e.total > 0 {
      var c, t := e.current as real, e.total as real;
      Reals.QuotientTimes(c, t);
      if e.current < 0 {
        Reals.CancelAtMost(c / t, 0.0, t);
      } else {
        Reals.CancelAtMost(0.0, c / t, t);
        if e.current <= e.total {
          Reals.CancelAtMost(c / t, 1.0, t);
        } else {
          Reals.CancelAtMost(1.0, c / t, t);
        }
      }
    }
  }

  function SortValue(e: Event): real {
    if Percent(e).Some? then Percent(e).value else 0.0
  }

  const COMPLETE: Event := Event("Simulation complete", 100, 100)

  /** `completeProgressForMatch`. */
  function CompleteEvent(m: Match, e: Event): Event {
    match m.kind
    case Main => COMPLETE
    case Streaming => Event(FINALIZED + m.receiverName, 100, 100)
    case Export => Event(FINISHED_EXPORTING + m.receiverName, 100, 100)
    case Unknown => e
  }

  function ChooseLatest(existing: Option<Step>, next: Step): Step {
    if existing.None? || SortValue(next.event) >= SortValue(existing.value.event) then next else existing.value
  }

  function MergeDetails(m: Snapshot, details: seq<Detail>): Snapshot {
    if details == [] then m else Add(MergeDetails(m, details[..|details| - 1]), details[|details| - 1].event)
  }

  /** One turn of the loop over the stored steps. */
  function CompleteItem(m: Snapshot, item: Step): Snapshot {
    var merged := Add(MergeDetails(m, item.details), item.event);
    var found := MatchMessage(item.event.message);
    var existing := Lookup(merged, found.key);
    merged[found.key := ChooseLatest(existing, Merge(existing, CompleteEvent(found, item.event)))]
  }

  function CompleteItems(m: Snapshot, progress: Snapshot, keys: seq<string>): Snapshot
    requires forall i :: 0 <= i < |keys| ==> keys[i] in progress
  {
    if keys == [] then m
    else CompleteItem(CompleteItems(m, progress, keys[..|keys| - 1]), progress[keys[|keys| - 1]])
  }

  /** The keys of the map in the order in which JavaScript enumerates them. */
  ghost predicate Enumerates(keys: seq<string>, progress: Snapshot) {
    && (forall i, j :: 0 <= i < j < |keys| ==> keys[i] != keys[j])
    && (forall k :: k in keys <==> k in progress)
  }

  /** `normalizeCompletedProgressSnapshot`, for one enumeration of the keys. */
  function NormalizedInOrder(progress: Snapshot, keys: seq<string>): Snapshot
    requires forall i :: 0 <= i < |keys| ==> keys[i] in progress
  {
    Add(CompleteItems(map[], progress, keys), COMPLETE)
  }
}
