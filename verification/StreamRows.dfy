/** `mergeVita49StreamRows`: the expected receiver streams joined with the backend's counters. */
module StreamRows {
  import opened Wrappers
  import opened Sorting
  import Decimal

  datatype Mode = Pulsed | Cw | Fmcw | Sfcw | UnknownMode

  datatype Timestamp = Timestamp(seconds: nat, picoseconds: nat)

  datatype Figures = Figures(
    sampleRate: Option<real>, referenceFrequency: Option<real>,
    packetsEmitted: nat, contextPackets: nat, samplesEmitted: nat, packetsDropped: nat, samplesDropped: nat,
    overRangeCount: nat, lateDataPackets: nat, lateContextPackets: nat,
    firstSampleTime: Option<real>, endSampleTime: Option<real>,
    firstTimestamp: Option<Timestamp>, endTimestamp: Option<Timestamp>)

  datatype Row = Row(
    key: string, receiverId: int, receiverName: string, platformName: string, mode: Mode,
    streamId: Option<int>, figures: Figures, backendObserved: bool)

  /** The context packets of a counter come under one of two names, or not at all. */
  datatype Counter = Counter(
    receiverId: int, receiverName: string, streamId: int, mode: Option<string>,
    sampleRate: real, referenceFrequency: real,
    packetsEmitted: nat, contextPackets: Option<nat>, contextPacketCount: Option<nat>, samplesEmitted: nat,
    packetsDropped: nat, samplesDropped: nat, overRangeCount: nat, lateDataPackets: nat, lateContextPackets: nat,
    firstSampleTime: Option<real>, endSampleTime: Option<real>,
    firstTimestamp: Option<Timestamp>, endTimestamp: Option<Timestamp>)

  function NormalizedMode(mode: Option<string>): Mode {
    if mode == Some("pulsed") then Pulsed
    else if mode == Some("cw") then Cw
    else if mode == Some("fmcw") then Fmcw
    else if mode == Some("sfcw") then Sfcw
    else UnknownMode
  }

  function ModeText(m: Mode): string {
    match m
    case Pulsed => "pulsed"
    case Cw => "cw"
    case Fmcw => "fmcw"
    case Sfcw => "sfcw"
    case UnknownMode => "unknown"
  }

  /** The four known modes are read back, and every other text is the unknown one. */
  lemma ModeIsRead(text: Option<string>)
    ensures match text
            case Some("pulsed") => NormalizedMode(text) == Pulsed
            case Some("cw") => NormalizedMode(text) == Cw
            case Some("fmcw") => NormalizedMode(text) == Fmcw
            case Some("sfcw") => NormalizedMode(text) == Sfcw
            case _ => NormalizedMode(text) == UnknownMode
    ensures NormalizedMode(text) != UnknownMode ==> text == Some(ModeText(NormalizedMode(text)))
  {
  }

  function ModeOrder(m: Mode): (place: nat)
    ensures place < 5 && [Pulsed, Cw, Fmcw, Sfcw, UnknownMode][place] == m
  {
    match m
    case Pulsed => 0
    case Cw => 1
    case Fmcw => 2
    case Sfcw => 3
    case UnknownMode => 4
  }

  /** The text of an integral number in a template string. */
  function NumberText(n: int): string {
    if n < 0 then "-" + Decimal.Print(-n) else Decimal.Print(n)
  }

  // ---------- a map that remembers the order of insertion ----------

  datatype RowMap = RowMap(keys: seq<string>, rows: map<string, Row>) {
    ghost predicate Valid() {
      && (forall i, j :: 0 <= i < j < |keys| ==> keys[i] != keys[j])
      && (forall k :: k in keys <==> k in rows)
    }

    function Set(k: string, r: Row): RowMap {
      RowMap(if k in rows then keys else keys + [k], rows[k := r])
    }

    function Values(): seq<Row>
      requires Valid()
    {
      seq(|keys|, i requires 0 <= i < |keys| => assert keys[i] in keys; rows[keys[i]])
    }
  }

  function FromRows(rows: seq<Row>): RowMap {
    if rows == [] then RowMap([], map[])
    else FromRows(rows[..|rows| - 1]).Set(rows[|rows| - 1].key, rows[|rows| - 1])
  }

  // ---------- resolving a counter to a row ----------

  function OfReceiver(rows: seq<Row>, receiverId: int): seq<Row> {
    if rows == [] then []
    else
      OfReceiver(rows[..|rows| - 1], receiverId)
      + (if rows[|rows| - 1].receiverId == receiverId then [rows[|rows| - 1]] else [])
  }

  function RowAt(m: RowMap, k: string): Option<Row> {
    if k in m.rows then Some(m.rows[k]) else None
  }

  /** By receiver and mode, or else by receiver alone when it has just one row. */
  function FindExpected(expected: seq<Row>, c: Counter): Option<Row> {
    var byKey := FromRows(expected);
    var mode := NormalizedMode(c.mode);
    var exact := if mode != UnknownMode then RowAt(byKey, NumberText(c.receiverId) + ":" + ModeText(mode)) else None;
    if exact.Some? then exact
    else
      var rows := OfReceiver(expected, c.receiverId);
      if |rows| == 1 then RowAt(byKey, rows[0].key) else None
  }

  function OwnKey(c: Counter): string {
    NumberText(c.receiverId) + ":" + ModeText(NormalizedMode(c.mode)) + ":" + NumberText(c.streamId)
  }

  function ContextCount(c: Counter): nat {
    if c.contextPackets.Some? then c.contextPackets.value
    else if c.contextPacketCount.Some? then c.contextPacketCount.value else 0
  }

  function FiguresOf(c: Counter): Figures {
    Figures(Some(c.sampleRate), Some(c.referenceFrequency), c.packetsEmitted, ContextCount(c), c.samplesEmitted,
            c.packetsDropped, c.samplesDropped, c.overRangeCount, c.lateDataPackets, c.lateContextPackets,
            c.firstSampleTime, c.endSampleTime, c.firstTimestamp, c.endTimestamp)
  }

  function ResolvedKey(expected: seq<Row>, c: Counter): string {
    var existing := FindExpected(expected, c);
    if existing.Some? then existing.value.key else OwnKey(c)
  }

  /** The row a counter leaves behind. */
  function ObservedRow(expected: seq<Row>, c: Counter): Row {
    var existing := FindExpected(expected, c);
    var mode := NormalizedMode(c.mode);
    Row(ResolvedKey(expected, c),
        if existing.Some? then existing.value.receiverId else c.receiverId,
        if c.receiverName != "" then c.receiverName else if existing.Some? then existing.value.receiverName else "",
        if existing.Some? then existing.value.platformName else "",
        if mode != UnknownMode then mode else if existing.Some? then existing.value.mode else mode,
        Some(c.streamId), FiguresOf(c), true)
  }

  function MergeAll(expected: seq<Row>, counters: seq<Counter>): RowMap {
    if counters == [] then FromRows(expected)
    else
      var c := counters[|counters| - 1];
      MergeAll(expected, counters[..|counters| - 1]).Set(ResolvedKey(expected, c), ObservedRow(expected, c))
  }

  // ---------- order ----------

  function StreamOrZero(r: Row): int {
    if r.streamId.Some? then r.streamId.value else 0
  }

  predicate RowNotAfter(a: Row, b: Row) {
    if a.receiverId != b.receiverId then a.receiverId < b.receiverId
    else if ModeOrder(a.mode) != ModeOrder(b.mode) then ModeOrder(a.mode) < ModeOrder(b.mode)
    else StreamOrZero(a) <= StreamOrZero(b)
  }

  lemma RowNotAfterIsOrder()
    ensures TotalPreorder(RowNotAfter)
  {
    hide ModeOrder, StreamOrZero;
  }

  /** The counters are None when no statistics have arrived. */
  function Merged(expected: seq<Row>, counters: Option<seq<Counter>>): seq<Row> {
    if counters.None? then expected
    else
      MergedIsValid(expected, counters.value);
      Sort(MergeAll(expected, counters.value).Values(), RowNotAfter)
  }

  /** Rows stand by receiver; those of a receiver by mode; those of a mode by stream, an absent one counting as 0. */
  ghost predicate InRowOrder(rows: seq<Row>) {
    forall i, j :: 0 <= i < j < |rows| ==>
      && rows[i].receiverId <= rows[j].receiverId
      && (rows[i].receiverId == rows[j].receiverId ==>
            && ModeOrder(rows[i].mode) <= ModeOrder(rows[j].mode)
            && (rows[i].mode == rows[j].mode ==>
                  (if rows[i].streamId.Some? then rows[i].streamId.value else 0)
                  <= (if rows[j].streamId.Some? then rows[j].streamId.value else 0)))
  }

  /** The row shows the counter: its stream and every figure; and for the rest what the expected row says, unless the
      counter names the receiver or the mode. */
  ghost predicate ShownBy(row: Row, existing: Option<Row>, c: Counter) {
    && row.streamId == Some(c.streamId) && row.backendObserved
    && row.figures.sampleRate == Some(c.sampleRate) && row.figures.referenceFrequency == Some(c.referenceFrequency)
    && row.figures.packetsEmitted == c.packetsEmitted && row.figures.samplesEmitted == c.samplesEmitted
    && (c.contextPackets.Some? ==> row.figures.contextPackets == c.contextPackets.value)
    && (c.contextPackets.None? && c.contextPacketCount.Some? ==>
          row.figures.contextPackets == c.contextPacketCount.value)
    && (c.contextPackets.None? && c.contextPacketCount.None? ==> row.figures.contextPackets == 0)
    && row.figures.packetsDropped == c.packetsDropped && row.figures.samplesDropped == c.samplesDropped
    && row.figures.overRangeCount == c.overRangeCount
    && row.figures.lateDataPackets == c.lateDataPackets && row.figures.lateContextPackets == c.lateContextPackets
    && row.figures.firstSampleTime == c.firstSampleTime && row.figures.endSampleTime == c.endSampleTime
    && row.figures.firstTimestamp == c.firstTimestamp && row.figures.endTimestamp == c.endTimestamp
    && (c.receiverName != "" ==> row.receiverName == c.receiverName)
    && (NormalizedMode(c.mode) != UnknownMode ==> row.mode == NormalizedMode(c.mode))
    && match existing
       case Some(e) =>
         && row.key == e.key && row.receiverId == e.receiverId && row.platformName == e.platformName
         && (c.receiverName == "" ==> row.receiverName == e.receiverName)
         && (NormalizedMode(c.mode) == UnknownMode ==> row.mode == e.mode)
       case None =>
         && row.key == NumberText(c.receiverId) + ":" + ModeText(row.mode) + ":" + NumberText(c.streamId)
         && row.receiverId == c.receiverId && row.platformName == "" && row.receiverName == c.receiverName
         && row.mode == NormalizedMode(c.mode)
  }

  lemma ObservedRowShows(expected: seq<Row>, c: Counter)
    ensures ShownBy(ObservedRow(expected, c), FindExpected(expected, c), c)
  {
    hide FindExpected, ModeText, NumberText, NormalizedMode;
  }

  lemma {:induction false} FromRowsIsValid(rows: seq<Row>)
    ensures FromRows(rows).Valid()
    ensures forall k :: k in FromRows(rows).rows <==> exists i :: 0 <= i < |rows| && rows[i].key == k
    ensures forall k :: k in FromRows(rows).rows ==> FromRows(rows).rows[k] in rows && FromRows(rows).rows[k].key == k
  {
    if rows != [] {
      var init, last := rows[..|rows| - 1], rows[|rows| - 1];
      FromRowsIsValid(init);
      assert rows == init + [last];
      forall k
        ensures k in FromRows(rows).rows <==> exists i :: 0 <= i < |rows| && rows[i].key == k
      {
        if k in FromRows(init).rows {
          var i :| 0 <= i < |init| && init[i].key == k;
          assert rows[i].key == k;
        }
        if k == last.key {
          assert rows[|init|].key == k;
        }
        if i :| 0 <= i < |rows| && rows[i].key == k {
          assert i == |init| || init[i].key == k;
        }
      }
    }
  }

  lemma {:induction false} MergedIsValid(expected: seq<Row>, counters: seq<Counter>)
    ensures MergeAll(expected, counters).Valid()
  {
    hide ResolvedKey, ObservedRow;
    if counters == [] {
      FromRowsIsValid(expected);
    } else {
      MergedIsValid(expected, counters[..|counters| - 1]);
    }
  }

  // ---------- what the merge means ----------

  /** The last counter that resolves to a key. */
  function LastFor(expected: seq<Row>, counters: seq<Counter>, k: string): Option<Counter> {
    if counters == [] then None
    else if ResolvedKey(expected, counters[|counters| - 1]) == k then Some(counters[|counters| - 1])
    else LastFor(expected, counters[..|counters| - 1], k)
  }

  /** What stands under a key: the row of the last counter that resolves to it, or else the expected row. */
  lemma {:induction false} RowAtKey(expected: seq<Row>, counters: seq<Counter>, k: string)
    ensures RowAt(MergeAll(expected, counters), k)
            == match LastFor(expected, counters, k)
               case Some(c) => Some(ObservedRow(expected, c))
               case None => RowAt(FromRows(expected), k)
  {
    hide ResolvedKey, ObservedRow, FromRows;
    if counters != [] {
      RowAtKey(expected, counters[..|counters| - 1], k);
    }
  }

  ghost predicate DistinctKeys(rows: seq<Row>) {
    DistinctBy(rows, (row: Row) => row.key)
  }

  lemma {:induction false} ExpectedRowAt(expected: seq<Row>, i: nat)
    requires DistinctKeys(expected) && i < |expected|
    ensures RowAt(FromRows(expected), expected[i].key) == Some(expected[i])
  {
    var last := |expected| - 1;
    if i < last {
      assert expected[..last][i] == expected[i];
      ExpectedRowAt(expected[..last], i);
    }
  }

  lemma RowsCarryTheirKeys(expected: seq<Row>, counters: seq<Counter>)
    ensures MergeAll(expected, counters).Valid()
    ensures forall k :: k in MergeAll(expected, counters).rows ==> MergeAll(expected, counters).rows[k].key == k
  {
    MergedIsValid(expected, counters);
    forall k | k in MergeAll(expected, counters).rows
      ensures MergeAll(expected, counters).rows[k].key == k
    {
      RowAtKey(expected, counters, k);
      FromRowsIsValid(expected);
      LastForResolves(expected, counters, k);
    }
  }

  lemma {:induction false} LastForResolves(expected: seq<Row>, counters: seq<Counter>, k: string)
    ensures match LastFor(expected, counters, k)
            case Some(c) => c in counters && ResolvedKey(expected, c) == k
            case None => forall i :: 0 <= i < |counters| ==> ResolvedKey(expected, counters[i]) != k
  {
    hide ResolvedKey;
    if counters != [] {
      var init := counters[..|counters| - 1];
      LastForResolves(expected, init, k);
      assert forall i :: 0 <= i < |init| ==> counters[i] == init[i];
    }
  }

  lemma SortedIsInRowOrder(rows: seq<Row>)
    requires Sorted(rows, RowNotAfter)
    ensures InRowOrder(rows)
  {
    forall i, j | 0 <= i < j < |rows|
      ensures RowNotAfter(rows[i], rows[j])
    {
    }
    hide ModeOrder;
    assert forall a, b :: ModeOrder(a) == ModeOrder(b) ==> a == b;
  }

  ghost predicate SoleRow(rows: seq<Row>, receiverId: int, i: nat) {
    && i < |rows| && rows[i].receiverId == receiverId
    && (forall j :: 0 <= j < |rows| && j != i ==> rows[j].receiverId != receiverId)
  }

  lemma {:induction false} OfReceiverIsSole(rows: seq<Row>, receiverId: int)
    ensures |OfReceiver(rows, receiverId)| == 0 <==> forall j :: 0 <= j < |rows| ==> rows[j].receiverId != receiverId
    ensures |OfReceiver(rows, receiverId)| == 1
            <==> exists i: nat :: SoleRow(rows, receiverId, i) && OfReceiver(rows, receiverId) == [rows[i]]
    ensures (exists i: nat :: SoleRow(rows, receiverId, i)) ==> |OfReceiver(rows, receiverId)| == 1
  {
    if rows != [] {
      var init, last := rows[..|rows| - 1], |rows| - 1;
      OfReceiverIsSole(init, receiverId);
      assert forall j :: 0 <= j < last ==> init[j] == rows[j];
      if rows[last].receiverId == receiverId {
        if |OfReceiver(init, receiverId)| == 0 {
          assert SoleRow(rows, receiverId, last);
        } else {
          var j :| 0 <= j < last && init[j].receiverId == receiverId;
          assert rows[j].receiverId == receiverId;
        }
      } else {
        assert forall i: nat :: SoleRow(rows, receiverId, i) <==> SoleRow(init, receiverId, i);
      }
    }
  }

  /** The expected row of a counter: the one whose key is its receiver and known mode; if there is none, the only row of
      its receiver; and otherwise none. */
  lemma ExpectedRowIs(expected: seq<Row>, c: Counter)
    requires DistinctKeys(expected)
    ensures var key := NumberText(c.receiverId) + ":" + ModeText(NormalizedMode(c.mode));
            if i :| 0 <= i < |expected| && NormalizedMode(c.mode) != UnknownMode && expected[i].key == key
            then FindExpected(expected, c) == Some(expected[i])
            else if i: nat :| SoleRow(expected, c.receiverId, i) then FindExpected(expected, c) == Some(expected[i])
            else FindExpected(expected, c) == None
  {
    hide NumberText, ModeText, NormalizedMode, FromRows, OfReceiver;
    var key := NumberText(c.receiverId) + ":" + ModeText(NormalizedMode(c.mode));
    FromRowsIsValid(expected);
    OfReceiverIsSole(expected, c.receiverId);
    forall i | 0 <= i < |expected|
      ensures RowAt(FromRows(expected), expected[i].key) == Some(expected[i])
    {
      ExpectedRowAt(expected, i);
    }
  }

  /** Each merged row is that of the last counter that resolves to its key, or an expected row. */
  lemma MergedRowIs(expected: seq<Row>, counters: seq<Counter>, r: Row)
    requires r in Merged(expected, Some(counters))
    ensures RowAt(MergeAll(expected, counters), r.key) == Some(r)
    ensures match LastFor(expected, counters, r.key)
            case Some(c) => r == ObservedRow(expected, c) && ShownBy(r, FindExpected(expected, c), c)
            case None => r in expected
  {
    hide ResolvedKey, ObservedRow, FindExpected, ShownBy, FromRows, MergeAll, RowNotAfter, Sort;
    var m := MergeAll(expected, counters);
    RowsCarryTheirKeys(expected, counters);
    SortMembers(m.Values(), RowNotAfter);
    var i :| 0 <= i < |m.keys| && m.Values()[i] == r;
    assert m.keys[i] in m.keys;
    RowAtKey(expected, counters, r.key);
    FromRowsIsValid(expected);
    if LastFor(expected, counters, r.key).Some? {
      ObservedRowShows(expected, LastFor(expected, counters, r.key).value);
    }
  }

  ghost predicate HasRow(rows: seq<Row>, k: string) {
    exists j :: 0 <= j < |rows| && rows[j].key == k
  }

  lemma MergedHasKey(expected: seq<Row>, counters: seq<Counter>, k: string)
    requires k in MergeAll(expected, counters).rows
    ensures HasRow(Merged(expected, Some(counters)), k)
  {
    hide ResolvedKey, ObservedRow, FromRows, MergeAll, RowNotAfter, Sort;
    var m, rows := MergeAll(expected, counters), Merged(expected, Some(counters));
    RowsCarryTheirKeys(expected, counters);
    SortMembers(m.Values(), RowNotAfter);
    var i :| 0 <= i < |m.keys| && m.keys[i] == k;
    assert m.Values()[i] in m.Values();
    assert m.Values()[i] in rows;
    var j :| 0 <= j < |rows| && rows[j] == m.Values()[i];
    assert rows[j].key == k;
  }

  lemma MergedIsOrdered(expected: seq<Row>, counters: seq<Counter>)
    ensures DistinctKeys(Merged(expected, Some(counters))) && InRowOrder(Merged(expected, Some(counters)))
  {
    hide ResolvedKey, ObservedRow, FromRows, MergeAll, RowNotAfter, Sort, InRowOrder;
    var m, rows := MergeAll(expected, counters), Merged(expected, Some(counters));
    RowsCarryTheirKeys(expected, counters);
    RowNotAfterIsOrder();
    SortSorts(m.Values(), RowNotAfter);
    SortedIsInRowOrder(rows);
    SortKeeps(m.Values(), RowNotAfter);
    forall i, j | 0 <= i < j < |m.keys|
      ensures m.Values()[i].key != m.Values()[j].key
    {
      assert m.keys[i] in m.keys && m.keys[j] in m.keys;
    }
    DistinctAfterReordering(m.Values(), rows, (r: Row) => r.key);
  }

  /** The merged rows have unique keys and stand in order of receiver, mode and stream. There is one for each
      expected row and each counter; a row shows the last counter that resolves to its key,
      and if there is none it is the expected row unchanged. */
  lemma MergedRows(expected: seq<Row>, counters: seq<Counter>)
    requires DistinctKeys(expected)
    ensures var rows := Merged(expected, Some(counters));
            && DistinctKeys(rows) && InRowOrder(rows)
            && (forall i :: 0 <= i < |expected| ==> HasRow(rows, expected[i].key))
            && (forall i :: 0 <= i < |counters| ==> HasRow(rows, ResolvedKey(expected, counters[i])))
            && (forall j :: 0 <= j < |rows| ==>
                  match LastFor(expected, counters, rows[j].key)
                  case Some(c) => rows[j] == ObservedRow(expected, c) && ShownBy(rows[j], FindExpected(expected, c), c)
                  case None => rows[j] in expected)
  {
    hide ResolvedKey, ObservedRow, FindExpected, ShownBy, FromRows, MergeAll, Merged, InRowOrder, HasRow;
    MergedIsOrdered(expected, counters);
    var rows := Merged(expected, Some(counters));
    forall i | 0 <= i < |expected|
      ensures HasRow(rows, expected[i].key)
    {
      RowAtKey(expected, counters, expected[i].key);
      ExpectedRowAt(expected, i);
      MergedHasKey(expected, counters, expected[i].key);
    }
    forall i | 0 <= i < |counters|
      ensures HasRow(rows, ResolvedKey(expected, counters[i]))
    {
      RowAtKey(expected, counters, ResolvedKey(expected, counters[i]));
      LastForResolves(expected, counters, ResolvedKey(expected, counters[i]));
      MergedHasKey(expected, counters, ResolvedKey(expected, counters[i]));
    }
    forall j | 0 <= j < |rows|
      ensures match LastFor(expected, counters, rows[j].key)
              case Some(c) => rows[j] == ObservedRow(expected, c) && ShownBy(rows[j], FindExpected(expected, c), c)
              case None => rows[j] in expected
    {
      MergedRowIs(expected, counters, rows[j]);
    }
  }

  // ---------- totals ----------

  /** The counts of a stream that are totalled. */
  datatype Count =
    PacketsEmitted | ContextPackets | SamplesEmitted | PacketsDropped | SamplesDropped | OverRange | LateData
    | LateContext

  /** What a row shows. */
  function Shown(f: Figures, count: Count): nat {
    match count
    case PacketsEmitted => f.packetsEmitted
    case ContextPackets => f.contextPackets
    case SamplesEmitted => f.samplesEmitted
    case PacketsDropped => f.packetsDropped
    case SamplesDropped => f.samplesDropped
    case OverRange => f.overRangeCount
    case LateData => f.lateDataPackets
    case LateContext => f.lateContextPackets
  }

  /** What a counter reports. */
  function Reported(c: Counter, count: Count): nat {
    match count
    case PacketsEmitted => c.packetsEmitted
    case ContextPackets =>
      if c.contextPackets.Some? then c.contextPackets.value
      else if c.contextPacketCount.Some? then c.contextPacketCount.value else 0
    case SamplesEmitted => c.samplesEmitted
    case PacketsDropped => c.packetsDropped
    case SamplesDropped => c.samplesDropped
    case OverRange => c.overRangeCount
    case LateData => c.lateDataPackets
    case LateContext => c.lateContextPackets
  }

  lemma RowsShowWhatIsReported(expected: seq<Row>, c: Counter, count: Count)
    ensures Shown(ObservedRow(expected, c).figures, count) == Reported(c, count)
  {
    hide FindExpected, ResolvedKey;
  }

  function Total(rows: seq<Row>, count: Count): nat {
    if rows == [] then 0 else Total(rows[..|rows| - 1], count) + Shown(rows[|rows| - 1].figures, count)
  }

  function CounterTotal(counters: seq<Counter>, count: Count): nat {
    if counters == [] then 0
    else CounterTotal(counters[..|counters| - 1], count) + Reported(counters[|counters| - 1], count)
  }

  lemma {:induction false} TotalOfInsert(rows: seq<Row>, x: Row, count: Count)
    ensures Total(InsertInto(rows, x, RowNotAfter), count) == Total(rows, count) + Shown(x.figures, count)
  {
    hide RowNotAfter;
    if rows != [] && !RowNotAfter(rows[|rows| - 1], x) {
      TotalOfInsert(rows[..|rows| - 1], x, count);
    }
  }

  lemma {:induction false} TotalOfSort(rows: seq<Row>, count: Count)
    ensures Total(Sort(rows, RowNotAfter), count) == Total(rows, count)
  {
    hide RowNotAfter, InsertInto;
    if rows != [] {
      TotalOfSort(rows[..|rows| - 1], count);
      TotalOfInsert(Sort(rows[..|rows| - 1], RowNotAfter), rows[|rows| - 1], count);
    }
  }

  lemma {:induction false} TotalOfReplacement(rows: seq<Row>, i: nat, x: Row, count: Count)
    requires i < |rows|
    ensures Total(rows[i := x], count) == Total(rows, count) - Shown(rows[i].figures, count) + Shown(x.figures, count)
  {
    var last := |rows| - 1;
    if i == last {
      assert rows[i := x][..last] == rows[..last];
    } else {
      assert rows[i := x][..last] == rows[..last][i := x];
      TotalOfReplacement(rows[..last], i, x, count);
    }
  }

  lemma ValuesAfterReplacing(m: RowMap, i: nat, r: Row)
    requires m.Valid() && i < |m.keys|
    ensures m.Set(m.keys[i], r).Valid() && m.Set(m.keys[i], r).Values() == m.Values()[i := r]
  {
    assert m.keys[i] in m.keys;
    var t := m.Set(m.keys[i], r);
    forall j | 0 <= j < |m.keys|
      ensures t.Values()[j] == m.Values()[i := r][j]
    {
      assert m.keys[j] in m.keys;
    }
  }

  lemma ValuesAfterAdding(m: RowMap, k: string, r: Row)
    requires m.Valid() && k !in m.rows
    ensures m.Set(k, r).Valid() && m.Set(k, r).Values() == m.Values() + [r]
  {
    var t := m.Set(k, r);
    forall i | 0 <= i < |m.keys|
      ensures m.keys[i] in m.rows && m.keys[i] != k
    {
      assert m.keys[i] in m.keys;
    }
    assert forall x :: x in t.keys <==> x in m.keys || x == k;
  }

  lemma TotalOfExtension(rows: seq<Row>, r: Row, count: Count)
    ensures Total(rows + [r], count) == Total(rows, count) + Shown(r.figures, count)
  {
    assert (rows + [r])[..|rows|] == rows;
  }

  /** Setting a key adds the new count and takes away the one that was there. */
  lemma TotalOfSet(m: RowMap, k: string, r: Row, count: Count)
    requires m.Valid()
    ensures m.Set(k, r).Valid()
    ensures Total(m.Set(k, r).Values(), count)
            == Total(m.Values(), count) - (if k in m.rows then Shown(m.rows[k].figures, count) else 0)
               + Shown(r.figures, count)
  {
    hide Total, RowMap.Set;
    if k in m.rows {
      assert k in m.keys;
      var i :| 0 <= i < |m.keys| && m.keys[i] == k;
      ValuesAfterReplacing(m, i, r);
      TotalOfReplacement(m.Values(), i, r, count);
    } else {
      ValuesAfterAdding(m, k, r);
      TotalOfExtension(m.Values(), r, count);
    }
  }

  ghost predicate Blank(rows: seq<Row>, count: Count) {
    forall i :: 0 <= i < |rows| ==> Shown(rows[i].figures, count) == 0
  }

  lemma {:induction false} TotalOfBlank(rows: seq<Row>, count: Count)
    requires Blank(rows, count)
    ensures Total(rows, count) == 0
  {
    if rows != [] {
      TotalOfBlank(rows[..|rows| - 1], count);
    }
  }

  lemma TotalOfExpected(expected: seq<Row>, count: Count)
    requires Blank(expected, count)
    ensures FromRows(expected).Valid() && Total(FromRows(expected).Values(), count) == 0
  {
    FromRowsIsValid(expected);
    var m := FromRows(expected);
    forall i | 0 <= i < |m.keys|
      ensures Shown(m.Values()[i].figures, count) == 0
    {
      assert m.keys[i] in m.keys;
      assert m.Values()[i] in expected;
    }
    TotalOfBlank(m.Values(), count);
  }

  /** What the counters report that is replaced when a later counter resolves to the same row. */
  function Overwritten(expected: seq<Row>, counters: seq<Counter>, count: Count): nat {
    if counters == [] then 0
    else
      var init, c := counters[..|counters| - 1], counters[|counters| - 1];
      Overwritten(expected, init, count)
      + match LastFor(expected, init, ResolvedKey(expected, c))
        case Some(d) => Reported(d, count)
        case None => 0
  }

  /** What stood under the key of a counter before it. */
  lemma FigureReplaced(expected: seq<Row>, init: seq<Counter>, k: string, count: Count)
    requires Blank(expected, count)
    ensures var m := MergeAll(expected, init);
            (if k in m.rows then Shown(m.rows[k].figures, count) else 0)
            == match LastFor(expected, init, k) case Some(d) => Reported(d, count) case None => 0
  {
    hide MergeAll, ResolvedKey, FromRows, FindExpected;
    RowAtKey(expected, init, k);
    FromRowsIsValid(expected);
  }

  /** The totals over the rows fall short of the totals over the counters by what was overwritten. */
  lemma {:induction false} TotalOfMerged(expected: seq<Row>, counters: seq<Counter>, count: Count)
    requires Blank(expected, count)
    ensures MergeAll(expected, counters).Valid()
    ensures Total(MergeAll(expected, counters).Values(), count) + Overwritten(expected, counters, count)
            == CounterTotal(counters, count)
  {
    hide ResolvedKey, FindExpected, FromRows, Shown, Reported, ObservedRow, RowMap.Set, RowMap.Values, LastFor;
    if counters == [] {
      TotalOfExpected(expected, count);
    } else {
      var init, c := counters[..|counters| - 1], counters[|counters| - 1];
      var k := ResolvedKey(expected, c);
      TotalOfMerged(expected, init, count);
      TotalOfSet(MergeAll(expected, init), k, ObservedRow(expected, c), count);
      RowsShowWhatIsReported(expected, c, count);
      FigureReplaced(expected, init, k, count);
    }
  }

  ghost predicate NothingReplaced(expected: seq<Row>, counters: seq<Counter>, count: Count) {
    forall i, j | 0 <= i < j < |counters| && ResolvedKey(expected, counters[i]) == ResolvedKey(expected, counters[j]) ::
      Reported(counters[i], count) == 0
  }

  /** The place of the last counter that resolves to a key. */
  lemma {:induction false} LastPlace(expected: seq<Row>, counters: seq<Counter>, k: string) returns (m: nat)
    requires LastFor(expected, counters, k).Some?
    ensures m < |counters| && LastFor(expected, counters, k) == Some(counters[m])
    ensures ResolvedKey(expected, counters[m]) == k
    ensures forall i :: m < i < |counters| ==> ResolvedKey(expected, counters[i]) != k
  {
    hide ResolvedKey;
    var last := |counters| - 1;
    if ResolvedKey(expected, counters[last]) == k {
      m := last;
    } else {
      m := LastPlace(expected, counters[..last], k);
    }
  }

  /** The counters that resolve to a key report nothing. */
  ghost predicate NothingFor(expected: seq<Row>, counters: seq<Counter>, k: string, count: Count) {
    forall i :: 0 <= i < |counters| && ResolvedKey(expected, counters[i]) == k ==> Reported(counters[i], count) == 0
  }

  lemma NothingReplacedStep(expected: seq<Row>, counters: seq<Counter>, count: Count)
    requires counters != []
    ensures var n := |counters| - 1;
            NothingReplaced(expected, counters, count)
            <==> NothingReplaced(expected, counters[..n], count)
                 && NothingFor(expected, counters[..n], ResolvedKey(expected, counters[n]), count)
  {
    hide ResolvedKey, Reported;
    var n := |counters| - 1;
    assert forall i :: 0 <= i < n ==> counters[i] == counters[..n][i];
  }

  /** Nothing is overwritten exactly when of two counters that share a row the earlier one reports nothing. */
  lemma {:induction false} OverwrittenIff(expected: seq<Row>, counters: seq<Counter>, count: Count)
    ensures Overwritten(expected, counters, count) == 0 <==> NothingReplaced(expected, counters, count)
  {
    if counters != [] {
      var n := |counters| - 1;
      var init, k := counters[..n], ResolvedKey(expected, counters[n]);
      NothingReplacedStep(expected, counters, count);
      hide ResolvedKey, Reported, NothingReplaced, NothingFor, LastFor;
      OverwrittenIff(expected, init, count);
      if NothingReplaced(expected, init, count) {
        LastSpeaksForAll(expected, init, k, count);
      }
    }
  }

  /** If nothing was replaced so far, the counters of a row report nothing exactly when the last of them does. */
  lemma LastSpeaksForAll(expected: seq<Row>, counters: seq<Counter>, k: string, count: Count)
    requires NothingReplaced(expected, counters, count)
    ensures NothingFor(expected, counters, k, count)
            <==> match LastFor(expected, counters, k) case Some(d) => Reported(d, count) == 0 case None => true
  {
    hide ResolvedKey, Reported;
    LastForResolves(expected, counters, k);
    if LastFor(expected, counters, k).Some? {
      var m := LastPlace(expected, counters, k);
      forall i | 0 <= i < |counters| && ResolvedKey(expected, counters[i]) == k
        ensures i == m || Reported(counters[i], count) == 0
      {
        assert i <= m;
      }
    }
  }

  /** A total over the rows is the total over the counters if and only if of two counters that resolve to the same
      row the earlier one reports nothing. */
  lemma TotalsAgree(expected: seq<Row>, counters: seq<Counter>, count: Count)
    requires Blank(expected, count)
    ensures Total(Merged(expected, Some(counters)), count) + Overwritten(expected, counters, count)
            == CounterTotal(counters, count)
    ensures Total(Merged(expected, Some(counters)), count) == CounterTotal(counters, count)
            <==> NothingReplaced(expected, counters, count)
  {
    hide MergeAll, Sort, RowNotAfter, ResolvedKey, Overwritten, NothingReplaced;
    TotalOfMerged(expected, counters, count);
    TotalOfSort(MergeAll(expected, counters).Values(), count);
    OverwrittenIff(expected, counters, count);
  }

  // ---------- expected rows of a scenario ----------

  /** What `deriveExpectedVita49Streams` reads of a receiver or monostatic component. */
  datatype ReceiverInfo = ReceiverInfo(
    receiverId: nat, name: string, platformName: string, radarType: Mode,
    ifSampleRate: Option<real>, carrier: Option<real>)

  function ExpectedRow(r: ReceiverInfo, rate: real): Row {
    Row(NumberText(r.receiverId) + ":" + ModeText(r.radarType), r.receiverId, r.name, r.platformName, r.radarType, None,
        Figures(Some(if r.ifSampleRate.Some? then r.ifSampleRate.value else rate), r.carrier,
                0, 0, 0, 0, 0, 0, 0, 0, None, None, None, None),
        false)
  }

  /** The row of a receiver before any counter: named after it, at its own intermediate rate or else the scenario's, at
      its carrier, without a stream and with nothing counted. */
  lemma ExpectedRowShows(r: ReceiverInfo, rate: real)
    ensures var row := ExpectedRow(r, rate);
            && row.key == NumberText(r.receiverId) + ":" + ModeText(r.radarType) && row.receiverId == r.receiverId
            && row.receiverName == r.name && row.platformName == r.platformName && row.mode == r.radarType
            && row.streamId == None && !row.backendObserved
            && (r.ifSampleRate.Some? ==> row.figures.sampleRate == r.ifSampleRate)
            && (r.ifSampleRate.None? ==> row.figures.sampleRate == Some(rate))
            && row.figures.referenceFrequency == r.carrier
            && (forall count :: Shown(row.figures, count) == 0)
            && row.figures.firstSampleTime == row.figures.endSampleTime == None
            && row.figures.firstTimestamp == row.figures.endTimestamp == None
  {
    hide NumberText, ModeText;
  }

  function DeriveExpected(receivers: seq<ReceiverInfo>, rate: real): seq<Row> {
    seq(|receivers|, i requires 0 <= i < |receivers| => ExpectedRow(receivers[i], rate))
  }

  ghost predicate DistinctReceivers(receivers: seq<ReceiverInfo>) {
    DistinctBy(receivers, (receiver: ReceiverInfo) => receiver.receiverId)
  }

  lemma NoColonInNumber(n: int)
    ensures ':' !in NumberText(n)
  {
    hide Decimal.Print;
    var digits := Decimal.Print(if n < 0 then -n else n);
    forall i | 0 <= i < |digits|
      ensures digits[i] != ':'
    {
      assert Decimal.IsDigit(digits[i]);
    }
  }

  /** A text up to its first colon. */
  lemma FirstColon(a: string, b: string, c: string, d: string)
    requires ':' !in a && ':' !in c && a + ":" + b == c + ":" + d
    ensures a == c && b == d
  {
    var s, t := a + ":" + b, c + ":" + d;
    assert s[|a|] == ':' && t[|c|] == ':';
    if |a| == |c| {
      assert s[..|a|] == a && t[..|c|] == c && s[|a| + 1..] == b && t[|c| + 1..] == d;
    }
  }

  lemma NumberTextInjective(m: int, n: int)
    requires NumberText(m) == NumberText(n)
    ensures m == n
  {
    hide Decimal.Print;
    var a, b := Decimal.Print(if m < 0 then -m else m), Decimal.Print(if n < 0 then -n else n);
    assert Decimal.IsDigit(a[0]) && Decimal.IsDigit(b[0]);
    if m < 0 && n < 0 {
      assert NumberText(m)[1..] == a && NumberText(n)[1..] == b;
      Decimal.PrintInjective(-m, -n);
    } else if m >= 0 && n >= 0 {
      Decimal.PrintInjective(m, n);
    }
  }

  /** A key made of a receiver and a mode names both. */
  lemma ReceiverOfKey(m: int, a: string, n: int, b: string)
    requires NumberText(m) + ":" + a == NumberText(n) + ":" + b
    ensures m == n && a == b
  {
    hide NumberText;
    NoColonInNumber(m);
    NoColonInNumber(n);
    FirstColon(NumberText(m), a, NumberText(n), b);
    NumberTextInjective(m, n);
  }

  lemma DerivedKeysAreDistinct(receivers: seq<ReceiverInfo>, rate: real)
    requires DistinctReceivers(receivers)
    ensures DistinctKeys(DeriveExpected(receivers, rate))
  {
    hide NumberText, ModeText;
    forall i, j | 0 <= i < j < |receivers|
      ensures ExpectedRow(receivers[i], rate).key != ExpectedRow(receivers[j], rate).key
    {
      if ExpectedRow(receivers[i], rate).key == ExpectedRow(receivers[j], rate).key {
        ReceiverOfKey(receivers[i].receiverId, ModeText(receivers[i].radarType),
                      receivers[j].receiverId, ModeText(receivers[j].radarType));
      }
    }
  }

  lemma {:induction false} OneRowOfReceiver(rows: seq<Row>, i: nat)
    requires i < |rows| && forall j, k :: 0 <= j < k < |rows| ==> rows[j].receiverId != rows[k].receiverId
    ensures OfReceiver(rows, rows[i].receiverId) == [rows[i]]
  {
    var last := |rows| - 1;
    if i < last {
      OneRowOfReceiver(rows[..last], i);
    } else {
      NoRowOfReceiver(rows[..last], rows[i].receiverId);
    }
  }

  lemma {:induction false} NoRowOfReceiver(rows: seq<Row>, receiverId: int)
    requires forall i :: 0 <= i < |rows| ==> rows[i].receiverId != receiverId
    ensures OfReceiver(rows, receiverId) == []
  {
    if rows != [] {
      NoRowOfReceiver(rows[..|rows| - 1], receiverId);
    }
  }

  /** A key made of a receiver and a mode is found only when it is the key of that receiver. */
  lemma FoundByKey(receivers: seq<ReceiverInfo>, rate: real, receiverId: int, mode: string)
    requires DistinctReceivers(receivers)
    ensures var found := RowAt(FromRows(DeriveExpected(receivers, rate)), NumberText(receiverId) + ":" + mode);
            found.Some? ==>
              exists j :: 0 <= j < |receivers| && receivers[j].receiverId == receiverId
                          && found.value == ExpectedRow(receivers[j], rate)
  {
    hide NumberText, ModeText, FromRows;
    var expected := DeriveExpected(receivers, rate);
    DerivedKeysAreDistinct(receivers, rate);
    FromRowsIsValid(expected);
    var key := NumberText(receiverId) + ":" + mode;
    if RowAt(FromRows(expected), key).Some? {
      var j :| 0 <= j < |expected| && expected[j].key == key;
      ExpectedRowAt(expected, j);
      ReceiverOfKey(receiverId, mode, receivers[j].receiverId, ModeText(receivers[j].radarType));
    }
  }

  /** A counter of a listed receiver resolves to the receiver's row, whatever mode it reports. */
  lemma ListedResolution(receivers: seq<ReceiverInfo>, rate: real, c: Counter, i: nat)
    requires DistinctReceivers(receivers) && i < |receivers| && receivers[i].receiverId == c.receiverId
    ensures FindExpected(DeriveExpected(receivers, rate), c) == Some(ExpectedRow(receivers[i], rate))
  {
    hide NumberText, ModeText, NormalizedMode, FromRows, OfReceiver, RowAt;
    var expected := DeriveExpected(receivers, rate);
    FoundByKey(receivers, rate, c.receiverId, ModeText(NormalizedMode(c.mode)));
    DerivedKeysAreDistinct(receivers, rate);
    OneRowOfReceiver(expected, i);
    ExpectedRowAt(expected, i);
  }

  /** Any other counter makes a row of its own. */
  lemma UnlistedResolution(receivers: seq<ReceiverInfo>, rate: real, c: Counter)
    requires DistinctReceivers(receivers)
    requires forall i :: 0 <= i < |receivers| ==> receivers[i].receiverId != c.receiverId
    ensures FindExpected(DeriveExpected(receivers, rate), c) == None
  {
    hide NumberText, ModeText, NormalizedMode, FromRows, OfReceiver, RowAt;
    FoundByKey(receivers, rate, c.receiverId, ModeText(NormalizedMode(c.mode)));
    NoRowOfReceiver(DeriveExpected(receivers, rate), c.receiverId);
  }

  lemma ResolutionOfDerived(receivers: seq<ReceiverInfo>, rate: real, c: Counter)
    requires DistinctReceivers(receivers)
    ensures forall i :: 0 <= i < |receivers| && receivers[i].receiverId == c.receiverId ==>
              FindExpected(DeriveExpected(receivers, rate), c) == Some(ExpectedRow(receivers[i], rate))
    ensures (forall i :: 0 <= i < |receivers| ==> receivers[i].receiverId != c.receiverId) ==>
              FindExpected(DeriveExpected(receivers, rate), c) == None
  {
    hide FindExpected;
    if i :| 0 <= i < |receivers| && receivers[i].receiverId == c.receiverId {
      ListedResolution(receivers, rate, c, i);
    } else {
      UnlistedResolution(receivers, rate, c);
    }
  }

  /** Two counters that report the same listed receiver, or the same unlisted receiver, mode and stream. */
  ghost predicate SameStream(receivers: seq<ReceiverInfo>, a: Counter, b: Counter) {
    && a.receiverId == b.receiverId
    && ((exists i :: 0 <= i < |receivers| && receivers[i].receiverId == a.receiverId)
        || (NormalizedMode(a.mode) == NormalizedMode(b.mode) && a.streamId == b.streamId))
  }

  /** For the rows of a scenario whose receivers have ids of their own, two counters share a row exactly when they
      report the same stream. */
  lemma SharedRowIff(receivers: seq<ReceiverInfo>, rate: real, a: Counter, b: Counter)
    requires DistinctReceivers(receivers)
    ensures var expected := DeriveExpected(receivers, rate);
            ResolvedKey(expected, a) == ResolvedKey(expected, b) <==> SameStream(receivers, a, b)
  {
    hide NumberText, FindExpected;
    var expected := DeriveExpected(receivers, rate);
    ResolutionOfDerived(receivers, rate, a);
    ResolutionOfDerived(receivers, rate, b);
    var ka, kb := ResolvedKey(expected, a), ResolvedKey(expected, b);
    var tailA := KeyAfterReceiver(receivers, rate, a);
    var tailB := KeyAfterReceiver(receivers, rate, b);
    if ka == kb {
      NoColonInNumber(a.receiverId);
      NoColonInNumber(b.receiverId);
      FirstColon(NumberText(a.receiverId), tailA, NumberText(b.receiverId), tailB);
      NumberTextInjective(a.receiverId, b.receiverId);
      if forall i :: 0 <= i < |receivers| ==> receivers[i].receiverId != a.receiverId {
        NoColonInMode(NormalizedMode(a.mode));
        NoColonInMode(NormalizedMode(b.mode));
        assert tailA == ModeText(NormalizedMode(a.mode)) + ":" + NumberText(a.streamId);
        assert tailB == ModeText(NormalizedMode(b.mode)) + ":" + NumberText(b.streamId);
        FirstColon(ModeText(NormalizedMode(a.mode)), NumberText(a.streamId), ModeText(NormalizedMode(b.mode)),
                   NumberText(b.streamId));
        NumberTextInjective(a.streamId, b.streamId);
        ModeTextInjective(NormalizedMode(a.mode), NormalizedMode(b.mode));
      }
    }
  }

  /** A resolved key is the receiver, a colon, and the rest. */
  lemma KeyAfterReceiver(receivers: seq<ReceiverInfo>, rate: real, c: Counter) returns (rest: string)
    requires DistinctReceivers(receivers)
    ensures ResolvedKey(DeriveExpected(receivers, rate), c) == NumberText(c.receiverId) + ":" + rest
    ensures (forall i :: 0 <= i < |receivers| ==> receivers[i].receiverId != c.receiverId) ==>
              rest == ModeText(NormalizedMode(c.mode)) + ":" + NumberText(c.streamId)
  {
    hide NumberText, FindExpected;
    ResolutionOfDerived(receivers, rate, c);
    if i :| 0 <= i < |receivers| && receivers[i].receiverId == c.receiverId {
      rest := ModeText(receivers[i].radarType);
    } else {
      rest := ModeText(NormalizedMode(c.mode)) + ":" + NumberText(c.streamId);
      assert OwnKey(c) == NumberText(c.receiverId) + ":" + rest;
    }
  }

  lemma NoColonInMode(m: Mode)
    ensures ':' !in ModeText(m)
  {
  }

  lemma ModeTextInjective(m: Mode, n: Mode)
    requires ModeText(m) == ModeText(n)
    ensures m == n
  {
    assert |ModeText(m)| == |ModeText(n)|;
    assert ModeText(m)[0] == ModeText(n)[0];
  }

  /** For a scenario whose receivers have ids of their own, a row is observed exactly when some
      counter resolves to it. */
  lemma DerivedRows(receivers: seq<ReceiverInfo>, rate: real, counters: seq<Counter>)
    requires DistinctReceivers(receivers)
    ensures var expected := DeriveExpected(receivers, rate);
            var rows := Merged(expected, Some(counters));
            && DistinctKeys(rows)
            && (forall j :: 0 <= j < |rows| ==>
                  (rows[j].backendObserved
                   <==> exists i :: 0 <= i < |counters| && ResolvedKey(expected, counters[i]) == rows[j].key))
  {
    hide Merged, ResolvedKey;
    var expected := DeriveExpected(receivers, rate);
    var rows := Merged(expected, Some(counters));
    DerivedKeysAreDistinct(receivers, rate);
    MergedRows(expected, counters);
    forall j | 0 <= j < |rows|
      ensures rows[j].backendObserved
              <==> exists i :: 0 <= i < |counters| && ResolvedKey(expected, counters[i]) == rows[j].key
    {
      LastForResolves(expected, counters, rows[j].key);
    }
  }

  /** For such a scenario, each count's total over the rows is its total over the counters if and only if of two
      counters of the same stream the earlier one reports nothing of it. */
  lemma DerivedTotalsIff(receivers: seq<ReceiverInfo>, rate: real, counters: seq<Counter>, count: Count)
    requires DistinctReceivers(receivers) && Blank(DeriveExpected(receivers, rate), count)
    ensures Total(Merged(DeriveExpected(receivers, rate), Some(counters)), count) == CounterTotal(counters, count)
            <==> forall i, j :: 0 <= i < j < |counters| && SameStream(receivers, counters[i], counters[j]) ==>
                   Reported(counters[i], count) == 0
  {
    hide Merged, ResolvedKey, Reported, Total, CounterTotal;
    var expected := DeriveExpected(receivers, rate);
    TotalsAgree(expected, counters, count);
    forall i, j | 0 <= i < j < |counters|
      ensures SameStream(receivers, counters[i], counters[j])
              <==> ResolvedKey(expected, counters[i]) == ResolvedKey(expected, counters[j])
    {
      SharedRowIff(receivers, rate, counters[i], counters[j]);
    }
  }

  /** All eight counts of an expected row are blank. */
  lemma DerivedCountsAreBlank(receivers: seq<ReceiverInfo>, rate: real)
    ensures forall count :: Blank(DeriveExpected(receivers, rate), count)
  {
  }

  /** Two counters of one listed receiver: the packets of the first are missing from the rows. */
  lemma SharedRowLosesPackets(r: ReceiverInfo, rate: real, a: Counter, b: Counter)
    requires a.receiverId == b.receiverId == r.receiverId && a.packetsEmitted > 0
    ensures Total(Merged(DeriveExpected([r], rate), Some([a, b])), PacketsEmitted)
            < CounterTotal([a, b], PacketsEmitted)
  {
    hide Merged, ResolvedKey, Total, CounterTotal;
    var expected := DeriveExpected([r], rate);
    DerivedCountsAreBlank([r], rate);
    TotalsAgree(expected, [a, b], PacketsEmitted);
    OverwrittenIff(expected, [a, b], PacketsEmitted);
    assert [r][0] == r;
    SharedRowIff([r], rate, a, b);
    assert [a, b][0] == a && [a, b][1] == b;
  }

  // ---------- the procedure ----------

  method MergeVita49StreamRows(expected: seq<Row>, counters: Option<seq<Counter>>) returns (rows: seq<Row>)
    ensures rows == Merged(expected, counters)
    ensures counters.None? ==> rows == expected
  {
    hide FindExpected;
    if counters.None? {
      return expected;
    }
    var resolved := FromRows(expected);
    MergedIsValid(expected, []);
    for i := 0 to |counters.value|
      invariant resolved == MergeAll(expected, counters.value[..i])
    {
      var c := counters.value[i];
      assert counters.value[..i + 1][..i] == counters.value[..i];
      var existing := FindExpected(expected, c);
      var key := if existing.Some? then existing.value.key else OwnKey(c);
      var mode := NormalizedMode(c.mode);
      var figures := Figures(
        Some(c.sampleRate), Some(c.referenceFrequency), c.packetsEmitted,
        if c.contextPackets.Some? then c.contextPackets.value
        else if c.contextPacketCount.Some? then c.contextPacketCount.value else 0,
        c.samplesEmitted, c.packetsDropped, c.samplesDropped, c.overRangeCount, c.lateDataPackets,
        c.lateContextPackets, c.firstSampleTime, c.endSampleTime, c.firstTimestamp, c.endTimestamp);
      var row := if existing.Some? then existing.value
                 else Row(key, c.receiverId, c.receiverName, "", mode, Some(c.streamId), figures, true);
      row := row.(
        receiverName := if c.receiverName != "" then c.receiverName
                        else if existing.Some? then existing.value.receiverName else "",
        mode := if mode != UnknownMode then mode else row.mode,
        streamId := Some(c.streamId), figures := figures, backendObserved := true);
      resolved := resolved.Set(key, row);
    }
    assert counters.value[..|counters.value|] == counters.value;
    MergedIsValid(expected, counters.value);
    rows := Sort(resolved.Values(), RowNotAfter);
  }
}
