/** What the telemetry pipeline guarantees over every interleaving of the events of `RunControl`. */
module TelemetryPipeline {
  import opened Reals
  import opened Wrappers
  import opened Telemetry
  import opened RunControl

  // ---------- histories ----------

  /** The last statistics document among the messages that could be parsed. */
  ghost function LastStats(ms: seq<Message>): Option<Stats> {
    if ms == [] then None
    else if ms[|ms| - 1].stats.Parsed? then Some(ms[|ms| - 1].stats.value)
    else LastStats(ms[..|ms| - 1])
  }

  /** The packets of all parsed batches, in the order they were sent. */
  ghost function PacketsOf(ms: seq<Message>): seq<Packet> {
    if ms == [] then []
    else PacketsOf(ms[..|ms| - 1]) +
         (if ms[|ms| - 1].batch.Parsed? then ms[|ms| - 1].batch.value else [])
  }

  ghost predicate IsSuffix<T>(a: seq<T>, b: seq<T>) {
    |a| <= |b| && b[|b| - |a|..] == a
  }

  /** `places` says where in `b` each element of `a` comes from. */
  ghost predicate Embeds<T>(places: seq<nat>, a: seq<T>, b: seq<T>) {
    && |places| == |a|
    && (forall i :: 0 <= i < |a| ==> places[i] < |b| && a[i] == b[places[i]])
    && (forall i, j :: 0 <= i < j < |a| ==> places[i] < places[j])
  }

  /** `a` is `b` with some elements left out: nothing is reordered, repeated or invented. */
  ghost predicate Subsequence<T>(a: seq<T>, b: seq<T>) {
    exists places :: Embeds(places, a, b)
  }

  lemma SubsequenceOfExtension<T>(a: seq<T>, b: seq<T>, c: seq<T>)
    requires Subsequence(a, b)
    ensures Subsequence(a + c, b + c)
  {
    var places :| Embeds(places, a, b);
    var extended: seq<nat> := seq(|a + c|, i requires 0 <= i < |a + c| => if i < |a| then places[i] else i - |a| + |b|);
    assert Embeds(extended, a + c, b + c);
  }

  lemma SubsequenceWithoutMiddle<T>(u: seq<T>, v: seq<T>, w: seq<T>, b: seq<T>)
    requires Subsequence(u + v + w, b)
    ensures Subsequence(u + w, b)
  {
    var places :| Embeds(places, u + v + w, b);
    var kept := places[..|u|] + places[|u + v|..];
    assert forall i :: 0 <= i < |u + w| ==>
      (u + w)[i] == (u + v + w)[if i < |u| then i else i + |v|]
      && kept[i] == places[if i < |u| then i else i + |v|];
    assert Embeds(kept, u + w, b);
  }

  // ---------- delivery to the worker ----------

  ghost predicate RunInv(r: Run) {
    && r.sent == r.ingested + r.queue
    && (r.workerDone ==> r.queue == [] && r.stage in {Closed, Joined, Reported, Done})
    && (r.kind.Stream? && r.stage in {Joined, Reported, Done} ==> r.workerDone)
    && (r.kind.Hdf5? || r.stage in {Claimed, Launched} ==> r.sent == [])
    && (r.kind.Hdf5? ==> r.stage !in {Ready, Closed, Joined})
  }

  /** A streaming run that has reset the buffer and has not finished owns it. */
  ghost predicate Owns(s: Sys, id: nat) {
    Live(s, id) && s.runs[id].kind.Stream? && s.runs[id].stage !in {Claimed, Launched}
  }

  ghost predicate OwnerInv(s: Sys, r: Run)
    requires r.kind.Stream?
  {
    && s.buffer.latestStats == LastStats(r.ingested)
    && s.buffer.traceEnabled == r.kind.traceEnabled
    && (r.kind.traceEnabled ==> IsSuffix(PacketsOf(r.ingested), s.arrived))
  }

  ghost predicate DeliveryInv(s: Sys) {
    && ControlInv(s)
    && s.buffer.Valid()
    && (forall i :: i in s.runs ==> RunInv(s.runs[i]))
    && (forall i :: Owns(s, i) ==> OwnerInv(s, s.runs[i]))
  }

  lemma IngestKeepsOwner(s: Sys, id: nat)
    requires DeliveryInv(s) && Enabled(s, WorkerIngest(id))
    ensures Step(s, WorkerIngest(id)).buffer.Valid()
    ensures OwnerInv(Step(s, WorkerIngest(id)), Step(s, WorkerIngest(id)).runs[id])
  {
    var r := s.runs[id];
    var m := r.queue[0];
    assert Owns(s, id) by {
      assert RunInv(r);
    }
    hide Ingested, RunInv, ControlInv, LastStats, PacketsOf, IsSuffix;
    IngestKeepsValid(s.buffer, m);
    HistoryGrows(r.ingested, m);
    if r.kind.traceEnabled {
      SuffixGrows(PacketsOf(r.ingested), s.arrived, if m.batch.Parsed? then m.batch.value else []);
    }
  }

  lemma HistoryGrows(ms: seq<Message>, m: Message)
    ensures LastStats(ms + [m]) == if m.stats.Parsed? then Some(m.stats.value) else LastStats(ms)
    ensures PacketsOf(ms + [m]) == PacketsOf(ms) + (if m.batch.Parsed? then m.batch.value else [])
  {
    assert (ms + [m])[..|ms|] == ms;
  }

  lemma SuffixGrows<T>(a: seq<T>, b: seq<T>, c: seq<T>)
    requires IsSuffix(a, b)
    ensures IsSuffix(a + c, b + c)
  {
  }

  lemma NothingSent(r: Run)
    requires RunInv(r) && r.stage == Launched
    ensures r.ingested == []
  {
  }

  lemma NothingYet(arrived: seq<Packet>)
    ensures LastStats([]) == None && IsSuffix(PacketsOf([]), arrived)
  {
  }

  lemma RunStep(s: Sys, e: Event, i: nat)
    requires (i in s.runs ==> RunInv(s.runs[i])) && Enabled(s, e) && i in Step(s, e).runs
    ensures RunInv(Step(s, e).runs[i])
  {
    hide AppendBatch, AfterPoll, Polled, Ingested, NewlyArrived;
    if e.WorkerIngest? && e.id == i {
      assert Step(s, e).runs[i].sent == Step(s, e).runs[i].ingested + Step(s, e).runs[i].queue;
    } else if e.Send? && e.id == i {
      assert Step(s, e).runs[i].sent == Step(s, e).runs[i].ingested + Step(s, e).runs[i].queue;
    }
  }

  lemma OwnerStep(s: Sys, e: Event, i: nat)
    requires DeliveryInv(s) && Enabled(s, e) && ControlInv(Step(s, e))
    requires Owns(Step(s, e), i)
    ensures OwnerInv(Step(s, e), Step(s, e).runs[i])
  {
    hide AppendBatch, Polled, Ingested, NewlyArrived, LastStats, PacketsOf, IsSuffix, RunInv;
    if e.WorkerIngest? {
      assert Live(s, e.id) && Live(s, i);
      IngestKeepsOwner(s, e.id);
    } else if e.ResetTelemetry? {
      assert Live(s, e.id) && Live(s, i);
      NothingSent(s.runs[i]);
      NothingYet(s.arrived);
    } else {
      QuietStep(s, e, i);
      hide Step, Owns, Enabled, Live;
      assert OwnerInv(s, s.runs[i]);
    }
  }

  /** Other events leave the statistics, the history and the owner's share of it alone. */
  lemma QuietStep(s: Sys, e: Event, i: nat)
    requires Enabled(s, e) && !e.WorkerIngest? && !e.ResetTelemetry? && Owns(Step(s, e), i)
    ensures Owns(s, i) && Step(s, e).arrived == s.arrived
    ensures Step(s, e).buffer.latestStats == s.buffer.latestStats
    ensures Step(s, e).buffer.traceEnabled == s.buffer.traceEnabled
    ensures Step(s, e).runs[i].ingested == s.runs[i].ingested && Step(s, e).runs[i].kind == s.runs[i].kind
  {
    hide AppendBatch, Polled;
  }

  lemma DeliveryStep(s: Sys, e: Event)
    requires DeliveryInv(s) && Enabled(s, e)
    ensures DeliveryInv(Step(s, e))
  {
    ControlStep(s, e);
    forall i | i in Step(s, e).runs
      ensures RunInv(Step(s, e).runs[i])
    {
      RunStep(s, e, i);
    }
    if e.WorkerIngest? {
      IngestKeepsOwner(s, e.id);
    }
    forall i | Owns(Step(s, e), i)
      ensures OwnerInv(Step(s, e), Step(s, e).runs[i])
    {
      OwnerStep(s, e, i);
    }
  }

  lemma {:induction false} DeliveryOverEveryRun(s: Sys, events: seq<Event>, end: Sys)
    requires DeliveryInv(s) && Execution(s, events, end)
    ensures DeliveryInv(end)
    decreases |events|
  {
    if events != [] {
      DeliveryStep(s, events[0]);
      DeliveryOverEveryRun(Step(s, events[0]), events[1..], end);
    }
  }

  lemma InitialDelivery(ringSize: real)
    ensures DeliveryInv(Initial(ringSize))
  {
  }

  /** When a streaming run reports its end, every message the simulator sent has been ingested in
      the order it was sent, the statistics shown are the last parseable ones sent, and
      the packets sent are the last packets that reached the ring. */
  lemma ReportSeesEverything(ringSize: real, events: seq<Event>, s: Sys, id: nat)
    requires Execution(Initial(ringSize), events, s)
    requires Enabled(s, Report(id)) && s.runs[id].kind.Stream?
    ensures s.runs[id].ingested == s.runs[id].sent
    ensures s.buffer.latestStats == LastStats(s.runs[id].sent)
    ensures s.runs[id].kind.traceEnabled ==> IsSuffix(PacketsOf(s.runs[id].sent), s.arrived)
  {
    InitialDelivery(ringSize);
    DeliveryOverEveryRun(Initial(ringSize), events, s);
    assert Owns(s, id);
  }

  /** The messages ingested since the last poll or reset of an execution; before its first one, also those of `ms`. */
  ghost function SinceLastPoll(s: Sys, events: seq<Event>, end: Sys, ms: seq<Message>): seq<Message>
    requires Execution(s, events, end)
    decreases |events|
  {
    if events == [] then ms
    else SinceLastPoll(Step(s, events[0]), events[1..], end, IngestedNow(s, events[0], ms))
  }

  ghost function IngestedNow(s: Sys, e: Event, ms: seq<Message>): seq<Message>
    requires Enabled(s, e)
  {
    match e
    case WorkerIngest(id) => ms + [s.runs[id].queue[0]]
    case Poll(_) => []
    case ResetTelemetry(_) => []
    case _ => ms
  }

  /** What the next poll will report as statistics is the last parseable document of `ms`. */
  ghost predicate ReportsLastOf(b: Buffer, ms: seq<Message>) {
    b.Valid() && (if b.statsDirty then b.latestStats else None) == LastStats(ms)
  }

  lemma StatsOfIngest(b: Buffer, m: Message)
    requires b.Valid()
    ensures Ingested(b, m).statsDirty == (b.statsDirty || m.stats.Parsed?)
  {
    if b.traceEnabled && m.batch.Parsed? {
      PushAllKeepsTheLast(IngestStats(b, m), m.batch.value);
    }
  }

  lemma ReportsLastStep(s: Sys, e: Event, ms: seq<Message>)
    requires Enabled(s, e) && ReportsLastOf(s.buffer, ms)
    ensures ReportsLastOf(Step(s, e).buffer, IngestedNow(s, e, ms))
  {
    hide Ingested, AppendBatch;
    if e.WorkerIngest? {
      var m := s.runs[e.id].queue[0];
      IngestKeepsValid(s.buffer, m);
      StatsOfIngest(s.buffer, m);
      HistoryGrows(ms, m);
    }
  }

  lemma {:induction false} ReportsLastOverEveryRun(s: Sys, events: seq<Event>, end: Sys, ms: seq<Message>)
    requires Execution(s, events, end) && ReportsLastOf(s.buffer, ms)
    ensures ReportsLastOf(end.buffer, SinceLastPoll(s, events, end, ms))
    decreases |events|
  {
    hide Step, Enabled, ReportsLastOf, IngestedNow;
    if events != [] {
      ReportsLastStep(s, events[0], ms);
      ReportsLastOverEveryRun(Step(s, events[0]), events[1..], end, IngestedNow(s, events[0], ms));
    }
  }

  /** In every interleaving a poll reports the last statistics ingested since the poll or reset before it, and none
      when there were none. */
  lemma PollReportsNews(ringSize: real, events: seq<Event>, s: Sys, max: nat)
    requires Execution(Initial(ringSize), events, s)
    ensures Polled(s.buffer, max).stats == LastStats(SinceLastPoll(Initial(ringSize), events, s, []))
  {
    ReportsLastOverEveryRun(Initial(ringSize), events, s, []);
  }

  // ---------- no run gets stuck ----------

  /** How many steps a live run is from its end. */
  function StepsLeft(r: Run): nat {
    match r.stage
    case Claimed => 8 + |r.queue|
    case Launched => 7 + |r.queue|
    case Ready => 6 + |r.queue|
    case Closed => if r.workerDone then 4 else 5 + |r.queue|
    case Joined => 3
    case Reported => 2
    case Done => 0
  }

  /** What a live run can do next: its own thread or its worker, whatever all others do. */
  function NextOf(r: Run, id: nat): Event {
    match r.stage
    case Claimed => ClearCancel(id)
    case Launched => if r.kind.Stream? then ResetTelemetry(id) else Report(id)
    case Ready => DropSender(id)
    case Closed => if r.workerDone then JoinWorker(id) else if r.queue != [] then WorkerIngest(id) else WorkerExit(id)
    case Joined => Report(id)
    case _ => Finish(id)
  }

  /** The run after that step. */
  function Nearer(r: Run): Run {
    match r.stage
    case Claimed => r.(stage := Launched)
    case Launched => r.(stage := if r.kind.Stream? then Ready else Reported)
    case Ready => r.(stage := Closed)
    case Closed =>
      if r.workerDone then r.(stage := Joined)
      else if r.queue != [] then r.(queue := r.queue[1..], ingested := r.ingested + [r.queue[0]])
      else r.(workerDone := true)
    case Joined => r.(stage := Reported)
    case _ => r.(stage := Done)
  }

  lemma NextIsEnabled(s: Sys, id: nat)
    requires Live(s, id) && RunInv(s.runs[id])
    ensures Enabled(s, NextOf(s.runs[id], id))
  {
  }

  lemma NextIsNearer(s: Sys, id: nat)
    requires Live(s, id) && Enabled(s, NextOf(s.runs[id], id))
    ensures var t := Step(s, NextOf(s.runs[id], id)); id in t.runs && t.runs[id] == Nearer(s.runs[id])
  {
    hide Ingested, NewlyArrived, AppendBatch, Polled, AfterPoll, ResetBuffer;
  }

  lemma NextAdvances(s: Sys, id: nat)
    requires Live(s, id) && RunInv(s.runs[id])
    ensures var e := NextOf(s.runs[id], id);
            && Enabled(s, e) && id in Step(s, e).runs && RunInv(Step(s, e).runs[id])
            && StepsLeft(Step(s, e).runs[id]) < StepsLeft(s.runs[id])
  {
    NextIsEnabled(s, id);
    NextIsNearer(s, id);
    hide Step, Enabled, NextOf, RunInv;
    RunStep(s, NextOf(s.runs[id], id), id);
  }

  /** From every state in which a run is live it can be brought to its end by steps of its own alone: no run waits for
      another, for a poll or for a stop. */
  lemma {:induction false} EveryRunCanFinish(s: Sys, id: nat) returns (events: seq<Event>, end: Sys)
    requires id in s.runs && RunInv(s.runs[id])
    ensures Execution(s, events, end) && At(end, id, Done)
    ensures |events| <= StepsLeft(s.runs[id])
    decreases StepsLeft(s.runs[id])
  {
    if s.runs[id].stage == Done {
      events, end := [], s;
    } else {
      NextAdvances(s, id);
      var e := NextOf(s.runs[id], id);
      hide Step, Enabled, RunInv, StepsLeft, NextOf;
      var rest, last := EveryRunCanFinish(Step(s, e), id);
      events, end := [e] + rest, last;
      assert events[1..] == rest;
    }
  }

  /** So it is in every reachable state. */
  lemma NoRunIsStuck(ringSize: real, before: seq<Event>, s: Sys, id: nat) returns (events: seq<Event>, end: Sys)
    requires Execution(Initial(ringSize), before, s) && Live(s, id)
    ensures Execution(s, events, end) && At(end, id, Done)
  {
    InitialDelivery(ringSize);
    DeliveryOverEveryRun(Initial(ringSize), before, s);
    events, end := EveryRunCanFinish(s, id);
  }

  /** From a run's own reset until its `finish`, no run's reset can happen. */
  lemma NoForeignReset(ringSize: real, events: seq<Event>, s: Sys, id: nat, other: nat)
    requires Execution(Initial(ringSize), events, s)
    requires Owns(s, id)
    ensures !Enabled(s, ResetTelemetry(other))
  {
    InitialDelivery(ringSize);
    DeliveryOverEveryRun(Initial(ringSize), events, s);
    if Enabled(s, ResetTelemetry(other)) {
      assert Live(s, id) && Live(s, other);
    }
  }

  // ---------- conservation and order of packets ----------

  /** Where every packet that was ever traced is now. */
  ghost function Accounted(s: Sys): real {
    |s.ui.packets| as real + s.ui.omitted + |s.buffer.packets| as real + s.buffer.omitted as real + s.discarded
  }

  ghost predicate LedgerInv(s: Sys) {
    && s.buffer.Valid()
    && RingSizeAllowed(s.ui.ringSize)
    && |s.arrived| as real == Accounted(s)
    && IsSuffix(s.ui.packets, s.delivered)
    && IsSuffix(s.buffer.packets, s.arrived)
    && Subsequence(s.delivered + s.buffer.packets, s.arrived)
  }

  /** The interface's ring is within its size. A change of size is first seen by the next append. */
  ghost predicate RingFits(s: Sys) {
    |s.ui.packets| as real <= s.ui.ringSize
  }

  lemma RingAfterIngest(delivered: seq<Packet>, ring: seq<Packet>, batch: seq<Packet>, n: nat, arrived: seq<Packet>)
    requires Subsequence(delivered + ring, arrived) && IsSuffix(ring, arrived)
    ensures Subsequence(delivered + LastN(ring + batch, n), arrived + batch)
    ensures IsSuffix(LastN(ring + batch, n), arrived + batch)
  {
    var all, kept := ring + batch, LastN(ring + batch, n);
    var lost := all[..|all| - |kept|];
    SubsequenceOfExtension(delivered + ring, arrived, batch);
    assert delivered + ring + batch == delivered + lost + kept;
    SubsequenceWithoutMiddle(delivered, lost, kept, arrived + batch);
  }

  lemma IngestKeepsLedger(s: Sys, id: nat)
    requires LedgerInv(s) && Enabled(s, WorkerIngest(id))
    ensures LedgerInv(Step(s, WorkerIngest(id)))
  {
    hide Subsequence, IsSuffix;
    var m := s.runs[id].queue[0];
    var b := IngestStats(s.buffer, m);
    IngestKeepsValid(s.buffer, m);
    if s.buffer.traceEnabled && m.batch.Parsed? {
      PushAllKeepsTheLast(b, m.batch.value);
      RingAfterIngest(s.delivered, s.buffer.packets, m.batch.value, b.limit, s.arrived);
    } else {
      assert NewlyArrived(s.buffer, m) == [];
      assert Step(s, WorkerIngest(id)).arrived == s.arrived;
    }
  }

  lemma RingAfterPoll(u: UiTrace, packets: seq<Packet>, omitted: nat, delivered: seq<Packet>)
    requires RingSizeAllowed(u.ringSize) && IsSuffix(u.packets, delivered)
    ensures IsSuffix(AppendBatch(u, packets, omitted).packets, delivered + packets)
    ensures |AppendBatch(u, packets, omitted).packets| as real <= u.ringSize
    ensures AppendBatch(u, packets, omitted).ringSize == u.ringSize
  {
    AppendKeepsTheLast(u, packets, omitted);
    SuffixGrows(u.packets, delivered, packets);
    WholeCeil(u.ringSize);
    LastIsSuffix(u.packets + packets, delivered + packets, Ceil(u.ringSize));
    hide SliceFrom, Overflow, LastN, IsSuffix;
  }

  lemma LastIsSuffix<T>(a: seq<T>, b: seq<T>, n: nat)
    requires IsSuffix(a, b)
    ensures IsSuffix(LastN(a, n), b) && |LastN(a, n)| <= n
  {
  }

  lemma PollKeepsLedger(s: Sys, max: nat)
    requires LedgerInv(s)
    ensures LedgerInv(Step(s, Poll(max))) && RingFits(Step(s, Poll(max)))
  {
    hide Subsequence, IsSuffix, AppendBatch, RingSizeAllowed;
    var polled := Polled(s.buffer, max);
    AppendConservesIff(s.ui, polled.packets, polled.omitted);
    RingAfterPoll(s.ui, polled.packets, polled.omitted, s.delivered);
    var rest := AfterPoll(s.buffer, max).packets;
    assert s.buffer.packets == polled.packets + rest;
    assert s.delivered + polled.packets + rest == s.delivered + s.buffer.packets;
    SuffixOfSuffix(polled.packets, rest, s.arrived);
  }

  lemma SuffixOfSuffix<T>(a: seq<T>, b: seq<T>, c: seq<T>)
    requires IsSuffix(a + b, c)
    ensures IsSuffix(b, c)
  {
  }

  lemma LedgerStep(s: Sys, e: Event)
    requires LedgerInv(s) && Enabled(s, e)
    requires e.UiSetRingSize? ==> RingSizeAllowed(e.size)
    ensures LedgerInv(Step(s, e))
    ensures Step(s, e).discarded == s.discarded || e.ResetTelemetry? || e.UiStartRun? || e.UiResetTrace?
    ensures (RingFits(s) && !e.UiSetRingSize?) || Renews(e) ==> RingFits(Step(s, e))
  {
    hide RingSizeAllowed;
    if e.WorkerIngest? {
      IngestKeepsLedger(s, e.id);
    } else if e.Poll? {
      PollKeepsLedger(s, e.maxPackets);
    } else if e.ResetTelemetry? {
      assert s.delivered + s.buffer.packets + [] == s.delivered + s.buffer.packets;
      SubsequenceWithoutMiddle(s.delivered, s.buffer.packets, [], s.arrived);
    } else if e.UiStartRun? || e.UiResetTrace? {
      AllowedIsNotNegative(s.ui.ringSize);
    }
  }

  lemma AllowedIsNotNegative(size: real)
    requires RingSizeAllowed(size)
    ensures size >= 0.0
  {
  }

  /** Events after which the interface's ring is within its size, whatever it was before. */
  predicate Renews(e: Event) {
    e.Poll? || e.UiStartRun? || e.UiResetTrace?
  }

  ghost predicate RingSizesAllowed(events: seq<Event>) {
    forall e :: e in events && e.UiSetRingSize? ==> RingSizeAllowed(e.size)
  }

  ghost predicate NoReset(events: seq<Event>) {
    forall e :: e in events ==> !e.ResetTelemetry? && !e.UiStartRun? && !e.UiResetTrace?
  }

  ghost predicate SizeStays(events: seq<Event>) {
    forall e :: e in events ==> !e.UiSetRingSize?
  }

  /** Over every interleaving the ledger holds, and the interface's ring is within its size from the first
      append or clearing after the last change of that size on. */
  lemma {:induction false} LedgerOverEveryRun(s: Sys, events: seq<Event>, end: Sys)
    requires LedgerInv(s) && RingSizesAllowed(events) && Execution(s, events, end)
    ensures LedgerInv(end)
    ensures NoReset(events) ==> end.discarded == s.discarded
    ensures SizeStays(events) && (RingFits(s) || exists e :: e in events && Renews(e)) ==> RingFits(end)
    decreases |events|
  {
    hide LedgerInv, RingFits, Renews, Step, Enabled;
    if events != [] {
      assert events[0] in events;
      LedgerStep(s, events[0]);
      LedgerOverEveryRun(Step(s, events[0]), events[1..], end);
    }
  }

  lemma InitialLedger(ringSize: real)
    requires RingSizeAllowed(ringSize)
    ensures LedgerInv(Initial(ringSize)) && RingFits(Initial(ringSize))
  {
    var none: seq<Packet> := [];
    assert Embeds([], none, none);
    assert none + none == none;
  }

  /** Every traced packet is in one of the two rings or counted as omitted or discarded,
      each ring is the end of what reached it and within its limit, and what the interface was given followed
      by what is still buffered is the packets in their original order. */
  lemma PacketsAreAccountedFor(ringSize: real, events: seq<Event>, s: Sys)
    requires RingSizeAllowed(ringSize) && RingSizesAllowed(events)
    requires Execution(Initial(ringSize), events, s)
    ensures |s.arrived| as real == Accounted(s)
    ensures |s.buffer.packets| <= s.buffer.limit
    ensures SizeStays(events) ==> |s.ui.packets| as real <= s.ui.ringSize
    ensures IsSuffix(s.ui.packets, s.delivered) && IsSuffix(s.buffer.packets, s.arrived)
    ensures Subsequence(s.delivered + s.buffer.packets, s.arrived)
  {
    hide IsSuffix, Subsequence, Accounted;
    InitialLedger(ringSize);
    LedgerOverEveryRun(Initial(ringSize), events, s);
  }

  /** The balance of one streaming run: from a reset with an empty interface ring on. */
  lemma ConservedAfterReset(s: Sys, events: seq<Event>, end: Sys)
    requires LedgerInv(s) && Execution(s, events, end)
    requires s.ui.packets == [] && s.ui.omitted == 0.0 && s.buffer.packets == [] && s.buffer.omitted == 0
    requires RingSizesAllowed(events) && NoReset(events)
    ensures |end.arrived| as real - |s.arrived| as real
            == |end.ui.packets| as real + end.ui.omitted + |end.buffer.packets| as real + end.buffer.omitted as real
  {
    LedgerOverEveryRun(s, events, end);
  }

  // ---------- the exact condition of conservation ----------

  /** How much more is accounted for than was traced. */
  ghost function Surplus(s: Sys): real {
    Accounted(s) - |s.arrived| as real
  }

  /** A poll whose batch is counted exactly: everything fits, or the ring size is whole and not negative. */
  predicate CountsExactly(s: Sys, e: Event) {
    e.Poll? ==>
      |s.ui.packets + Polled(s.buffer, e.maxPackets).packets| as real <= s.ui.ringSize || RingSizeAllowed(s.ui.ringSize)
  }

  ghost predicate AllCountExactly(s: Sys, events: seq<Event>, end: Sys)
    requires Execution(s, events, end)
    decreases |events|
  {
    events == [] || (CountsExactly(s, events[0]) && AllCountExactly(Step(s, events[0]), events[1..], end))
  }

  lemma SurplusStep(s: Sys, e: Event)
    requires s.buffer.Valid() && Enabled(s, e)
    ensures Step(s, e).buffer.Valid()
    ensures Surplus(Step(s, e)) >= Surplus(s)
    ensures Surplus(Step(s, e)) == Surplus(s) <==> CountsExactly(s, e)
  {
    hide AppendBatch, Ingested, RingSizeAllowed;
    if e.WorkerIngest? {
      SurplusOfIngest(s, e.id);
    } else if e.Poll? {
      var polled := Polled(s.buffer, e.maxPackets);
      AppendConservesIff(s.ui, polled.packets, polled.omitted);
    }
  }

  lemma SurplusOfIngest(s: Sys, id: nat)
    requires s.buffer.Valid() && Enabled(s, WorkerIngest(id))
    ensures Step(s, WorkerIngest(id)).buffer.Valid()
    ensures Surplus(Step(s, WorkerIngest(id))) == Surplus(s)
  {
    var m := s.runs[id].queue[0];
    IngestKeepsValid(s.buffer, m);
    if s.buffer.traceEnabled && m.batch.Parsed? {
      PushAllKeepsTheLast(IngestStats(s.buffer, m), m.batch.value);
    }
  }

  /** Whatever ring sizes are set and however the events interleave: no packet is ever missing from the account, and the
      account is exact if and only if every batch was. */
  lemma {:induction false} ConservedIff(s: Sys, events: seq<Event>, end: Sys)
    requires s.buffer.Valid() && Execution(s, events, end)
    ensures Surplus(end) >= Surplus(s)
    ensures Surplus(end) == Surplus(s) <==> AllCountExactly(s, events, end)
    decreases |events|
  {
    hide Surplus, CountsExactly, Step, Enabled;
    if events != [] {
      SurplusStep(s, events[0]);
      ConservedIff(Step(s, events[0]), events[1..], end);
    }
  }

  /** Any size that is not whole or is negative breaks the balance with the first poll that overflows it. */
  lemma BadRingSizeLosesCount(s: Sys, size: real, max: nat)
    requires LedgerInv(s) && !RingSizeAllowed(size)
    requires |s.ui.packets + Polled(s.buffer, max).packets| as real > size
    ensures |Step(Step(s, UiSetRingSize(size)), Poll(max)).arrived| as real
            < Accounted(Step(Step(s, UiSetRingSize(size)), Poll(max)))
  {
    hide RingSizeAllowed, AppendBatch;
    var t := Step(s, UiSetRingSize(size));
    assert Surplus(t) == Surplus(s) == 0.0;
    SurplusStep(t, Poll(max));
  }

  /** A negative size does so with the very next poll. */
  lemma NegativeRingSizeLosesCount(s: Sys, size: real, max: nat)
    requires LedgerInv(s) && size < 0.0
    ensures |Step(Step(s, UiSetRingSize(size)), Poll(max)).arrived| as real
            < Accounted(Step(Step(s, UiSetRingSize(size)), Poll(max)))
  {
    hide LedgerInv, Polled, Step, Accounted;
    assert |s.ui.packets + Polled(s.buffer, max).packets| as real >= 0.0;
    BadRingSizeLosesCount(s, size, max);
  }
}
