/** The bounded packet-trace rings: `Vita49TelemetryBuffer` in the backend and
    `appendPacketBatch` in the user interface's store. */
module Telemetry {
  import opened Reals
  import opened Wrappers

  datatype Packet = Packet(sequence: nat, event: string, streamId: nat)
  datatype Stats = Stats(document: string)

  /** A JSON text of a telemetry message: not sent, not parseable, or parsed. */
  datatype Payload<+T> = Absent | Malformed | Parsed(value: T)
  datatype Message = Message(stats: Payload<Stats>, batch: Payload<seq<Packet>>)

  datatype Batch = Batch(stats: Option<Stats>, packets: seq<Packet>, omitted: nat, hasMore: bool)

  const DEFAULT_PACKET_LIMIT: nat := 500
  const MAX_PACKET_LIMIT: nat := 1_000_000

  // ---------- specification of the backend ring ----------

  datatype Buffer = Buffer(
    latestStats: Option<Stats>, statsDirty: bool,
    packets: seq<Packet>, omitted: nat,
    limit: nat, traceEnabled: bool)
  {
    /** Holds of the default value and is kept by every operation. */
    ghost predicate Valid() {
      && (traceEnabled ==> 1 <= limit)
      && |packets| <= limit
      && (!traceEnabled ==> packets == [])
      && (statsDirty ==> latestStats.Some?)
    }
  }

  const EmptyBuffer := Buffer(None, false, [], 0, 0, false)

  function Clamp(x: nat, low: nat, high: nat): nat {
    if x < low then low else if x > high then high else x
  }

  function ResetBuffer(traceEnabled: bool, packetLimit: nat): (b: Buffer)
    ensures b.Valid() && b.latestStats == None && b.traceEnabled == traceEnabled
    ensures b.limit == if packetLimit == 0 then 500 else if packetLimit <= 1_000_000 then packetLimit else 1_000_000
  {
    var requested := if packetLimit == 0 then DEFAULT_PACKET_LIMIT else packetLimit;
    Buffer(None, false, [], 0, Clamp(requested, 1, MAX_PACKET_LIMIT), traceEnabled)
  }

  function Push(b: Buffer, p: Packet): Buffer {
    if |b.packets| >= b.limit then
      b.(packets := (if b.packets == [] then [] else b.packets[1..]) + [p], omitted := b.omitted + 1)
    else
      b.(packets := b.packets + [p])
  }

  function PushAll(b: Buffer, batch: seq<Packet>): Buffer {
    if batch == [] then b else Push(PushAll(b, batch[..|batch| - 1]), batch[|batch| - 1])
  }

  function IngestStats(b: Buffer, m: Message): Buffer {
    if m.stats.Parsed? then b.(latestStats := Some(m.stats.value), statsDirty := true) else b
  }

  function Ingested(b: Buffer, m: Message): Buffer {
    var b := IngestStats(b, m);
    if b.traceEnabled && m.batch.Parsed? then PushAll(b, m.batch.value) else b
  }

  function PollCount(b: Buffer, maxPackets: nat): (n: nat)
    ensures n <= |b.packets|
    ensures n == 0 <==> b.packets == []
  {
    var wanted := if maxPackets == 0 then 1 else maxPackets;
    if wanted < |b.packets| then wanted else |b.packets|
  }

  function Polled(b: Buffer, maxPackets: nat): Batch {
    var n := PollCount(b, maxPackets);
    Batch(if b.statsDirty then b.latestStats else None, b.packets[..n], b.omitted, n < |b.packets|)
  }

  function AfterPoll(b: Buffer, maxPackets: nat): Buffer {
    b.(packets := b.packets[PollCount(b, maxPackets)..], omitted := 0, statsDirty := false)
  }

  function AtLeastOne(n: nat): nat {
    if n < 1 then 1 else n
  }

  /** A poll hands out the oldest packets, as many as were asked for but at least one, and leaves the others; it has
      more exactly when there were more; the count of omitted packets is handed out once. */
  lemma PollHandsOut(b: Buffer, maxPackets: nat)
    ensures var polled, after := Polled(b, maxPackets), AfterPoll(b, maxPackets);
            && |polled.packets| == (if |b.packets| <= AtLeastOne(maxPackets) then |b.packets|
                                    else AtLeastOne(maxPackets))
            && polled.packets + after.packets == b.packets
            && (polled.hasMore <==> |b.packets| > AtLeastOne(maxPackets))
            && polled.omitted == b.omitted && after.omitted == 0
            && polled.stats == (if b.statsDirty then b.latestStats else None) && !after.statsDirty
            && after.latestStats == b.latestStats
            && after.limit == b.limit && after.traceEnabled == b.traceEnabled
  {
  }

  /** Polling for as long as there is more, with nothing ingested in between. */
  function Drain(b: Buffer, maxPackets: nat): (seq<Batch>, Buffer)
    decreases |b.packets|
  {
    var polled, after := Polled(b, maxPackets), AfterPoll(b, maxPackets);
    if polled.hasMore then
      var (rest, end) := Drain(after, maxPackets);
      ([polled] + rest, end)
    else ([polled], after)
  }

  /** One poll of a drain; if there are more to come they are fewer. */
  lemma DrainNext(b: Buffer, maxPackets: nat, done: seq<Batch>)
    ensures var polled, after := Polled(b, maxPackets), AfterPoll(b, maxPackets);
            && (done + Drain(b, maxPackets).0, Drain(b, maxPackets).1)
               == (if polled.hasMore then (done + [polled] + Drain(after, maxPackets).0, Drain(after, maxPackets).1)
                   else (done + [polled], after))
            && (if polled.hasMore then |after.packets| < |b.packets| else |after.packets| <= |b.packets|)
  {
    var polled, after := Polled(b, maxPackets), AfterPoll(b, maxPackets);
    PollHandsOut(b, maxPackets);
    hide Polled, AfterPoll;
    assert done + ([polled] + Drain(after, maxPackets).0) == done + [polled] + Drain(after, maxPackets).0;
  }

  function PacketsIn(batches: seq<Batch>): seq<Packet> {
    if batches == [] then [] else batches[0].packets + PacketsIn(batches[1..])
  }

  /** The batches hand out the whole ring in order and leave it empty; all but the last are full; the statistics and the
      omitted packets are reported by the first alone. */
  lemma {:induction false} DrainEmpties(b: Buffer, maxPackets: nat)
    ensures var (batches, end) := Drain(b, maxPackets);
            && PacketsIn(batches) == b.packets && end == b.(packets := [], omitted := 0, statsDirty := false)
            && batches != [] && batches[0].omitted == b.omitted
            && batches[0].stats == (if b.statsDirty then b.latestStats else None)
            && (forall i :: 0 <= i < |batches| ==>
                  && (batches[i].hasMore <==> i < |batches| - 1)
                  && (i < |batches| - 1 ==> |batches[i].packets| == AtLeastOne(maxPackets))
                  && (i > 0 ==> batches[i].omitted == 0 && batches[i].stats == None))
    decreases |b.packets|
  {
    hide Polled, AfterPoll;
    PollHandsOut(b, maxPackets);
    var polled, after := Polled(b, maxPackets), AfterPoll(b, maxPackets);
    var (batches, end) := Drain(b, maxPackets);
    if polled.hasMore {
      DrainEmpties(after, maxPackets);
      assert batches[1..] == Drain(after, maxPackets).0;
    } else {
      assert batches[1..] == [] && after.packets == [];
    }
  }

  function LastN<T>(s: seq<T>, n: nat): seq<T> {
    if |s| <= n then s else s[|s| - n..]
  }

  lemma PushKeepsTheLast(b: Buffer, before: seq<Packet>, p: Packet)
    requires 1 <= b.limit && b.packets == LastN(before, b.limit)
    ensures Push(b, p).packets == LastN(before + [p], b.limit)
    ensures Push(b, p).omitted + |Push(b, p).packets| == b.omitted + |b.packets| + 1
    ensures Push(b, p) == b.(packets := Push(b, p).packets, omitted := Push(b, p).omitted)
  {
  }

  /** What the pop-front/push-back loop amounts to: the ring is the last `limit`
      packets of everything it was given, and each packet it no longer holds was counted. */
  lemma {:induction false} PushAllKeepsTheLast(b: Buffer, batch: seq<Packet>)
    requires 1 <= b.limit && |b.packets| <= b.limit
    ensures PushAll(b, batch).packets == LastN(b.packets + batch, b.limit)
    ensures PushAll(b, batch).omitted + |PushAll(b, batch).packets| == b.omitted + |b.packets| + |batch|
    ensures PushAll(b, batch) ==
            b.(packets := PushAll(b, batch).packets, omitted := PushAll(b, batch).omitted)
  {
    if batch == [] {
      assert b.packets + batch == b.packets;
    } else {
      hide Push, LastN;
      var init, last := batch[..|batch| - 1], batch[|batch| - 1];
      PushAllKeepsTheLast(b, init);
      PushKeepsTheLast(PushAll(b, init), b.packets + init, last);
      assert b.packets + batch == (b.packets + init) + [last];
    }
  }

  lemma IngestKeepsValid(b: Buffer, m: Message)
    requires b.Valid()
    ensures Ingested(b, m).Valid()
    ensures Ingested(b, m).latestStats == if m.stats.Parsed? then Some(m.stats.value) else b.latestStats
    ensures Ingested(b, m).traceEnabled == b.traceEnabled && Ingested(b, m).limit == b.limit
  {
    if b.traceEnabled && m.batch.Parsed? {
      PushAllKeepsTheLast(IngestStats(b, m), m.batch.value);
    }
  }

  // ---------- specification of the interface's ring ----------

  /** The ring size is a number of JavaScript, and so is the count of omitted packets that depends on it. */
  datatype UiTrace = UiTrace(ringSize: real, packets: seq<Packet>, omitted: real)

  /** The sizes with which the accounting is exact: whole and not negative. */
  predicate RingSizeAllowed(size: real) {
    size >= 0.0 && Whole(size)
  }

  /** `Math.max(0, length - ringSize)`. */
  function Overflow(length: nat, ringSize: real): real {
    if length as real > ringSize then length as real - ringSize else 0.0
  }

  /** `slice` from a number that is not negative: it drops the whole part, and everything when that is too much. */
  function SliceFrom<T>(s: seq<T>, from: real): seq<T>
    requires from >= 0.0
  {
    if Floor(from) <= |s| then s[Floor(from)..] else []
  }

  /** `appendPacketBatch`. */
  function AppendBatch(u: UiTrace, packets: seq<Packet>, omitted: nat): UiTrace {
    var combined := u.packets + packets;
    var overflow := Overflow(|combined|, u.ringSize);
    u.(packets := if overflow > 0.0 then SliceFrom(combined, overflow) else combined,
       omitted := u.omitted + omitted as real + overflow)
  }

  /** What appending adds to the count beyond the packets there are. */
  function Excess(u: UiTrace, packets: seq<Packet>, omitted: nat): real {
    var after := AppendBatch(u, packets, omitted);
    |after.packets| as real + after.omitted - (|u.packets| as real + |packets| as real + u.omitted + omitted as real)
  }

  /** Appending never loses count of a packet, and counts exactly if and only if everything fits or the configured ring
      size is whole and not negative; `setConfig` stores whatever it is given, so the size is not checked here. */
  lemma AppendConservesIff(u: UiTrace, packets: seq<Packet>, omitted: nat)
    ensures Excess(u, packets, omitted) >= 0.0
    ensures Excess(u, packets, omitted) == 0.0
            <==> |u.packets + packets| as real <= u.ringSize || RingSizeAllowed(u.ringSize)
  {
    var length, overflow := |u.packets + packets|, Overflow(|u.packets + packets|, u.ringSize);
    if overflow > 0.0 {
      FloorOfDifference(length, u.ringSize);
      WholeDifference(length, u.ringSize);
    }
  }

  /** The ring is the last packets of what it was given, as many as the size rounded up; none for a negative size. */
  lemma AppendKeepsTheLast(u: UiTrace, packets: seq<Packet>, omitted: nat)
    ensures AppendBatch(u, packets, omitted).packets
            == LastN(u.packets + packets, if u.ringSize < 0.0 then 0 else Ceil(u.ringSize))
  {
    FloorOfDifference(|u.packets + packets|, u.ringSize);
  }

  /** A size of two and a half: of four packets three stay, and one and a half are counted as omitted. */
  lemma FractionalSizeMiscounts(u: UiTrace, packets: seq<Packet>)
    requires u == UiTrace(2.5, [], 0.0) && |packets| == 4
    ensures |AppendBatch(u, packets, 0).packets| == 3 && AppendBatch(u, packets, 0).omitted == 1.5
  {
    assert u.packets + packets == packets;
    assert Floor(1.5) == 1;
  }

  // ---------- the stateful objects ----------

  class Vita49TelemetryBuffer {
    var latestStats: Option<Stats>
    var statsDirty: bool
    var packets: seq<Packet>
    var omittedPacketTraceEvents: nat
    var packetLimit: nat
    var traceEnabled: bool

    ghost function State(): Buffer
      reads this
    {
      Buffer(latestStats, statsDirty, packets, omittedPacketTraceEvents, packetLimit, traceEnabled)
    }

    constructor ()
      ensures State() == EmptyBuffer && State().Valid()
    {
      latestStats, statsDirty := None, false;
      packets, omittedPacketTraceEvents := [], 0;
      packetLimit, traceEnabled := 0, false;
    }

    method Reset(enabled: bool, limit: nat)
      modifies this
      ensures State() == ResetBuffer(enabled, limit) && State().Valid()
    {
      latestStats := None;
      statsDirty := false;
      packets := [];
      omittedPacketTraceEvents := 0;
      var requested := if limit == 0 then DEFAULT_PACKET_LIMIT else limit;
      packetLimit := Clamp(requested, 1, MAX_PACKET_LIMIT);
      traceEnabled := enabled;
    }

    method Ingest(message: Message)
      requires State().Valid()
      modifies this
      ensures State() == Ingested(old(State()), message) && State().Valid()
    {
      ghost var before := State();
      IngestKeepsValid(before, message);
      if message.stats.Parsed? {
        latestStats := Some(message.stats.value);
        statsDirty := true;
      }
      if !traceEnabled || !message.batch.Parsed? {
        return;
      }
      var batch := message.batch.value;
      ghost var started := State();
      for i := 0 to |batch|
        invariant State() == PushAll(started, batch[..i])
        invariant packetLimit == started.limit >= 1
      {
        assert PushAll(started, batch[..i + 1]) == Push(PushAll(started, batch[..i]), batch[i]) by {
          assert batch[..i + 1][..i] == batch[..i];
        }
        if |packets| >= packetLimit {
          packets := packets[1..];
          omittedPacketTraceEvents := omittedPacketTraceEvents + 1;
        }
        packets := packets + [batch[i]];
      }
      assert batch[..|batch|] == batch;
    }

    method Poll(maxPackets: nat) returns (polled: Batch)
      requires State().Valid()
      modifies this
      ensures polled == Polled(old(State()), maxPackets)
      ensures State() == AfterPoll(old(State()), maxPackets) && State().Valid()
    {
      var wanted := if maxPackets < 1 then 1 else maxPackets;
      var count := if wanted < |packets| then wanted else |packets|;
      var drained := packets[..count];
      packets := packets[count..];
      var omitted := omittedPacketTraceEvents;
      omittedPacketTraceEvents := 0;
      var stats := None;
      if statsDirty {
        statsDirty := false;
        stats := latestStats;
      }
      polled := Batch(stats, drained, omitted, packets != []);
    }

    /** The loop of `drainAvailableTelemetry`, while nothing is ingested. */
    method DrainAvailable(maxPackets: nat) returns (batches: seq<Batch>)
      requires State().Valid()
      modifies this
      ensures (batches, State()) == Drain(old(State()), maxPackets) && State().Valid()
    {
      hide Drain, Polled, AfterPoll, Buffer.Valid;
      ghost var before := State();
      batches := [];
      assert batches + Drain(before, maxPackets).0 == Drain(before, maxPackets).0;
      var hasMore := true;
      while hasMore
        invariant State().Valid()
        invariant Drain(before, maxPackets)
                  == if hasMore then var (rest, end) := Drain(State(), maxPackets); (batches + rest, end)
                     else (batches, State())
        decreases |packets|, if hasMore then 1 else 0
      {
        ghost var done, now := batches, State();
        DrainNext(now, maxPackets, done);
        var polled := Poll(maxPackets);
        batches := batches + [polled];
        hasMore := polled.hasMore;
      }
    }
  }
}
