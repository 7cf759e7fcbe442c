/** Run control and the telemetry pipeline as one state machine: every event below is
    one atomic action of some thread, and any number of start commands, stop commands,
    runs, workers, pollers and interface resets may interleave. */
module RunControl {
  import opened Wrappers
  import opened Telemetry

  datatype RunKind = Hdf5 | Stream(traceEnabled: bool, packetLimit: nat)

  /** How far a run has got. A run is live from the moment its start command has won the
      compare-exchange on `running` until `finish` has cleared it. */
  datatype Stage =
    | Claimed    // `running` set, `cancel_requested` not yet cleared
    | Launched   // `try_start` has returned, the run's thread is going
    | Ready      // telemetry buffer reset, channel open, worker spawned, simulator running
    | Closed     // simulator returned, sender dropped
    | Joined     // worker joined
    | Reported   // completion, cancellation or error event emitted
    | Done       // `finish` called

  datatype Run = Run(
    kind: RunKind, stage: Stage,
    queue: seq<Message>,        // the run's channel
    workerDone: bool,
    sent: seq<Message>,         // history: everything the simulator sent
    ingested: seq<Message>,     // history: everything the worker ingested
    stopSeen: bool)             // history: a stop was issued after try_start returned

  datatype Sys = Sys(
    running: bool, cancelRequested: bool,
    buffer: Buffer, ui: UiTrace,
    runs: map<nat, Run>,
    arrived: seq<Packet>,       // history: packets of parsed batches, tracing enabled
    delivered: seq<Packet>,     // history: packets handed to the interface
    discarded: real)            // history: packets and counts thrown away by resets

  datatype Event =
    | WinStart(id: nat, kind: RunKind)   // compare_exchange(false, true) succeeds
    | LoseStart                          // compare_exchange fails: "already running"
    | ClearCancel(id: nat)               // the second step of try_start
    | Stop                               // stop_simulation
    | ResetTelemetry(id: nat)
    | Send(id: nat, message: Message)
    | WorkerIngest(id: nat)
    | DropSender(id: nat)
    | WorkerExit(id: nat)
    | JoinWorker(id: nat)
    | Report(id: nat)
    | Finish(id: nat)
    | Poll(maxPackets: nat)              // poll_vita49_telemetry handed to appendPacketBatch
    | UiStartRun
    | UiResetTrace
    | UiSetRingSize(size: real)

  function Initial(ringSize: real): Sys {
    Sys(false, false, EmptyBuffer, UiTrace(ringSize, [], 0.0), map[], [], [], 0.0)
  }

  predicate At(s: Sys, id: nat, stage: Stage) {
    id in s.runs && s.runs[id].stage == stage
  }

  predicate Live(s: Sys, id: nat) {
    id in s.runs && s.runs[id].stage != Done
  }

  predicate StreamAt(s: Sys, id: nat, stage: Stage) {
    At(s, id, stage) && s.runs[id].kind.Stream?
  }

  predicate Enabled(s: Sys, e: Event) {
    match e
    case WinStart(id, _) => !s.running && id !in s.runs
    case LoseStart => s.running
    case ClearCancel(id) => At(s, id, Claimed)
    case Stop => true
    case ResetTelemetry(id) => StreamAt(s, id, Launched)
    case Send(id, _) => StreamAt(s, id, Ready)
    case WorkerIngest(id) => (StreamAt(s, id, Ready) || StreamAt(s, id, Closed)) && s.runs[id].queue != []
    case DropSender(id) => StreamAt(s, id, Ready)
    case WorkerExit(id) => StreamAt(s, id, Closed) && s.runs[id].queue == []
    case JoinWorker(id) => StreamAt(s, id, Closed) && s.runs[id].workerDone
    case Report(id) => StreamAt(s, id, Joined) || (At(s, id, Launched) && s.runs[id].kind.Hdf5?)
    case Finish(id) => At(s, id, Reported)
    case Poll(_) => true
    case UiStartRun => true
    case UiResetTrace => true
    case UiSetRingSize(_) => true
  }

  function Advance(s: Sys, id: nat, stage: Stage): Sys
    requires id in s.runs
  {
    s.(runs := s.runs[id := s.runs[id].(stage := stage)])
  }

  function MarkStop(r: Run): Run {
    r.(stopSeen := r.stopSeen || (r.stage != Claimed && r.stage != Done))
  }

  function NewlyArrived(b: Buffer, m: Message): seq<Packet> {
    if b.traceEnabled && m.batch.Parsed? then m.batch.value else []
  }

  function ClearUi(s: Sys): Sys {
    s.(ui := UiTrace(s.ui.ringSize, [], 0.0), discarded := s.discarded + |s.ui.packets| as real + s.ui.omitted)
  }

  function Step(s: Sys, e: Event): Sys
    requires Enabled(s, e)
  {
    match e
    case WinStart(id, kind) =>
      s.(running := true, runs := s.runs[id := Run(kind, Claimed, [], false, [], [], false)])
    case LoseStart => s
    case ClearCancel(id) => Advance(s, id, Launched).(cancelRequested := false)
    case Stop => s.(cancelRequested := true, runs := map id | id in s.runs :: MarkStop(s.runs[id]))
    case ResetTelemetry(id) =>
      var kind := s.runs[id].kind;
      Advance(s, id, Ready).(
        buffer := ResetBuffer(kind.traceEnabled, kind.packetLimit),
        discarded := s.discarded + |s.buffer.packets| as real + s.buffer.omitted as real)
    case Send(id, m) =>
      var r := s.runs[id];
      s.(runs := s.runs[id := r.(queue := r.queue + [m], sent := r.sent + [m])])
    case WorkerIngest(id) =>
      var r := s.runs[id];
      s.(runs := s.runs[id := r.(queue := r.queue[1..], ingested := r.ingested + [r.queue[0]])],
         buffer := Ingested(s.buffer, r.queue[0]),
         arrived := s.arrived + NewlyArrived(s.buffer, r.queue[0]))
    case DropSender(id) => Advance(s, id, Closed)
    case WorkerExit(id) => s.(runs := s.runs[id := s.runs[id].(workerDone := true)])
    case JoinWorker(id) => Advance(s, id, Joined)
    case Report(id) => Advance(s, id, Reported)
    case Finish(id) => Advance(s, id, Done).(running := false)
    case Poll(max) =>
      var polled := Polled(s.buffer, max);
      s.(buffer := AfterPoll(s.buffer, max),
         ui := AppendBatch(s.ui, polled.packets, polled.omitted),
         delivered := s.delivered + polled.packets)
    case UiStartRun => ClearUi(s)
    case UiResetTrace => ClearUi(s)
    case UiSetRingSize(n) => s.(ui := s.ui.(ringSize := n))
  }

  /** `end` is reached from `s` by the events, each enabled when it happens. */
  ghost predicate Execution(s: Sys, events: seq<Event>, end: Sys)
    decreases |events|
  {
    if events == [] then end == s
    else Enabled(s, events[0]) && Execution(Step(s, events[0]), events[1..], end)
  }

  // ---------- run control ----------

  ghost predicate ControlInv(s: Sys) {
    && (forall i, j :: Live(s, i) && Live(s, j) ==> i == j)
    && (s.running <==> exists i :: Live(s, i))
    && (forall i :: Live(s, i) && s.runs[i].stopSeen ==> s.cancelRequested && s.runs[i].stage != Claimed)
  }

  lemma ControlStep(s: Sys, e: Event)
    requires ControlInv(s) && Enabled(s, e)
    ensures ControlInv(Step(s, e))
  {
    hide AppendBatch, Polled, AfterPoll, Ingested, NewlyArrived;
    var t := Step(s, e);
    if e.WinStart? {
      assert Live(t, e.id);
      assert forall i :: Live(t, i) ==> i == e.id || Live(s, i);
    } else if e.Finish? {
      var id := e.id;
      assert Live(s, id);
      assert forall i :: Live(t, i) ==> Live(s, i) && i != id;
    } else if e.ClearCancel? {
      assert Live(s, e.id) && Live(t, e.id);
      assert forall i :: Live(t, i) <==> Live(s, i);
    } else {
      OtherStepsKeepLive(s, e);
    }
  }

  predicate Plain(e: Event) {
    !e.WinStart? && !e.Finish? && !e.ClearCancel? && !e.Stop?
  }

  lemma PlainStepKeepsFlags(s: Sys, e: Event)
    requires Enabled(s, e) && Plain(e)
    ensures Step(s, e).running == s.running && Step(s, e).cancelRequested == s.cancelRequested
  {
    hide AppendBatch, Polled, AfterPoll, Ingested, NewlyArrived;
  }

  lemma PlainStepKeepsRun(s: Sys, e: Event, i: nat)
    requires Enabled(s, e) && Plain(e)
    ensures Live(Step(s, e), i) <==> Live(s, i)
    ensures Live(s, i) ==> Step(s, e).runs[i].stopSeen == s.runs[i].stopSeen
                           && (s.runs[i].stage != Claimed ==> Step(s, e).runs[i].stage != Claimed)
  {
    hide AppendBatch, Polled, AfterPoll, Ingested, NewlyArrived;
  }

  lemma OtherStepsKeepLive(s: Sys, e: Event)
    requires ControlInv(s) && Enabled(s, e) && (Plain(e) || e.Stop?)
    ensures ControlInv(Step(s, e))
  {
    var t := Step(s, e);
    if e.Stop? {
      assert forall i :: Live(t, i) <==> Live(s, i);
    } else {
      hide Step, Live, Enabled, Plain;
      PlainStepKeepsFlags(s, e);
      forall i
        ensures Live(t, i) <==> Live(s, i)
        ensures Live(s, i) ==> Live(t, i) && i in s.runs && i in t.runs && t.runs[i].stopSeen == s.runs[i].stopSeen
                               && (s.runs[i].stage != Claimed ==> t.runs[i].stage != Claimed)
      {
        PlainStepKeepsRun(s, e, i);
        LiveIsThere(s, i);
        LiveIsThere(t, i);
      }
    }
  }

  lemma LiveIsThere(s: Sys, i: nat)
    ensures Live(s, i) ==> i in s.runs
  {
  }

  /** Over every interleaving at most one run is live, `running` is set exactly while one is,
      and a stop issued after the run's `try_start` returned stays requested. */
  lemma {:induction false} ControlOverEveryRun(s: Sys, events: seq<Event>, end: Sys)
    requires ControlInv(s) && Execution(s, events, end)
    ensures ControlInv(end)
    decreases |events|
  {
    if events != [] {
      ControlStep(s, events[0]);
      ControlOverEveryRun(Step(s, events[0]), events[1..], end);
    }
  }

  lemma InitialControl(ringSize: real)
    ensures ControlInv(Initial(ringSize))
  {
  }

  /** Clearing the flag is the only thing that withdraws a stop, so without another
      stop a cleared flag stays cleared until the next start. */
  lemma {:induction false} ClearedStaysCleared(s: Sys, events: seq<Event>, end: Sys)
    requires !s.cancelRequested && Stop !in events && Execution(s, events, end)
    ensures !end.cancelRequested
    decreases |events|
  {
    if events != [] {
      assert events[0] in events && events[0] != Stop;
      ClearedStaysCleared(Step(s, events[0]), events[1..], end);
    }
  }

  lemma {:induction false} StopIsRemembered(s: Sys, events: seq<Event>, end: Sys, id: nat)
    requires id in s.runs && s.runs[id].stopSeen && Execution(s, events, end)
    ensures id in end.runs && end.runs[id].stopSeen
    decreases |events|
  {
    if events != [] {
      StopIsRemembered(Step(s, events[0]), events[1..], end, id);
    }
  }

  lemma {:induction false} StopWhileClaimedIsLost(s: Sys, events: seq<Event>, end: Sys, id: nat)
    requires ControlInv(s) && At(s, id, Claimed)
    requires Stop !in events && Execution(s, events, end)
    requires Live(end, id) && !At(end, id, Claimed)
    ensures !end.cancelRequested
    decreases |events|
  {
    if events != [] {
      var e := events[0];
      assert e in events && Live(s, id);
      ControlStep(s, e);
      if e == ClearCancel(id) {
        ClearedStaysCleared(Step(s, e), events[1..], end);
      } else {
        StopWhileClaimedIsLost(Step(s, e), events[1..], end, id);
      }
    }
  }

  /** When a stop is issued during a run and no other stop follows, the run sees it if and only
      if the run's `try_start` had returned: a stop between the compare-exchange and the store
      that follows it is overwritten. */
  lemma StopIsHeardIff(s: Sys, events: seq<Event>, end: Sys, id: nat)
    requires ControlInv(s) && Live(s, id)
    requires Stop !in events && Execution(Step(s, Stop), events, end)
    requires Live(end, id) && !At(end, id, Claimed)
    ensures end.cancelRequested <==> !At(s, id, Claimed)
  {
    var t := Step(s, Stop);
    ControlStep(s, Stop);
    if At(s, id, Claimed) {
      StopWhileClaimedIsLost(t, events, end, id);
    } else {
      StopIsRemembered(t, events, end, id);
      ControlOverEveryRun(t, events, end);
    }
  }

  /** In every reachable state a start wins exactly when no run is live, and is refused exactly when one is. */
  lemma StartWinsIff(ringSize: real, events: seq<Event>, s: Sys, id: nat, kind: RunKind)
    requires Execution(Initial(ringSize), events, s)
    ensures Enabled(s, WinStart(id, kind)) <==> id !in s.runs && forall i :: !Live(s, i)
    ensures Enabled(s, LoseStart) <==> exists i :: Live(s, i)
  {
    InitialControl(ringSize);
    ControlOverEveryRun(Initial(ringSize), events, s);
  }

  /** The lost stop, step by step. */
  lemma StopCanBeLost(ringSize: real) returns (end: Sys)
    ensures Execution(Initial(ringSize), [WinStart(0, Hdf5), Stop, ClearCancel(0)], end)
    ensures Live(end, 0) && end.running && !end.cancelRequested
  {
    var s1 := Step(Initial(ringSize), WinStart(0, Hdf5));
    var s2 := Step(s1, Stop);
    end := Step(s2, ClearCancel(0));
    assert Execution(end, [], end);
    assert [ClearCancel(0)][1..] == [];
    assert Execution(s2, [ClearCancel(0)], end);
    assert [Stop, ClearCancel(0)][1..] == [ClearCancel(0)];
    assert Execution(s1, [Stop, ClearCancel(0)], end);
    assert [WinStart(0, Hdf5), Stop, ClearCancel(0)][1..] == [Stop, ClearCancel(0)];
  }

  /** The two atomics. Each method is one atomic action, and does to the fields what the
      corresponding event of the state machine does. */
  class SimulationControlState {
    var cancelRequested: bool
    var running: bool

    ghost predicate Shows(s: Sys)
      reads this
    {
      running == s.running && cancelRequested == s.cancelRequested
    }

    constructor ()
      ensures forall ringSize :: Shows(Initial(ringSize))
    {
      cancelRequested, running := false, false;
    }

    /** First step of `try_start`. */
    method ClaimRun(ghost s: Sys, ghost id: nat, ghost kind: RunKind) returns (won: bool)
      requires Shows(s) && id !in s.runs
      modifies this`running
      ensures won <==> Enabled(s, WinStart(id, kind))
      ensures !won <==> Enabled(s, LoseStart)
      ensures Shows(if won then Step(s, WinStart(id, kind)) else Step(s, LoseStart))
    {
      won := !running;
      if won {
        running := true;
      }
    }

    /** Second step of `try_start`. */
    method ClearCancelRequest(ghost s: Sys, ghost id: nat)
      requires Shows(s) && Enabled(s, ClearCancel(id))
      modifies this`cancelRequested
      ensures Shows(Step(s, ClearCancel(id)))
    {
      cancelRequested := false;
    }

    method RequestStop(ghost s: Sys)
      requires Shows(s)
      modifies this`cancelRequested
      ensures Shows(Step(s, Stop))
    {
      cancelRequested := true;
    }

    method FinishRun(ghost s: Sys, ghost id: nat)
      requires Shows(s) && Enabled(s, Finish(id))
      modifies this`running
      ensures Shows(Step(s, Finish(id)))
    {
      running := false;
    }
  }
}
