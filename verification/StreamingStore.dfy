/** The interface's store of one VITA 49 stream: what each action makes of it, and what holds after
    any sequence of actions. */
module StreamingStore {
  import opened Wrappers
  import opened Telemetry
  import StreamRows

  datatype RunState = Idle | Running | Stopping | Draining | Completed | Failed | Cancelled

  /** The metadata of a run's output and its VITA 49 part, if any. */
  datatype Metadata = Metadata(document: string, vita49: Option<string>)

  datatype State = State(
    runState: RunState, expectedStreams: seq<StreamRows.Row>, streamStats: Option<Stats>, trace: UiTrace,
    finalMetadata: Option<Metadata>, finalVita49Metadata: Option<string>, error: Option<string>)

  datatype Action =
    | SetRingSize(size: real)
    | StartRun(expected: seq<StreamRows.Row>)
    | MarkStopping
    | MarkDraining
    | SetStreamStats(stats: Stats)
    | AppendPacketBatch(packets: seq<Packet>, omitted: nat)
    | CompleteRun(metadata: Option<Metadata>)
    | CancelRun(metadata: Option<Metadata>)
    | FailRun(reason: string)
    | ResetTrace

  function Initial(ringSize: real): State {
    State(Idle, [], None, UiTrace(ringSize, [], 0.0), None, None, None)
  }

  function Vita49Part(metadata: Option<Metadata>): Option<string> {
    if metadata.Some? then metadata.value.vita49 else None
  }

  function Finished(s: State, end: RunState, metadata: Option<Metadata>): State {
    s.(runState := end, finalMetadata := metadata, finalVita49Metadata := Vita49Part(metadata), error := None)
  }

  function Cleared(u: UiTrace): UiTrace {
    UiTrace(u.ringSize, [], 0.0)
  }

  function After(s: State, a: Action): State {
    match a
    case SetRingSize(size) => s.(trace := s.trace.(ringSize := size))
    case StartRun(expected) => State(Running, expected, None, Cleared(s.trace), None, None, None)
    case MarkStopping => s.(runState := if s.runState == Running then Stopping else s.runState)
    case MarkDraining =>
      s.(runState := if s.runState == Running || s.runState == Stopping then Draining else s.runState)
    case SetStreamStats(stats) => s.(streamStats := Some(stats))
    case AppendPacketBatch(packets, omitted) => s.(trace := AppendBatch(s.trace, packets, omitted))
    case CompleteRun(metadata) => Finished(s, Completed, metadata)
    case CancelRun(metadata) => Finished(s, Cancelled, metadata)
    case FailRun(reason) => s.(runState := Failed, error := Some(reason))
    case ResetTrace => s.(trace := Cleared(s.trace))
  }

  function AfterAll(s: State, actions: seq<Action>): State {
    if actions == [] then s else After(AfterAll(s, actions[..|actions| - 1]), actions[|actions| - 1])
  }

  // ---------- what the run state means ----------

  /** Actions that set the run state whatever it was. */
  predicate Decides(a: Action) {
    a.StartRun? || a.CompleteRun? || a.CancelRun? || a.FailRun?
  }

  /** The place of the last deciding action. */
  function LastDecision(actions: seq<Action>): (i: Option<nat>)
    ensures i.Some? ==> i.value < |actions| && Decides(actions[i.value])
    ensures forall j :: (if i.Some? then i.value + 1 else 0) <= j < |actions| ==> !Decides(actions[j])
  {
    if actions == [] then None
    else if Decides(actions[|actions| - 1]) then Some(|actions| - 1)
    else LastDecision(actions[..|actions| - 1])
  }

  ghost predicate Marked(actions: seq<Action>, from: nat, mark: Action) {
    exists j :: from < j < |actions| && actions[j] == mark
  }

  lemma MarkedStep(actions: seq<Action>, from: nat, mark: Action)
    requires actions != [] && from < |actions| - 1
    ensures Marked(actions, from, mark)
            <==> Marked(actions[..|actions| - 1], from, mark) || actions[|actions| - 1] == mark
  {
    var init := actions[..|actions| - 1];
    if j :| from < j < |actions| && actions[j] == mark {
      assert j == |init| || init[j] == mark;
    }
    if j :| from < j < |init| && init[j] == mark {
      assert actions[j] == mark;
    }
  }

  /** The run state after any actions, read off the actions themselves: idle before the first deciding one,
      otherwise what the last deciding one set; and after a start, draining once that was marked,
      whatever else was marked, and stopping when only that was. */
  lemma {:induction false} RunStateMeans(ringSize: real, actions: seq<Action>)
    ensures AfterAll(Initial(ringSize), actions).runState
            == match LastDecision(actions)
               case None => Idle
               case Some(i) =>
                 if actions[i].CompleteRun? then Completed
                 else if actions[i].CancelRun? then Cancelled
                 else if actions[i].FailRun? then Failed
                 else if Marked(actions, i, MarkDraining) then Draining
                 else if Marked(actions, i, MarkStopping) then Stopping
                 else Running
  {
    hide AppendBatch, Marked;
    if actions != [] {
      var init, a := actions[..|actions| - 1], actions[|actions| - 1];
      RunStateMeans(ringSize, init);
      if Decides(a) {
        NothingMarked(actions, MarkDraining);
        NothingMarked(actions, MarkStopping);
      } else if LastDecision(init).Some? {
        MarkedStep(actions, LastDecision(init).value, MarkDraining);
        MarkedStep(actions, LastDecision(init).value, MarkStopping);
      }
    }
  }

  lemma NothingMarked(actions: seq<Action>, mark: Action)
    requires actions != []
    ensures !Marked(actions, |actions| - 1, mark)
  {
  }

  /** Marking never revives a stream that has ended: only a start leads out of the three end states. */
  lemma {:induction false} EndedUntilStart(s: State, actions: seq<Action>)
    requires s.runState in {Completed, Failed, Cancelled}
    requires forall i :: 0 <= i < |actions| ==> !actions[i].StartRun?
    ensures AfterAll(s, actions).runState in {Completed, Failed, Cancelled}
  {
    hide AppendBatch;
    if actions != [] {
      EndedUntilStart(s, actions[..|actions| - 1]);
    }
  }

  /** An error is shown exactly while the run state is failed, metadata only after an end, and the VITA 49
      part is that of the metadata shown. */
  ghost predicate Reported(s: State) {
    && (s.error.Some? <==> s.runState == Failed)
    && (s.finalMetadata.Some? ==> s.runState == Completed || s.runState == Failed || s.runState == Cancelled)
    && s.finalVita49Metadata == Vita49Part(s.finalMetadata)
  }

  lemma ReportedStep(s: State, a: Action)
    requires Reported(s)
    ensures Reported(After(s, a))
  {
    hide AppendBatch, Vita49Part;
    assert Vita49Part(None) == None by {
      NoMetadata();
    }
  }

  lemma NoMetadata()
    ensures Vita49Part(None) == None
  {
  }

  /** So it is after any actions. */
  lemma {:induction false} EndsAreReported(ringSize: real, actions: seq<Action>)
    ensures Reported(AfterAll(Initial(ringSize), actions))
  {
    hide After;
    if actions != [] {
      EndsAreReported(ringSize, actions[..|actions| - 1]);
      ReportedStep(AfterAll(Initial(ringSize), actions[..|actions| - 1]), actions[|actions| - 1]);
    }
  }

  // ---------- everything else, read off the actions ----------

  /** The last action of a kind. */
  function LastOf(actions: seq<Action>, which: Action -> bool): Option<Action> {
    if actions == [] then None
    else if which(actions[|actions| - 1]) then Some(actions[|actions| - 1])
    else LastOf(actions[..|actions| - 1], which)
  }

  lemma LastOfNext(actions: seq<Action>, which: Action -> bool)
    requires actions != []
    ensures var last := actions[|actions| - 1];
            LastOf(actions, which) == if which(last) then Some(last) else LastOf(actions[..|actions| - 1], which)
  {
  }

  predicate Starts(a: Action) {
    a.StartRun?
  }

  predicate SetsStats(a: Action) {
    a.SetStreamStats? || a.StartRun?
  }

  predicate SetsMetadata(a: Action) {
    a.CompleteRun? || a.CancelRun? || a.StartRun?
  }

  predicate SetsSize(a: Action) {
    a.SetRingSize?
  }

  predicate SetsTrace(a: Action) {
    a.AppendPacketBatch? || a.StartRun? || a.ResetTrace?
  }

  /** The expected streams are those of the last start; the statistics and the metadata are the last ones since; the
      error is that of a failure that nothing has superseded; the trace is empty from a start or a reset to the
      next batch. */
  ghost predicate SaidBy(ringSize: real, s: State, actions: seq<Action>) {
    && s.expectedStreams == (match LastOf(actions, Starts) case Some(StartRun(expected)) => expected case _ => [])
    && s.streamStats == (match LastOf(actions, SetsStats) case Some(SetStreamStats(stats)) => Some(stats)
                         case _ => None)
    && s.finalMetadata == (match LastOf(actions, SetsMetadata)
                           case Some(CompleteRun(metadata)) => metadata
                           case Some(CancelRun(metadata)) => metadata
                           case _ => None)
    && s.error == (match LastOf(actions, Decides) case Some(FailRun(reason)) => Some(reason) case _ => None)
    && s.trace.ringSize == (match LastOf(actions, SetsSize) case Some(SetRingSize(size)) => size case _ => ringSize)
    && (!(LastOf(actions, SetsTrace).Some? && LastOf(actions, SetsTrace).value.AppendPacketBatch?) ==>
          s.trace.packets == [] && s.trace.omitted == 0.0)
  }

  lemma SaidByNext(ringSize: real, s: State, actions: seq<Action>)
    requires actions != [] && SaidBy(ringSize, s, actions[..|actions| - 1])
    ensures SaidBy(ringSize, After(s, actions[|actions| - 1]), actions)
  {
    hide LastOf, Overflow, SliceFrom;
    LastOfNext(actions, Starts);
    LastOfNext(actions, SetsStats);
    LastOfNext(actions, SetsMetadata);
    LastOfNext(actions, Decides);
    LastOfNext(actions, SetsSize);
    LastOfNext(actions, SetsTrace);
  }

  lemma {:induction false} ActionsSay(ringSize: real, actions: seq<Action>)
    ensures SaidBy(ringSize, AfterAll(Initial(ringSize), actions), actions)
  {
    hide SaidBy, After;
    if actions == [] {
      NothingSaid(ringSize);
    } else {
      ActionsSay(ringSize, actions[..|actions| - 1]);
      SaidByNext(ringSize, AfterAll(Initial(ringSize), actions[..|actions| - 1]), actions);
    }
  }

  lemma NothingSaid(ringSize: real)
    ensures SaidBy(ringSize, Initial(ringSize), [])
  {
  }

  // ---------- the store ----------

  class Vita49StreamingStore {
    var ringSize: real
    var runState: RunState
    var expectedStreams: seq<StreamRows.Row>
    var streamStats: Option<Stats>
    var packetTrace: seq<Packet>
    var omittedPacketTraceEvents: real
    var finalMetadata: Option<Metadata>
    var finalVita49Metadata: Option<string>
    var error: Option<string>

    ghost function Shown(): State
      reads this
    {
      State(runState, expectedStreams, streamStats, UiTrace(ringSize, packetTrace, omittedPacketTraceEvents),
            finalMetadata, finalVita49Metadata, error)
    }

    constructor (ringSize: real)
      ensures Shown() == Initial(ringSize)
    {
      this.ringSize := ringSize;
      runState, expectedStreams, streamStats := Idle, [], None;
      packetTrace, omittedPacketTraceEvents := [], 0.0;
      finalMetadata, finalVita49Metadata, error := None, None, None;
    }

    method SetRingSize(size: real)
      modifies this
      ensures Shown() == After(old(Shown()), Action.SetRingSize(size))
    {
      ringSize := size;
    }

    method StartRun(expected: seq<StreamRows.Row>)
      modifies this
      ensures Shown() == After(old(Shown()), Action.StartRun(expected))
    {
      runState := Running;
      expectedStreams := expected;
      streamStats := None;
      packetTrace := [];
      omittedPacketTraceEvents := 0.0;
      finalMetadata := None;
      finalVita49Metadata := None;
      error := None;
    }

    method MarkStopping()
      modifies this
      ensures Shown() == After(old(Shown()), Action.MarkStopping)
    {
      if runState == Running {
        runState := Stopping;
      }
    }

    method MarkDraining()
      modifies this
      ensures Shown() == After(old(Shown()), Action.MarkDraining)
    {
      if runState == Running || runState == Stopping {
        runState := Draining;
      }
    }

    method SetStreamStats(stats: Stats)
      modifies this
      ensures Shown() == After(old(Shown()), Action.SetStreamStats(stats))
    {
      streamStats := Some(stats);
    }

    method AppendPacketBatch(packets: seq<Packet>, omitted: nat)
      modifies this
      ensures Shown() == After(old(Shown()), Action.AppendPacketBatch(packets, omitted))
    {
      var combined := packetTrace + packets;
      var overflow := Overflow(|combined|, ringSize);
      packetTrace := if overflow > 0.0 then SliceFrom(combined, overflow) else combined;
      omittedPacketTraceEvents := omittedPacketTraceEvents + omitted as real + overflow;
    }

    method CompleteRun(metadata: Option<Metadata>)
      modifies this
      ensures Shown() == After(old(Shown()), Action.CompleteRun(metadata))
    {
      runState, finalMetadata, error := Completed, metadata, None;
      finalVita49Metadata := if metadata.Some? then metadata.value.vita49 else None;
    }

    method CancelRun(metadata: Option<Metadata>)
      modifies this
      ensures Shown() == After(old(Shown()), Action.CancelRun(metadata))
    {
      runState, finalMetadata, error := Cancelled, metadata, None;
      finalVita49Metadata := if metadata.Some? then metadata.value.vita49 else None;
    }

    method FailRun(reason: string)
      modifies this
      ensures Shown() == After(old(Shown()), Action.FailRun(reason))
    {
      runState, error := Failed, Some(reason);
    }

    method ResetTrace()
      modifies this
      ensures Shown() == After(old(Shown()), Action.ResetTrace)
    {
      packetTrace, omittedPacketTraceEvents := [], 0.0;
    }
  }
}
