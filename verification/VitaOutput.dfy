/** The VITA 49 output settings of a simulation context, the setters of the C interface and
    the check made before a run. */
module VitaOutput {
  import opened Wrappers

  type u16 = x: int | 0 <= x < 0x1_0000
  type u32 = x: int | 0 <= x < 0x1_0000_0000
  type u64 = x: int | 0 <= x < 0x1_0000_0000_0000_0000

  /** A double: a finite value (taken as a real), or an infinity or NaN. */
  datatype Double = Finite(value: real) | NotFinite

  datatype OutputMode = Hdf5 | Vita49Udp

  datatype OutputConfig = OutputConfig(
    mode: OutputMode, host: string, port: u16, adcFullscale: Double, queueDepth: u32,
    epochNanoseconds: Option<u64>, maxUdpPayload: u16, packetTraceEnabled: bool)

  const DefaultOutput := OutputConfig(Hdf5, "", 0, Finite(0.0), 1024, None, 1400, true)

  const NANOSECONDS_PER_SECOND: int := 1_000_000_000
  const MAX_VRT_EPOCH: int := 4_294_967_295 * 1_000_000_000 + 999_999_999

  predicate ValidEpoch(epoch: u64) {
    epoch <= MAX_VRT_EPOCH
  }

  predicate ValidFullscale(x: Double) {
    x.Finite? && x.value > 0.0
  }

  predicate ValidPayload(bytes: u16) {
    64 <= bytes <= 65507
  }

  /** An epoch is valid exactly when its whole seconds fit an unsigned 32-bit field. */
  lemma ValidEpochIff(epoch: u64)
    ensures ValidEpoch(epoch) <==> epoch / NANOSECONDS_PER_SECOND < 0x1_0000_0000
  {
  }

  // ---------- setters: what they do to the settings ----------

  /** `host` is None for a null pointer. */
  function Endpoint(o: OutputConfig, host: Option<string>, port: u16): Result<OutputConfig> {
    if host.None? then Failure("Invalid VITA49 endpoint: host is NULL.")
    else if host.value == "" then Failure("Invalid VITA49 endpoint: host must be non-empty.")
    else if port == 0 then Failure("Invalid VITA49 endpoint: port must be in the range 1..65535.")
    else Success(o.(mode := Vita49Udp, host := host.value, port := port))
  }

  function Fullscale(o: OutputConfig, x: Double): Result<OutputConfig> {
    if !ValidFullscale(x) then Failure("Invalid VITA49 fullscale: value must be positive and finite.")
    else Success(o.(adcFullscale := x))
  }

  function Epoch(o: OutputConfig, epoch: u64): Result<OutputConfig> {
    if !ValidEpoch(epoch) then
      Failure("Invalid VITA49 epoch: value must fit the VRT 32-bit UTC seconds timestamp field.")
    else Success(o.(epochNanoseconds := Some(epoch)))
  }

  function MaxUdpPayload(o: OutputConfig, bytes: u16): Result<OutputConfig> {
    if !ValidPayload(bytes) then Failure("Invalid VITA49 max UDP payload: value must be between 64 and 65507 bytes.")
    else Success(o.(maxUdpPayload := bytes))
  }

  function QueueDepth(o: OutputConfig, depth: u32): Result<OutputConfig> {
    if depth == 0 then Failure("Invalid VITA49 queue depth: value must be greater than zero.")
    else Success(o.(queueDepth := depth))
  }

  function PacketTrace(o: OutputConfig, enabled: bool): Result<OutputConfig> {
    Success(o.(packetTraceEnabled := enabled))
  }

  /** `validate_vita49_config_for_run`: the first complaint, if any. */
  function RunComplaint(o: OutputConfig): Option<string> {
    if o.mode != Vita49Udp then None
    else if o.host == "" then Some("VITA49 endpoint host must be non-empty.")
    else if o.port == 0 then Some("VITA49 endpoint port must be in the range 1..65535.")
    else if !ValidFullscale(o.adcFullscale) then Some("VITA49 fullscale must be a positive finite value.")
    else if !ValidPayload(o.maxUdpPayload) then Some("VITA49 max UDP payload must be between 64 and 65507 bytes.")
    else if o.queueDepth == 0 then Some("VITA49 queue depth must be greater than zero.")
    else if o.epochNanoseconds.Some? && !ValidEpoch(o.epochNanoseconds.value) then
      Some("VITA49 epoch must fit the VRT 32-bit UTC seconds timestamp field.")
    else None
  }

  /** Holds of the default settings and is kept by every setter. */
  ghost predicate Settled(o: OutputConfig) {
    && ValidPayload(o.maxUdpPayload) && o.queueDepth != 0
    && (o.epochNanoseconds.Some? ==> ValidEpoch(o.epochNanoseconds.value))
    && (o.mode == Vita49Udp ==> o.host != "" && o.port != 0)
    && (o.adcFullscale == Finite(0.0) || ValidFullscale(o.adcFullscale))
  }

  ghost predicate Settles(r: Result<OutputConfig>) {
    r.Success? ==> Settled(r.value)
  }

  lemma EndpointSettles(o: OutputConfig, host: Option<string>, port: u16)
    requires Settled(o)
    ensures Settles(Endpoint(o, host, port))
  {
  }

  lemma FullscaleSettles(o: OutputConfig, x: Double)
    requires Settled(o)
    ensures Settles(Fullscale(o, x))
  {
  }

  lemma EpochSettles(o: OutputConfig, epoch: u64)
    requires Settled(o)
    ensures Settles(Epoch(o, epoch))
  {
  }

  lemma PayloadSettles(o: OutputConfig, bytes: u16)
    requires Settled(o)
    ensures Settles(MaxUdpPayload(o, bytes))
  {
  }

  lemma QueueDepthSettles(o: OutputConfig, depth: u32)
    requires Settled(o)
    ensures Settles(QueueDepth(o, depth))
  {
  }

  lemma SettersKeepSettled(o: OutputConfig, host: Option<string>, port: u16, x: Double, epoch: u64, bytes: u16,
                           depth: u32, trace: bool)
    requires Settled(o)
    ensures Settled(DefaultOutput)
    ensures Settles(Endpoint(o, host, port)) && Settles(Fullscale(o, x)) && Settles(Epoch(o, epoch))
    ensures Settles(MaxUdpPayload(o, bytes)) && Settles(QueueDepth(o, depth)) && Settles(PacketTrace(o, trace))
    ensures Settled(o.(mode := Hdf5))
  {
    hide Endpoint, Fullscale, Epoch, MaxUdpPayload, QueueDepth;
    EndpointSettles(o, host, port);
    FullscaleSettles(o, x);
    EpochSettles(o, epoch);
    PayloadSettles(o, bytes);
    QueueDepthSettles(o, depth);
  }

  /** A setter's settings where it succeeds, and those before it where it fails. */
  function OrElse(r: Result<OutputConfig>, before: OutputConfig): OutputConfig {
    if r.Success? then r.value else before
  }

  // ---------- values the setters accept ----------

  lemma EndpointAccepts(o: OutputConfig, host: string, port: u16)
    requires host != "" && port != 0
    ensures Endpoint(o, Some(host), port) == Success(o.(mode := Vita49Udp, host := host, port := port))
  {
  }

  lemma FullscaleAccepts(o: OutputConfig, x: Double)
    requires ValidFullscale(x)
    ensures Fullscale(o, x) == Success(o.(adcFullscale := x))
  {
  }

  lemma MaxUdpPayloadAccepts(o: OutputConfig, bytes: u16)
    requires ValidPayload(bytes)
    ensures MaxUdpPayload(o, bytes) == Success(o.(maxUdpPayload := bytes))
  {
  }

  lemma QueueDepthAccepts(o: OutputConfig, depth: u32)
    requires depth != 0
    ensures QueueDepth(o, depth) == Success(o.(queueDepth := depth))
  {
  }

  // ---------- any sequence of setter calls ----------

  datatype Call =
    | UseHdf5
    | Enable(host: Option<string>, port: u16)
    | SetFullscale(x: Double)
    | SetEpoch(epoch: u64)
    | SetMaxUdpPayload(bytes: u16)
    | SetQueueDepth(depth: u32)
    | SetPacketTrace(enabled: bool)

  function Outcome(o: OutputConfig, call: Call): Result<OutputConfig> {
    match call
    case UseHdf5 => Success(o.(mode := Hdf5))
    case Enable(host, port) => Endpoint(o, host, port)
    case SetFullscale(x) => Fullscale(o, x)
    case SetEpoch(epoch) => Epoch(o, epoch)
    case SetMaxUdpPayload(bytes) => MaxUdpPayload(o, bytes)
    case SetQueueDepth(depth) => QueueDepth(o, depth)
    case SetPacketTrace(enabled) => PacketTrace(o, enabled)
  }

  /** The settings of a new context after the calls, failed ones having no effect. */
  function AfterCalls(calls: seq<Call>): OutputConfig {
    if calls == [] then DefaultOutput
    else
      var before := AfterCalls(calls[..|calls| - 1]);
      OrElse(Outcome(before, calls[|calls| - 1]), before)
  }

  predicate Enables(call: Call) {
    call.Enable? && call.host.Some? && call.host.value != "" && call.port != 0
  }

  predicate SetsFullscale(call: Call) {
    call.SetFullscale? && ValidFullscale(call.x)
  }

  /** VITA 49 output was enabled and not taken back. */
  ghost predicate Selected(calls: seq<Call>) {
    exists i :: 0 <= i < |calls| && Enables(calls[i]) && UseHdf5 !in calls[i..]
  }

  ghost predicate ScaleSet(calls: seq<Call>) {
    exists i :: 0 <= i < |calls| && SetsFullscale(calls[i])
  }

  lemma SelectedStep(calls: seq<Call>)
    requires calls != []
    ensures var init, last := calls[..|calls| - 1], calls[|calls| - 1];
            Selected(calls) <==> Enables(last) || (last != UseHdf5 && Selected(init))
  {
    var n := |calls| - 1;
    var init, last := calls[..n], calls[n];
    if i :| 0 <= i < |calls| && Enables(calls[i]) && UseHdf5 !in calls[i..] {
      assert last == calls[i..][n - i];
      if i < n {
        assert init[i..] == calls[i..][..n - i] && init[i] == calls[i];
      }
    }
    if Enables(last) {
      assert calls[n..] == [last];
    }
    if i :| 0 <= i < n && last != UseHdf5 && Enables(init[i]) && UseHdf5 !in init[i..] {
      assert calls[i..] == init[i..] + [last] && calls[i] == init[i];
    }
  }

  lemma ScaleSetStep(calls: seq<Call>)
    requires calls != []
    ensures ScaleSet(calls) <==> ScaleSet(calls[..|calls| - 1]) || SetsFullscale(calls[|calls| - 1])
  {
    var init := calls[..|calls| - 1];
    if i :| 0 <= i < |calls| && SetsFullscale(calls[i]) {
      assert i == |init| || init[i] == calls[i];
    }
    if i :| 0 <= i < |init| && SetsFullscale(init[i]) {
      assert calls[i] == init[i];
    }
  }

  lemma OutcomeSettles(o: OutputConfig, call: Call)
    requires Settled(o)
    ensures Settled(OrElse(Outcome(o, call), o))
  {
    hide Settled, Endpoint, Fullscale, Epoch, MaxUdpPayload, QueueDepth;
    match call
    case UseHdf5 =>
      SettersKeepSettled(o, None, 0, NotFinite, 0, 0, 0, false);
    case Enable(host, port) =>
      EndpointSettles(o, host, port);
    case SetFullscale(x) =>
      FullscaleSettles(o, x);
    case SetEpoch(epoch) =>
      EpochSettles(o, epoch);
    case SetMaxUdpPayload(bytes) =>
      PayloadSettles(o, bytes);
    case SetQueueDepth(depth) =>
      QueueDepthSettles(o, depth);
    case SetPacketTrace(enabled) =>
      SettersKeepSettled(o, None, 0, NotFinite, 0, 0, 0, enabled);
  }

  lemma OutcomeFields(o: OutputConfig, call: Call)
    ensures OrElse(Outcome(o, call), o).mode
            == if call.UseHdf5? then Hdf5 else if Enables(call) then Vita49Udp else o.mode
    ensures OrElse(Outcome(o, call), o).adcFullscale == if SetsFullscale(call) then call.x else o.adcFullscale
  {
  }

  /** What any calls leave behind, read off the calls. */
  lemma {:induction false} CallsSettle(calls: seq<Call>)
    ensures Settled(AfterCalls(calls))
    ensures AfterCalls(calls).mode == Vita49Udp <==> Selected(calls)
    ensures AfterCalls(calls).adcFullscale != Finite(0.0) <==> ScaleSet(calls)
  {
    hide Selected, ScaleSet, Outcome, Enables, SetsFullscale, Settled;
    if calls == [] {
      NothingCalled();
    } else {
      var init, last := calls[..|calls| - 1], calls[|calls| - 1];
      CallsSettle(init);
      SelectedStep(calls);
      ScaleSetStep(calls);
      OutcomeSettles(AfterCalls(init), last);
      OutcomeFields(AfterCalls(init), last);
      ValidScaleIsNotZero(last);
      NotBoth(last);
    }
  }

  lemma NothingCalled()
    ensures Settled(DefaultOutput) && !Selected([]) && !ScaleSet([])
  {
  }

  lemma ValidScaleIsNotZero(call: Call)
    ensures SetsFullscale(call) ==> call.SetFullscale? && call.x != Finite(0.0)
  {
  }

  lemma NotBoth(call: Call)
    ensures Enables(call) ==> call != UseHdf5
  {
  }

  // ---------- every setting, read off the calls ----------

  /** The last call of a kind. */
  function LastCall(calls: seq<Call>, which: Call -> bool): Option<Call> {
    if calls == [] then None
    else if which(calls[|calls| - 1]) then Some(calls[|calls| - 1])
    else LastCall(calls[..|calls| - 1], which)
  }

  predicate SetsDepth(call: Call) {
    call.SetQueueDepth? && call.depth > 0
  }

  predicate SetsEpoch(call: Call) {
    call.SetEpoch? && call.epoch / 1_000_000_000 <= 4_294_967_295
  }

  predicate SetsPayload(call: Call) {
    call.SetMaxUdpPayload? && 64 <= call.bytes <= 65507
  }

  predicate SetsTrace(call: Call) {
    call.SetPacketTrace?
  }

  /** The settings that the last successful call of each kind leaves; where there is none, those of a new context. */
  ghost predicate LeftBy(o: OutputConfig, calls: seq<Call>) {
    && (match LastCall(calls, Enables)
        case Some(Enable(Some(host), port)) => o.host == host && o.port == port
        case _ => o.host == "" && o.port == 0)
    && o.adcFullscale == (match LastCall(calls, SetsFullscale) case Some(SetFullscale(x)) => x case _ => Finite(0.0))
    && o.queueDepth == (match LastCall(calls, SetsDepth) case Some(SetQueueDepth(depth)) => depth case _ => 1024)
    && o.epochNanoseconds == (match LastCall(calls, SetsEpoch) case Some(SetEpoch(epoch)) => Some(epoch) case _ => None)
    && o.maxUdpPayload == (match LastCall(calls, SetsPayload) case Some(SetMaxUdpPayload(bytes)) => bytes
                           case _ => 1400)
    && o.packetTraceEnabled == (match LastCall(calls, SetsTrace) case Some(SetPacketTrace(enabled)) => enabled
                                case _ => true)
  }

  lemma LastCallNext(calls: seq<Call>, which: Call -> bool)
    requires calls != []
    ensures var last := calls[|calls| - 1];
            LastCall(calls, which) == if which(last) then Some(last) else LastCall(calls[..|calls| - 1], which)
  {
  }

  lemma EndpointOrElse(o: OutputConfig, host: Option<string>, port: u16)
    ensures OrElse(Endpoint(o, host, port), o)
            == if Enables(Enable(host, port)) then o.(mode := Vita49Udp, host := host.value, port := port) else o
  {
  }

  lemma NumbersOrElse(o: OutputConfig, x: Double, depth: u32, bytes: u16)
    ensures OrElse(Fullscale(o, x), o) == if SetsFullscale(SetFullscale(x)) then o.(adcFullscale := x) else o
    ensures OrElse(QueueDepth(o, depth), o) == if SetsDepth(SetQueueDepth(depth)) then o.(queueDepth := depth) else o
    ensures OrElse(MaxUdpPayload(o, bytes), o)
            == if SetsPayload(SetMaxUdpPayload(bytes)) then o.(maxUdpPayload := bytes) else o
  {
  }

  lemma EpochOrElse(o: OutputConfig, epoch: u64)
    ensures OrElse(Epoch(o, epoch), o)
            == if SetsEpoch(SetEpoch(epoch)) then o.(epochNanoseconds := Some(epoch)) else o
  {
    ValidEpochIff(epoch);
  }

  lemma OutcomeSettings(o: OutputConfig, call: Call)
    ensures var r := OrElse(Outcome(o, call), o);
            && r.host == (if Enables(call) then call.host.value else o.host)
            && r.port == (if Enables(call) then call.port else o.port)
            && r.adcFullscale == (if SetsFullscale(call) then call.x else o.adcFullscale)
            && r.queueDepth == (if SetsDepth(call) then call.depth else o.queueDepth)
            && r.epochNanoseconds == (if SetsEpoch(call) then Some(call.epoch) else o.epochNanoseconds)
            && r.maxUdpPayload == (if SetsPayload(call) then call.bytes else o.maxUdpPayload)
            && r.packetTraceEnabled == (if SetsTrace(call) then call.enabled else o.packetTraceEnabled)
  {
    hide Endpoint, Fullscale, Epoch, MaxUdpPayload, QueueDepth, ValidFullscale;
    match call
    case UseHdf5 =>
    case Enable(host, port) => EndpointOrElse(o, host, port);
    case SetFullscale(x) => NumbersOrElse(o, x, 0, 0);
    case SetEpoch(epoch) => EpochOrElse(o, epoch);
    case SetMaxUdpPayload(bytes) => NumbersOrElse(o, NotFinite, 0, bytes);
    case SetQueueDepth(depth) => NumbersOrElse(o, NotFinite, depth, 0);
    case SetPacketTrace(_) =>
  }

  lemma LeftByNext(o: OutputConfig, calls: seq<Call>)
    requires calls != [] && LeftBy(o, calls[..|calls| - 1])
    ensures LeftBy(OrElse(Outcome(o, calls[|calls| - 1]), o), calls)
  {
    hide LastCall, Outcome, ValidFullscale;
    OutcomeSettings(o, calls[|calls| - 1]);
    LastCallNext(calls, Enables);
    LastCallNext(calls, SetsFullscale);
    LastCallNext(calls, SetsDepth);
    LastCallNext(calls, SetsEpoch);
    LastCallNext(calls, SetsPayload);
    LastCallNext(calls, SetsTrace);
  }

  lemma {:induction false} CallsLeave(calls: seq<Call>)
    ensures LeftBy(AfterCalls(calls), calls)
  {
    hide LeftBy, Outcome;
    if calls == [] {
      NothingLeft();
    } else {
      CallsLeave(calls[..|calls| - 1]);
      LeftByNext(AfterCalls(calls[..|calls| - 1]), calls);
    }
  }

  lemma NothingLeft()
    ensures LeftBy(DefaultOutput, [])
  {
  }

  /** Whatever setters have been called, in whatever order and with whatever values, a run is refused exactly when
      VITA 49 output stands enabled and no call ever set a valid full scale. */
  lemma RunnableIff(calls: seq<Call>)
    ensures RunComplaint(AfterCalls(calls)) == None <==> !Selected(calls) || ScaleSet(calls)
  {
    hide Selected, ScaleSet, AfterCalls;
    CallsSettle(calls);
    SettledRuns(AfterCalls(calls));
  }

  lemma SettledRuns(o: OutputConfig)
    requires Settled(o)
    ensures RunComplaint(o) == None <==> o.mode == Hdf5 || o.adcFullscale != Finite(0.0)
  {
  }

  /** For any settings: the check passes exactly when output is not VITA 49 or every field is within its limits. */
  lemma ComplaintIff(o: OutputConfig)
    ensures RunComplaint(o) == None
            <==> o.mode == Hdf5
                 || (o.host != "" && o.port > 0 && o.adcFullscale.Finite? && o.adcFullscale.value > 0.0
                     && 64 <= o.maxUdpPayload <= 65507 && o.queueDepth > 0
                     && (o.epochNanoseconds.Some? ==> o.epochNanoseconds.value / 1_000_000_000 <= 4_294_967_295))
  {
    if o.epochNanoseconds.Some? {
      ValidEpochIff(o.epochNanoseconds.value);
    }
  }

  // ---------- the context ----------

  class FersContext {
    var output: OutputConfig
    var lastError: string

    constructor ()
      ensures output == DefaultOutput && lastError == "" && Settled(output)
    {
      output, lastError := DefaultOutput, "";
    }

    /** What a setter does with its outcome: success replaces the settings, failure leaves them
        and records the error. */
    ghost predicate Did(code: int, before: OutputConfig, r: Result<OutputConfig>)
      reads this
    {
      match r
      case Success(o) => code == 0 && output == o && lastError == ""
      case Failure(e) => code != 0 && output == before && lastError == e
    }

    method UseHdf5Output() returns (code: int)
      modifies this
      ensures Did(code, old(output), Success(old(output).(mode := Hdf5)))
    {
      lastError := "";
      output := output.(mode := Hdf5);
      code := 0;
    }

    method EnableVita49UdpOutput(host: Option<string>, port: u16) returns (code: int)
      modifies this
      ensures Did(code, old(output), Endpoint(old(output), host, port))
    {
      lastError := "";
      if host.None? {
        lastError := "Invalid VITA49 endpoint: host is NULL.";
        return -1;
      }
      if host.value == "" {
        lastError := "Invalid VITA49 endpoint: host must be non-empty.";
        return 1;
      }
      if port == 0 {
        lastError := "Invalid VITA49 endpoint: port must be in the range 1..65535.";
        return 1;
      }
      output := output.(mode := Vita49Udp, host := host.value, port := port);
      code := 0;
    }

    method SetVita49Fullscale(x: Double) returns (code: int)
      modifies this
      ensures Did(code, old(output), Fullscale(old(output), x))
    {
      lastError := "";
      if !ValidFullscale(x) {
        lastError := "Invalid VITA49 fullscale: value must be positive and finite.";
        return 1;
      }
      output := output.(adcFullscale := x);
      code := 0;
    }

    method SetVita49Epoch(epoch: u64) returns (code: int)
      modifies this
      ensures Did(code, old(output), Epoch(old(output), epoch))
    {
      lastError := "";
      if !ValidEpoch(epoch) {
        lastError := "Invalid VITA49 epoch: value must fit the VRT 32-bit UTC seconds timestamp field.";
        return 1;
      }
      output := output.(epochNanoseconds := Some(epoch));
      code := 0;
    }

    method SetVita49MaxUdpPayload(bytes: u16) returns (code: int)
      modifies this
      ensures Did(code, old(output), MaxUdpPayload(old(output), bytes))
    {
      lastError := "";
      if !ValidPayload(bytes) {
        lastError := "Invalid VITA49 max UDP payload: value must be between 64 and 65507 bytes.";
        return 1;
      }
      output := output.(maxUdpPayload := bytes);
      code := 0;
    }

    method SetVita49QueueDepth(depth: u32) returns (code: int)
      modifies this
      ensures Did(code, old(output), QueueDepth(old(output), depth))
    {
      lastError := "";
      if depth == 0 {
        lastError := "Invalid VITA49 queue depth: value must be greater than zero.";
        return 1;
      }
      output := output.(queueDepth := depth);
      code := 0;
    }

    method SetVita49PacketTraceEnabled(enabled: bool) returns (code: int)
      modifies this
      ensures Did(code, old(output), PacketTrace(old(output), enabled))
    {
      lastError := "";
      output := output.(packetTraceEnabled := enabled);
      code := 0;
    }
  }
}
