/** The streaming settings of the interface: their validation, their way through the backend's
    deserialisation, and the setters `configure_vita49_stream` calls. */
module VitaUi {
  import opened JavaScript
  import opened Wrappers
  import opened VitaOutput
  import Decimal
  import Shell

  datatype EpochMode = Auto | Fixed

  /** Numbers of the interface are doubles. */
  datatype RuntimeConfig = RuntimeConfig(
    host: string, port: Double, fullscale: Double, epochMode: EpochMode, epochText: string,
    maxUdpPayload: Double, queueDepth: Double, traceEnabled: bool, packetTraceRingSize: Double)

  const MAX_SAFE_INTEGER: int := 9007199254740991

  predicate IntegerInRange(x: Double, low: int, high: int) {
    x.Finite? && x.value.Floor as real == x.value && low as real <= x.value <= high as real
  }

  // ---------- validation ----------

  /** The error messages, by what they complain about. */
  datatype Complaint =
    | HostRequired | BadPort | BadFullscale | BadPayload | BadQueueDepth | BadRingSize | EpochNotInteger | EpochTooLate

  function Check(ok: bool, error: Complaint): seq<Complaint> {
    if ok then [] else [error]
  }

  function EpochErrors(c: RuntimeConfig): seq<Complaint> {
    var text := Trim(c.epochText);
    if c.epochMode != Fixed then []
    else if text == "" || !Decimal.AllDigits(text) then [EpochNotInteger]
    else Check(Decimal.Value(text) <= MAX_VRT_EPOCH, EpochTooLate)
  }

  function FieldErrors(c: RuntimeConfig): seq<Complaint> {
    Check(Trim(c.host) != "", HostRequired)
    + Check(IntegerInRange(c.port, 1, 65535), BadPort)
    + Check(ValidFullscale(c.fullscale), BadFullscale)
    + Check(IntegerInRange(c.maxUdpPayload, 64, 65507), BadPayload)
    + Check(IntegerInRange(c.queueDepth, 1, 4_294_967_295), BadQueueDepth)
    + Check(IntegerInRange(c.packetTraceRingSize, 1, MAX_SAFE_INTEGER), BadRingSize)
  }

  function Errors(c: RuntimeConfig): seq<Complaint> {
    FieldErrors(c) + EpochErrors(c)
  }

  method PushUnless(ok: bool, errors: seq<Complaint>, error: Complaint) returns (all: seq<Complaint>)
    ensures all == errors + Check(ok, error)
  {
    all := errors;
    if !ok {
      all := all + [error];
    }
  }

  method PushFieldErrors(c: RuntimeConfig) returns (errors: seq<Complaint>)
    ensures errors == FieldErrors(c)
  {
    hide Trim, IntegerInRange, ValidFullscale, Check;
    errors := PushUnless(|Trim(c.host)| != 0, [], HostRequired);
    assert errors == Check(Trim(c.host) != "", HostRequired);
    errors := PushUnless(IntegerInRange(c.port, 1, 65535), errors, BadPort);
    errors := PushUnless(ValidFullscale(c.fullscale), errors, BadFullscale);
    errors := PushUnless(IntegerInRange(c.maxUdpPayload, 64, 65507), errors, BadPayload);
    errors := PushUnless(IntegerInRange(c.queueDepth, 1, 4_294_967_295), errors, BadQueueDepth);
    errors := PushUnless(IntegerInRange(c.packetTraceRingSize, 1, MAX_SAFE_INTEGER), errors, BadRingSize);
  }

  /** The pushes of `validateVita49Config`. */
  method ValidateVita49Config(c: RuntimeConfig) returns (errors: seq<Complaint>)
    ensures errors == Errors(c)
  {
    hide Decimal.Value, Trim, FieldErrors;
    errors := PushFieldErrors(c);
    if c.epochMode == Fixed {
      var text := Trim(c.epochText);
      if text == "" || !Decimal.AllDigits(text) {
        errors := errors + [EpochNotInteger];
      } else {
        errors := PushUnless(Decimal.Value(text) <= MAX_VRT_EPOCH, errors, EpochTooLate);
      }
    }
  }

  // ---------- the way to the backend ----------

  /** `toVita49BackendConfig`, which throws on errors. */
  datatype BackendConfig = BackendConfig(
    host: string, port: Double, fullscale: Double, epochText: Option<string>,
    maxUdpPayload: Double, queueDepth: Double, traceEnabled: bool, packetTraceRingSize: Double)

  function ToBackend(c: RuntimeConfig): Result<BackendConfig> {
    if Errors(c) != [] then Failure("invalid settings")
    else
      Success(BackendConfig(Trim(c.host), c.port, c.fullscale,
                            if c.epochMode == Fixed then Some(Trim(c.epochText)) else None,
                            c.maxUdpPayload, c.queueDepth, c.traceEnabled, c.packetTraceRingSize))
  }

  type usize = u64

  datatype StreamConfig = StreamConfig(
    host: string, port: u16, fullscale: Double, epochText: Option<string>,
    maxUdpPayload: u16, queueDepth: u32, traceEnabled: bool, packetTraceRingSize: usize)

  /** JSON has no NaN or infinity, and an unsigned field takes only integers in its range. */
  function Received(b: BackendConfig): Result<StreamConfig> {
    if !IntegerInRange(b.port, 0, 0xffff) || !IntegerInRange(b.maxUdpPayload, 0, 0xffff)
       || !IntegerInRange(b.queueDepth, 0, 0xffff_ffff)
       || !IntegerInRange(b.packetTraceRingSize, 0, 0xffff_ffff_ffff_ffff)
       || !b.fullscale.Finite?
    then Failure("invalid value")
    else
      Success(StreamConfig(b.host, b.port.value.Floor, b.fullscale, b.epochText, b.maxUdpPayload.value.Floor,
                           b.queueDepth.value.Floor, b.traceEnabled, b.packetTraceRingSize.value.Floor))
  }

  /** `str::parse::<u64>`: an optional plus sign and at least one digit. */
  function ParseU64(s: string): Option<u64> {
    var digits := if s != "" && s[0] == '+' then s[1..] else s;
    if digits == "" || !Decimal.AllDigits(digits) || Decimal.Value(digits) >= 0x1_0000_0000_0000_0000 then None
    else Some(Decimal.Value(digits))
  }

  function ConfiguredEpoch(o: OutputConfig, text: Option<string>): Result<OutputConfig> {
    if text.None? then Success(o)
    else
      match ParseU64(text.value)
      case None => Failure("Invalid VITA49 epoch")
      case Some(epoch) => Epoch(o, epoch)
  }

  /** `configure_vita49_stream`: stops at the first error. `CString::new` refuses a NUL. */
  function Configured(s: StreamConfig, o: OutputConfig): Result<OutputConfig> {
    if !Shell.NulFree(s.host) then Failure("nul byte found in provided data")
    else
      var o1 :- Endpoint(o, Some(s.host), s.port);
      var o2 :- Fullscale(o1, s.fullscale);
      var o3 :- ConfiguredEpoch(o2, s.epochText);
      var o4 :- MaxUdpPayload(o3, s.maxUdpPayload);
      var o5 :- QueueDepth(o4, s.queueDepth);
      PacketTrace(o5, s.traceEnabled)
  }

  /** The settings left behind: those of the setters before the first that failed. */
  function Reached(s: StreamConfig, o: OutputConfig): OutputConfig {
    if !Shell.NulFree(s.host) then o
    else
      var o1 := Endpoint(o, Some(s.host), s.port);
      if o1.Failure? then o
      else
        var o2 := Fullscale(o1.value, s.fullscale);
        if o2.Failure? then o1.value
        else
          var o3 := ConfiguredEpoch(o2.value, s.epochText);
          if o3.Failure? then o2.value
          else
            var o4 := MaxUdpPayload(o3.value, s.maxUdpPayload);
            if o4.Failure? then o3.value
            else
              var o5 := QueueDepth(o4.value, s.queueDepth);
              if o5.Failure? then o4.value else OrElse(PacketTrace(o5.value, s.traceEnabled), o5.value)
  }

  method ConfigureVita49Stream(s: StreamConfig, context: FersContext) returns (ok: bool)
    modifies context
    ensures ok <==> Configured(s, old(context.output)).Success?
    ensures ok ==> Configured(s, old(context.output)) == Success(context.output)
    ensures context.output == Reached(s, old(context.output))
  {
    hide Decimal.Value, ParseU64, Endpoint, Fullscale, Epoch, MaxUdpPayload, QueueDepth, PacketTrace;
    if Shell.NUL in s.host {
      return false;
    }
    var code := context.EnableVita49UdpOutput(Some(s.host), s.port);
    if code != 0 {
      return false;
    }
    code := context.SetVita49Fullscale(s.fullscale);
    if code != 0 {
      return false;
    }
    if s.epochText.Some? {
      var parsed := ParseU64(s.epochText.value);
      if parsed.None? {
        return false;
      }
      code := context.SetVita49Epoch(parsed.value);
      if code != 0 {
        return false;
      }
    }
    code := context.SetVita49MaxUdpPayload(s.maxUdpPayload);
    if code != 0 {
      return false;
    }
    code := context.SetVita49QueueDepth(s.queueDepth);
    if code != 0 {
      return false;
    }
    code := context.SetVita49PacketTraceEnabled(s.traceEnabled);
    ok := code == 0;
  }

  // ---------- acceptance ----------

  lemma {:induction false} NoErrorsMeans(c: RuntimeConfig)
    ensures Errors(c) == [] <==>
            && Trim(c.host) != "" && IntegerInRange(c.port, 1, 65535) && ValidFullscale(c.fullscale)
            && IntegerInRange(c.maxUdpPayload, 64, 65507) && IntegerInRange(c.queueDepth, 1, 4_294_967_295)
            && IntegerInRange(c.packetTraceRingSize, 1, MAX_SAFE_INTEGER)
            && (c.epochMode == Fixed ==>
                  var text := Trim(c.epochText);
                  text != "" && Decimal.AllDigits(text) && Decimal.Value(text) / NANOSECONDS_PER_SECOND < 0x1_0000_0000)
  {
    hide Decimal.Value, Trim, IntegerInRange;
  }

  function Place(e: Complaint): nat {
    match e
    case HostRequired => 0
    case BadPort => 1
    case BadFullscale => 2
    case BadPayload => 3
    case BadQueueDepth => 4
    case BadRingSize => 5
    case EpochNotInteger => 6
    case EpochTooLate => 7
  }

  /** In the order of the fields, none twice, all of fields before the given place. */
  ghost predicate InOrder(errors: seq<Complaint>, below: nat) {
    && (forall i, j :: 0 <= i < j < |errors| ==> Place(errors[i]) < Place(errors[j]))
    && (forall e :: e in errors ==> Place(e) < below)
  }

  lemma OneMoreCheck(errors: seq<Complaint>, ok: bool, error: Complaint)
    requires InOrder(errors, Place(error))
    ensures InOrder(errors + Check(ok, error), Place(error) + 1)
    ensures forall e :: e in errors + Check(ok, error) <==> e in errors || (!ok && e == error)
  {
    hide Place;
  }

  lemma FieldErrorsAre(c: RuntimeConfig)
    ensures InOrder(FieldErrors(c), 6)
    ensures forall e :: e in FieldErrors(c) <==>
              match e
              case HostRequired => Trim(c.host) == ""
              case BadPort => !IntegerInRange(c.port, 1, 65535)
              case BadFullscale => !ValidFullscale(c.fullscale)
              case BadPayload => !IntegerInRange(c.maxUdpPayload, 64, 65507)
              case BadQueueDepth => !IntegerInRange(c.queueDepth, 1, 4_294_967_295)
              case BadRingSize => !IntegerInRange(c.packetTraceRingSize, 1, 9_007_199_254_740_991)
              case _ => false
  {
    hide Trim, IntegerInRange, ValidFullscale, InOrder, Check;
    var e0: seq<Complaint> := [];
    NoErrorsInOrder();
    var e1 := e0 + Check(Trim(c.host) != "", HostRequired);
    OneMoreCheck(e0, Trim(c.host) != "", HostRequired);
    var e2 := e1 + Check(IntegerInRange(c.port, 1, 65535), BadPort);
    OneMoreCheck(e1, IntegerInRange(c.port, 1, 65535), BadPort);
    var e3 := e2 + Check(ValidFullscale(c.fullscale), BadFullscale);
    OneMoreCheck(e2, ValidFullscale(c.fullscale), BadFullscale);
    var e4 := e3 + Check(IntegerInRange(c.maxUdpPayload, 64, 65507), BadPayload);
    OneMoreCheck(e3, IntegerInRange(c.maxUdpPayload, 64, 65507), BadPayload);
    var e5 := e4 + Check(IntegerInRange(c.queueDepth, 1, 4_294_967_295), BadQueueDepth);
    OneMoreCheck(e4, IntegerInRange(c.queueDepth, 1, 4_294_967_295), BadQueueDepth);
    OneMoreCheck(e5, IntegerInRange(c.packetTraceRingSize, 1, MAX_SAFE_INTEGER), BadRingSize);
    assert e1 == Check(Trim(c.host) != "", HostRequired);
  }

  lemma NoErrorsInOrder()
    ensures InOrder([], 0)
  {
  }

  /** Each complaint is made exactly when it applies, once, and in the order of the fields. */
  lemma ErrorsAre(c: RuntimeConfig)
    ensures InOrder(Errors(c), 8)
    ensures forall e :: e in Errors(c) <==>
              var text := Trim(c.epochText);
              match e
              case HostRequired => Trim(c.host) == ""
              case BadPort => !IntegerInRange(c.port, 1, 65535)
              case BadFullscale => !ValidFullscale(c.fullscale)
              case BadPayload => !IntegerInRange(c.maxUdpPayload, 64, 65507)
              case BadQueueDepth => !IntegerInRange(c.queueDepth, 1, 4_294_967_295)
              case BadRingSize => !IntegerInRange(c.packetTraceRingSize, 1, 9_007_199_254_740_991)
              case EpochNotInteger => c.epochMode == Fixed && (text == "" || !Decimal.AllDigits(text))
              case EpochTooLate =>
                c.epochMode == Fixed && text != "" && Decimal.AllDigits(text)
                && Decimal.Value(text) / NANOSECONDS_PER_SECOND >= 0x1_0000_0000
  {
    FieldErrorsAre(c);
    hide Decimal.Value, Trim, IntegerInRange, ValidFullscale, FieldErrors;
  }

  lemma IntegerBounds(x: Double, low: int, high: int, wideLow: int, wideHigh: int)
    requires IntegerInRange(x, low, high) && wideLow <= low && high <= wideHigh
    ensures IntegerInRange(x, wideLow, wideHigh) && low <= x.value.Floor <= high
  {
  }

  /** Settings the interface accepts always reach the backend whole. */
  lemma AcceptedIsReceived(c: RuntimeConfig)
    requires Errors(c) == []
    ensures ToBackend(c).Success? && Received(ToBackend(c).value).Success?
    ensures var s := Received(ToBackend(c).value).value;
            && s.host == Trim(c.host) != "" && s.fullscale == c.fullscale && s.traceEnabled == c.traceEnabled
            && s.port as real == c.port.value && 1 <= s.port
            && s.maxUdpPayload as real == c.maxUdpPayload.value && ValidPayload(s.maxUdpPayload)
            && s.queueDepth as real == c.queueDepth.value && 1 <= s.queueDepth
            && s.packetTraceRingSize as real == c.packetTraceRingSize.value && 1 <= s.packetTraceRingSize
            && s.epochText == if c.epochMode == Fixed then Some(Trim(c.epochText)) else None
  {
    NoErrorsMeans(c);
    hide Decimal.Value, Trim, Errors;
    IntegerBounds(c.port, 1, 65535, 0, 0xffff);
    IntegerBounds(c.maxUdpPayload, 64, 65507, 0, 0xffff);
    IntegerBounds(c.queueDepth, 1, 4_294_967_295, 0, 0xffff_ffff);
    IntegerBounds(c.packetTraceRingSize, 1, MAX_SAFE_INTEGER, 0, 0xffff_ffff_ffff_ffff);
  }

  lemma EpochTextSets(o: OutputConfig, text: string)
    requires text != "" && Decimal.AllDigits(text) && Decimal.Value(text) / NANOSECONDS_PER_SECOND < 0x1_0000_0000
    ensures ConfiguredEpoch(o, Some(text)) == Success(o.(epochNanoseconds := Some(Decimal.Value(text))))
  {
    hide Decimal.Value;
    assert Decimal.IsDigit(text[0]);
  }

  /** Settings the interface accepts pass every setter and the check before the run if and only if the host
      holds no NUL character, which the interface does not look for. In automatic mode the
      epoch stays whatever it was set to before. */
  lemma AcceptedRunsIff(c: RuntimeConfig, o: OutputConfig)
    requires Errors(c) == [] && Settled(o)
    ensures ToBackend(c).Success? && Received(ToBackend(c).value).Success?
    ensures var s := Received(ToBackend(c).value).value;
            var r := Configured(s, o);
            && (r.Success? <==> Shell.NulFree(Trim(c.host)))
            && (r.Success? ==>
                  && RunComplaint(r.value) == None && Settled(r.value)
                  && r.value == OutputConfig(Vita49Udp, Trim(c.host), s.port, c.fullscale, s.queueDepth,
                                             if c.epochMode == Fixed then Some(Decimal.Value(Trim(c.epochText)))
                                             else o.epochNanoseconds,
                                             s.maxUdpPayload, c.traceEnabled))
  {
    AcceptedIsReceived(c);
    NoErrorsMeans(c);
    hide Decimal.Value, Trim, Errors, Received, IntegerInRange, RunComplaint, Settled, Shell.NulFree;
    var s := Received(ToBackend(c).value).value;
    StreamConfigured(s, o, if c.epochMode == Fixed then Some(Decimal.Value(Trim(c.epochText))) else None);
  }

  /** What a received configuration within its limits does to the settings. */
  lemma StreamConfigured(s: StreamConfig, o: OutputConfig, epoch: Option<u64>)
    requires s.host != "" && s.port != 0 && ValidFullscale(s.fullscale) && ValidPayload(s.maxUdpPayload)
    requires s.queueDepth != 0
    requires match s.epochText
             case None => epoch == None
             case Some(text) => text != "" && Decimal.AllDigits(text) && epoch == Some(Decimal.Value(text))
                                && Decimal.Value(text) / NANOSECONDS_PER_SECOND < 0x1_0000_0000
    requires Settled(o)
    ensures var r := Configured(s, o);
            && (r.Success? <==> Shell.NulFree(s.host))
            && (r.Success? ==>
                  && RunComplaint(r.value) == None && Settled(r.value)
                  && r.value == OutputConfig(Vita49Udp, s.host, s.port, s.fullscale, s.queueDepth,
                                             if epoch.Some? then epoch else o.epochNanoseconds, s.maxUdpPayload,
                                             s.traceEnabled))
  {
    hide Decimal.Value, Endpoint, Fullscale, ConfiguredEpoch, MaxUdpPayload, QueueDepth, Shell.NulFree, RunComplaint;
    var o1 := o.(mode := Vita49Udp, host := s.host, port := s.port);
    var o2 := o1.(adcFullscale := s.fullscale);
    var o3 := if epoch.Some? then o2.(epochNanoseconds := epoch) else o2;
    EndpointAccepts(o, s.host, s.port);
    FullscaleAccepts(o1, s.fullscale);
    if s.epochText.Some? {
      EpochTextSets(o2, s.epochText.value);
    } else {
      NoEpochText(o2);
    }
    MaxUdpPayloadAccepts(o3, s.maxUdpPayload);
    QueueDepthAccepts(o3.(maxUdpPayload := s.maxUdpPayload), s.queueDepth);
    SettledRuns(o3.(maxUdpPayload := s.maxUdpPayload, queueDepth := s.queueDepth,
                    packetTraceEnabled := s.traceEnabled));
  }

  lemma NoEpochText(o: OutputConfig)
    ensures ConfiguredEpoch(o, None) == Success(o)
  {
  }

  /** A host the interface accepts and the backend refuses. */
  lemma NulHostIsRefused(c: RuntimeConfig, o: OutputConfig)
    requires c == RuntimeConfig("a" + [Shell.NUL] + "b", Finite(4991.0), Finite(1.0), Auto, "", Finite(1400.0),
                                Finite(1024.0), true, Finite(500.0))
    ensures Errors(c) == [] && ToBackend(c).Success? && Received(ToBackend(c).value).Success?
    ensures Configured(Received(ToBackend(c).value).value, o).Failure?
  {
    assert c.host[0] == 'a' && c.host[1] == Shell.NUL && c.host[2] == 'b';
    assert Trim(c.host) == c.host;
    NoErrorsMeans(c);
    AcceptedIsReceived(c);
  }
}
