/** `parseArguments` of the command-line program and the setters it leads to. */
module VitaCli {
  import opened Wrappers
  import opened VitaOutput
  import Decimal
  import Shell

  datatype Config = Config(
    scriptFile: Option<string>,
    vitaEnabled: bool, host: string, port: u16,
    fullscale: Option<Double>, epoch: Option<u64>, maxUdpPayload: Option<u16>, queueDepth: Option<u32>)

  const EmptyConfig := Config(None, false, "", 0, None, None, None, None)

  /** What the code calls and this model does not show: `std::stod`, giving the value and the number of
      characters consumed, and the handlers of the options that do not concern VITA output. */
  datatype Env = Env(stod: string -> Option<(Double, nat)>, otherAccepted: string -> bool)

  // ---------- values ----------

  function ParseUnsigned64(value: string, field: string): Result<u64> {
    if value == "" || !Decimal.AllDigits(value) then Failure(field + " must be an unsigned decimal integer")
    else
      var v := Decimal.Value(value);
      if v >= 0x1_0000_0000_0000_0000 then Failure(field + " is out of range") else Success(v)
  }

  function ParsePositiveReal(env: Env, value: string, field: string): Result<Double> {
    match env.stod(value)
    case None => Failure(field + " must be a positive real number")
    case Some(parsed) =>
      if parsed.1 != |value| || !ValidFullscale(parsed.0) then Failure(field + " must be a positive real number")
      else Success(parsed.0)
  }

  /** `rfind(':')`. */
  function LastColon(s: string): (r: Option<nat>)
    ensures r.Some? ==> r.value < |s| && s[r.value] == ':' && ':' !in s[r.value + 1..]
    ensures r.None? ==> ':' !in s
  {
    if s == "" then None
    else if s[|s| - 1] == ':' then Some(|s| - 1)
    else
      var r := LastColon(s[..|s| - 1]);
      assert r.Some? ==> s[r.value + 1..] == s[..|s| - 1][r.value + 1..] + [s[|s| - 1]];
      r
  }

  const ENDPOINT_ERROR: string := "Invalid VITA49 endpoint: expected host:port"

  function HandleEndpoint(value: string, c: Config): Result<Config> {
    var separator := LastColon(value);
    if separator.None? || separator.value == 0 || separator.value + 1 == |value| then Failure(ENDPOINT_ERROR)
    else if ':' in value[..separator.value] then Failure(ENDPOINT_ERROR)
    else
      var port :- ParseUnsigned64(value[separator.value + 1..], "VITA49 port");
      if port == 0 || port > 65535 then Failure("VITA49 port must be in the range 1..65535")
      else Success(c.(vitaEnabled := true, host := value[..separator.value], port := port))
  }

  function HandleFullscale(env: Env, value: string, c: Config): Result<Config> {
    var x :- ParsePositiveReal(env, value, "VITA49 fullscale");
    Success(c.(fullscale := Some(x)))
  }

  function HandleEpoch(value: string, c: Config): Result<Config> {
    var epoch :- ParseUnsigned64(value, "VITA49 epoch");
    if epoch > MAX_VRT_EPOCH then Failure("VITA49 epoch must fit the VRT 32-bit UTC seconds timestamp field")
    else Success(c.(epoch := Some(epoch)))
  }

  function HandleMaxUdpPayload(value: string, c: Config): Result<Config> {
    var bytes :- ParseUnsigned64(value, "VITA49 max UDP payload");
    if bytes < 64 || bytes > 65507 then Failure("VITA49 max UDP payload must be between 64 and 65507 bytes")
    else Success(c.(maxUdpPayload := Some(bytes)))
  }

  function HandleQueueDepth(value: string, c: Config): Result<Config> {
    var depth :- ParseUnsigned64(value, "VITA49 queue depth");
    if depth == 0 || depth > 0xffff_ffff then Failure("VITA49 queue depth must be in the range 1..4294967295")
    else Success(c.(queueDepth := Some(depth)))
  }

  predicate TakesValue(arg: string) {
    arg in {"--vita49", "--vita49-fullscale", "--vita49-epoch", "--vita49-max-udp-payload", "--vita49-queue-depth"}
  }

  function HandleValue(env: Env, arg: string, value: string, c: Config): Result<Config>
    requires TakesValue(arg)
  {
    if arg == "--vita49" then HandleEndpoint(value, c)
    else if arg == "--vita49-fullscale" then HandleFullscale(env, value, c)
    else if arg == "--vita49-epoch" then HandleEpoch(value, c)
    else if arg == "--vita49-max-udp-payload" then HandleMaxUdpPayload(value, c)
    else HandleQueueDepth(value, c)
  }

  /** Options without a separate value, and the script file; an empty argument can be the script file. */
  function HandleArgument(env: Env, arg: string, c: Config): Result<Config> {
    if arg == "--help" || arg == "-h" then Failure("Help requested.")
    else if arg == "--version" || arg == "-v" then Failure("Version requested.")
    else if "--log-level=" <= arg || "--log-file=" <= arg || "--rt-engine=" <= arg || "-n=" <= arg then
      if env.otherAccepted(arg) then Success(c) else Failure("Invalid value: " + arg)
    else if "--out-dir=" <= arg || arg == "--no-validate" || arg == "--kml" || "--kml=" <= arg then Success(c)
    else if (arg == "" || arg[0] != '-') && c.scriptFile.None? then Success(c.(scriptFile := Some(arg)))
    else Failure("Unrecognized argument: " + arg)
  }

  function OptionsComplaint(c: Config): Option<string> {
    if !c.vitaEnabled then
      if c.fullscale.Some? then Some("--vita49-fullscale requires --vita49")
      else if c.epoch.Some? then Some("--vita49-epoch requires --vita49")
      else if c.maxUdpPayload.Some? then Some("--vita49-max-udp-payload requires --vita49")
      else if c.queueDepth.Some? then Some("--vita49-queue-depth requires --vita49")
      else None
    else if c.fullscale.None? then Some("--vita49-fullscale is required when --vita49 is used")
    else None
  }

  /** The options in `args` applied in turn. */
  function ReadArguments(env: Env, args: seq<string>, c: Config): Result<Config>
    decreases |args|
  {
    if args == [] then Success(c)
    else if TakesValue(args[0]) then
      if |args| == 1 then Failure(args[0] + " requires a value")
      else
        var next :- HandleValue(env, args[0], args[1], c);
        ReadArguments(env, args[2..], next)
    else
      var next :- HandleArgument(env, args[0], c);
      ReadArguments(env, args[1..], next)
  }

  function ParsedArguments(env: Env, argv: seq<string>): Result<Config> {
    if |argv| < 2 then Failure("No arguments provided.")
    else
      var c :- ReadArguments(env, argv[1..], EmptyConfig);
      if c.scriptFile.None? then Failure("No script file provided.")
      else if OptionsComplaint(c).Some? then Failure(OptionsComplaint(c).value)
      else Success(c)
  }

  /** The loop with its advancing index; every access stays below the number of arguments. */
  method ParseArguments(env: Env, argv: seq<string>) returns (r: Result<Config>)
    ensures r == ParsedArguments(env, argv)
  {
    hide HandleValue, HandleArgument;
    if |argv| < 2 {
      return Failure("No arguments provided.");
    }
    var config := EmptyConfig;
    var i := 1;
    while i < |argv|
      invariant 1 <= i <= |argv|
      invariant ReadArguments(env, argv[1..], EmptyConfig) == ReadArguments(env, argv[i..], config)
    {
      var arg := argv[i];
      assert argv[i..][0] == arg && argv[i..][1..] == argv[i + 1..];
      if TakesValue(arg) {
        if i + 1 >= |argv| {
          return Failure(arg + " requires a value");
        }
        i := i + 1;
        assert argv[i - 1..][1] == argv[i] && argv[i - 1..][2..] == argv[i + 1..];
        config :- HandleValue(env, arg, argv[i], config);
      } else {
        config :- HandleArgument(env, arg, config);
      }
      i := i + 1;
    }
    assert argv[|argv|..] == [];
    if config.scriptFile.None? {
      return Failure("No script file provided.");
    }
    var complaint := OptionsComplaint(config);
    if complaint.Some? {
      return Failure(complaint.value);
    }
    r := Success(config);
  }

  // ---------- the setters ----------

  function Optionally<T>(o: OutputConfig, value: Option<T>, setter: (OutputConfig, T) -> Result<OutputConfig>)
    : Result<OutputConfig>
  {
    if value.Some? then setter(o, value.value) else Success(o)
  }

  /** `configureVita49Output`: stops at the first setter that fails. */
  function Configured(c: Config, o: OutputConfig): Result<OutputConfig> {
    if !c.vitaEnabled then Success(o)
    else if c.fullscale.None? then Failure("Failed to configure VITA49 fullscale: missing required fullscale.")
    else
      var o1 :- Endpoint(o, Some(Shell.CString(c.host)), c.port);
      var o2 :- Fullscale(o1, c.fullscale.value);
      var o3 :- Optionally(o2, c.epoch, Epoch);
      var o4 :- Optionally(o3, c.maxUdpPayload, MaxUdpPayload);
      Optionally(o4, c.queueDepth, QueueDepth)
  }

  /** The settings left behind: those of the setters before the first that failed. */
  function Reached(c: Config, o: OutputConfig): OutputConfig {
    if !c.vitaEnabled || c.fullscale.None? then o
    else
      var o1 := Endpoint(o, Some(Shell.CString(c.host)), c.port);
      if o1.Failure? then o
      else
        var o2 := Fullscale(o1.value, c.fullscale.value);
        if o2.Failure? then o1.value
        else
          var o3 := Optionally(o2.value, c.epoch, Epoch);
          if o3.Failure? then o2.value
          else
            var o4 := Optionally(o3.value, c.maxUdpPayload, MaxUdpPayload);
            if o4.Failure? then o3.value else OrElse(Optionally(o4.value, c.queueDepth, QueueDepth), o4.value)
  }

  method ConfigureVita49Output(c: Config, context: FersContext) returns (code: int)
    modifies context
    ensures code == 0 <==> Configured(c, old(context.output)).Success?
    ensures code == 0 ==> Configured(c, old(context.output)) == Success(context.output)
    ensures context.output == Reached(c, old(context.output))
  {
    hide Endpoint, Fullscale, Epoch, MaxUdpPayload, QueueDepth;
    if !c.vitaEnabled {
      return 0;
    }
    if c.fullscale.None? {
      return 1;
    }
    code := context.EnableVita49UdpOutput(Some(Shell.CString(c.host)), c.port);
    if code != 0 {
      return 1;
    }
    code := context.SetVita49Fullscale(c.fullscale.value);
    if code != 0 {
      return 1;
    }
    if c.epoch.Some? {
      code := context.SetVita49Epoch(c.epoch.value);
      if code != 0 {
        return 1;
      }
    }
    if c.maxUdpPayload.Some? {
      code := context.SetVita49MaxUdpPayload(c.maxUdpPayload.value);
      if code != 0 {
        return 1;
      }
    }
    if c.queueDepth.Some? {
      code := context.SetVita49QueueDepth(c.queueDepth.value);
      if code != 0 {
        return 1;
      }
    }
    code := 0;
  }

  // ---------- what parsing guarantees ----------

  ghost predicate Sound(c: Config) {
    && (c.vitaEnabled ==> c.host != "" && ':' !in c.host && Shell.NulFree(c.host) && c.port != 0)
    && (c.fullscale.Some? ==> ValidFullscale(c.fullscale.value))
    && (c.epoch.Some? ==> ValidEpoch(c.epoch.value))
    && (c.maxUdpPayload.Some? ==> ValidPayload(c.maxUdpPayload.value))
    && (c.queueDepth.Some? ==> c.queueDepth.value != 0)
  }

  lemma EndpointKeepsSound(value: string, c: Config)
    requires Sound(c) && Shell.NulFree(value) && HandleEndpoint(value, c).Success?
    ensures Sound(HandleEndpoint(value, c).value)
  {
    hide Decimal.Value;
  }

  lemma FullscaleKeepsSound(env: Env, value: string, c: Config)
    requires Sound(c) && HandleFullscale(env, value, c).Success?
    ensures Sound(HandleFullscale(env, value, c).value)
  {
  }

  lemma EpochKeepsSound(value: string, c: Config)
    requires Sound(c)
    ensures HandleEpoch(value, c).Success? ==> Sound(HandleEpoch(value, c).value)
  {
    hide Decimal.Value;
  }

  lemma SizesKeepSound(value: string, c: Config)
    requires Sound(c)
    ensures HandleMaxUdpPayload(value, c).Success? ==> Sound(HandleMaxUdpPayload(value, c).value)
    ensures HandleQueueDepth(value, c).Success? ==> Sound(HandleQueueDepth(value, c).value)
  {
    hide Decimal.Value;
  }

  lemma HandleValueKeepsSound(env: Env, arg: string, value: string, c: Config)
    requires Sound(c) && TakesValue(arg) && Shell.NulFree(value) && HandleValue(env, arg, value, c).Success?
    ensures Sound(HandleValue(env, arg, value, c).value)
  {
    hide HandleEndpoint, HandleFullscale, HandleEpoch, HandleMaxUdpPayload, HandleQueueDepth, TakesValue, Shell.NulFree;
    hide Sound;
    if arg == "--vita49" {
      EndpointKeepsSound(value, c);
    } else if arg == "--vita49-fullscale" {
      FullscaleKeepsSound(env, value, c);
    } else {
      EpochKeepsSound(value, c);
      SizesKeepSound(value, c);
    }
  }

  lemma {:induction false} ReadArgumentsKeepsSound(env: Env, args: seq<string>, c: Config)
    requires Sound(c) && (forall i :: 0 <= i < |args| ==> Shell.NulFree(args[i]))
    requires ReadArguments(env, args, c).Success?
    ensures Sound(ReadArguments(env, args, c).value)
    decreases |args|
  {
    hide HandleValue, Shell.NulFree;
    if args != [] {
      if TakesValue(args[0]) {
        HandleValueKeepsSound(env, args[0], args[1], c);
        ReadArgumentsKeepsSound(env, args[2..], HandleValue(env, args[0], args[1], c).value);
      } else {
        ReadArgumentsKeepsSound(env, args[1..], HandleArgument(env, args[0], c).value);
      }
    }
  }

  /** Every argument vector accepted with VITA output enabled passes all setters and the check before the run,
      in any context; the settings then are the parsed ones, and the context's own where an option was not given.
      (Arguments of a program never hold a NUL.) */
  lemma AcceptedArgumentsRun(env: Env, argv: seq<string>, o: OutputConfig)
    requires forall i :: 0 <= i < |argv| ==> Shell.NulFree(argv[i])
    requires ParsedArguments(env, argv).Success? && ParsedArguments(env, argv).value.vitaEnabled && Settled(o)
    ensures var c := ParsedArguments(env, argv).value;
            && c.fullscale.Some?
            && Configured(c, o) == Success(OutputConfig(Vita49Udp, c.host, c.port, c.fullscale.value,
                                                        if c.queueDepth.Some? then c.queueDepth.value else o.queueDepth,
                                                        if c.epoch.Some? then c.epoch else o.epochNanoseconds,
                                                        if c.maxUdpPayload.Some? then c.maxUdpPayload.value
                                                        else o.maxUdpPayload,
                                                        o.packetTraceEnabled))
            && RunComplaint(Configured(c, o).value) == None
  {
    hide ReadArguments;
    ReadArgumentsKeepsSound(env, argv[1..], EmptyConfig);
    Shell.CStringOfWhole(ParsedArguments(env, argv).value.host);
  }

  // ---------- the configuration read off the arguments ----------

  /** The text last given for each option, and the script file. */
  datatype Given = Given(endpoint: Option<string>, fullscale: Option<string>, epoch: Option<string>,
                         payload: Option<string>, depth: Option<string>, script: Option<string>)

  const NothingGiven := Given(None, None, None, None, None, None)

  predicate IsScript(arg: string) {
    arg == "" || arg[0] != '-'
  }

  function GivenIn(args: seq<string>, g: Given): Given
    decreases |args|
  {
    if args == [] then g
    else if |args| > 1 && args[0] == "--vita49" then GivenIn(args[2..], g.(endpoint := Some(args[1])))
    else if |args| > 1 && args[0] == "--vita49-fullscale" then GivenIn(args[2..], g.(fullscale := Some(args[1])))
    else if |args| > 1 && args[0] == "--vita49-epoch" then GivenIn(args[2..], g.(epoch := Some(args[1])))
    else if |args| > 1 && args[0] == "--vita49-max-udp-payload" then GivenIn(args[2..], g.(payload := Some(args[1])))
    else if |args| > 1 && args[0] == "--vita49-queue-depth" then GivenIn(args[2..], g.(depth := Some(args[1])))
    else GivenIn(args[1..], if IsScript(args[0]) then g.(script := Some(args[0])) else g)
  }

  /** `value` is the number that `text` writes in decimal digits. */
  predicate Writes(text: Option<string>, value: Option<int>) {
    match text
    case None => value == None
    case Some(t) => t != "" && Decimal.AllDigits(t) && value == Some(Decimal.Value(t))
  }

  /** The configuration says what was given. */
  ghost predicate Says(env: Env, c: Config, g: Given) {
    && c.scriptFile == g.script
    && (c.vitaEnabled <==> g.endpoint.Some?) && (g.endpoint.None? ==> c.host == "" && c.port == 0)
    && (g.endpoint.Some? ==>
          exists port :: g.endpoint.value == c.host + ":" + port && c.host != "" && ':' !in c.host
                         && Writes(Some(port), Some(c.port)))
    && (c.fullscale.Some? <==> g.fullscale.Some?)
    && (c.fullscale.Some? ==> env.stod(g.fullscale.value) == Some((c.fullscale.value, |g.fullscale.value|)))
    && Writes(g.epoch, c.epoch) && Writes(g.payload, c.maxUdpPayload) && Writes(g.depth, c.queueDepth)
  }

  lemma EndpointSaid(env: Env, value: string, c: Config, g: Given)
    requires Says(env, c, g) && HandleEndpoint(value, c).Success?
    ensures Says(env, HandleEndpoint(value, c).value, g.(endpoint := Some(value)))
  {
    hide Decimal.Value;
    var separator := LastColon(value).value;
    var port := value[separator + 1..];
    assert value == value[..separator] + ":" + port;
    assert Writes(Some(port), Some(HandleEndpoint(value, c).value.port));
  }

  lemma NumberWritten(value: string, field: string)
    ensures ParseUnsigned64(value, field).Success? ==> Writes(Some(value), Some(ParseUnsigned64(value, field).value))
  {
    hide Decimal.Value;
  }

  lemma NumberSaid(env: Env, value: string, c: Config, g: Given)
    requires Says(env, c, g)
    ensures HandleEpoch(value, c).Success? ==> Says(env, HandleEpoch(value, c).value, g.(epoch := Some(value)))
    ensures HandleMaxUdpPayload(value, c).Success? ==>
              Says(env, HandleMaxUdpPayload(value, c).value, g.(payload := Some(value)))
    ensures HandleQueueDepth(value, c).Success? ==>
              Says(env, HandleQueueDepth(value, c).value, g.(depth := Some(value)))
  {
    hide ParseUnsigned64, Writes;
    NumberWritten(value, "VITA49 epoch");
    NumberWritten(value, "VITA49 max UDP payload");
    NumberWritten(value, "VITA49 queue depth");
  }

  lemma FullscaleSaid(env: Env, value: string, c: Config, g: Given)
    requires Says(env, c, g)
    ensures HandleFullscale(env, value, c).Success? ==>
              Says(env, HandleFullscale(env, value, c).value, g.(fullscale := Some(value)))
  {
    hide Decimal.Value, Writes;
  }

  lemma ArgumentSaid(env: Env, arg: string, c: Config, g: Given)
    requires Says(env, c, g) && HandleArgument(env, arg, c).Success?
    ensures Says(env, HandleArgument(env, arg, c).value, if IsScript(arg) then g.(script := Some(arg)) else g)
  {
    hide Decimal.Value, Writes;
  }

  lemma {:induction false} ArgumentsSaid(env: Env, args: seq<string>, c: Config, g: Given)
    requires Says(env, c, g) && ReadArguments(env, args, c).Success?
    ensures Says(env, ReadArguments(env, args, c).value, GivenIn(args, g))
    decreases |args|
  {
    hide Says, HandleEndpoint, HandleFullscale, HandleEpoch, HandleMaxUdpPayload, HandleQueueDepth, HandleArgument;
    hide IsScript;
    if args != [] {
      if TakesValue(args[0]) {
        var value, next := args[1], HandleValue(env, args[0], args[1], c).value;
        if args[0] == "--vita49" {
          EndpointSaid(env, value, c, g);
          ArgumentsSaid(env, args[2..], next, g.(endpoint := Some(value)));
        } else if args[0] == "--vita49-fullscale" {
          FullscaleSaid(env, value, c, g);
          ArgumentsSaid(env, args[2..], next, g.(fullscale := Some(value)));
        } else {
          NumberSaid(env, value, c, g);
          ArgumentsSaid(env, args[2..], next,
                        if args[0] == "--vita49-epoch" then g.(epoch := Some(value))
                        else if args[0] == "--vita49-max-udp-payload" then g.(payload := Some(value))
                        else g.(depth := Some(value)));
        }
      } else {
        ArgumentSaid(env, args[0], c, g);
        ArgumentsSaid(env, args[1..], HandleArgument(env, args[0], c).value,
                      if IsScript(args[0]) then g.(script := Some(args[0])) else g);
      }
    }
  }

  /** What is accepted says what was given, the last value of each option counting. Arguments that can be read one by
      one are accepted exactly when there is a script file and VITA options come with both an endpoint and a
      full scale or not at all. */
  lemma ArgumentsMean(env: Env, argv: seq<string>)
    requires |argv| > 1 && ReadArguments(env, argv[1..], EmptyConfig).Success?
    ensures var g := GivenIn(argv[1..], NothingGiven);
            && (ParsedArguments(env, argv).Success?
                <==> && g.script.Some?
                     && (if g.endpoint.Some? then g.fullscale.Some?
                         else g.fullscale == g.epoch == g.payload == g.depth == None))
            && (ParsedArguments(env, argv).Success? ==> Says(env, ParsedArguments(env, argv).value, g))
  {
    hide ReadArguments, Decimal.Value, GivenIn;
    ArgumentsSaid(env, argv[1..], EmptyConfig, NothingGiven);
  }

  /** The arguments without a separate value that are accepted: a script file when there is none yet, an option of the
      program's own with a value its handler accepts, and the options that need none. */
  lemma ArgumentAcceptedIff(env: Env, arg: string, c: Config)
    ensures HandleArgument(env, arg, c).Success? <==>
            || (IsScript(arg) && c.scriptFile.None?)
            || (("--log-level=" <= arg || "--log-file=" <= arg || "--rt-engine=" <= arg || "-n=" <= arg)
                && env.otherAccepted(arg))
            || "--out-dir=" <= arg || "--kml=" <= arg || arg in ["--no-validate", "--kml"]
    ensures !IsScript(arg) && HandleArgument(env, arg, c).Success? ==> HandleArgument(env, arg, c).value == c
  {
    if arg == "--help" || arg == "-h" || arg == "--version" || arg == "-v" {
      assert arg[0] == '-' && arg[1] in ['-', 'h', 'v'] && (arg[1] == '-' ==> arg[2] in ['h', 'v']);
      assert "-n="[1] == 'n' && "--kml="[2] == 'k' && "--kml"[2] == 'k' && "--no-validate"[2] == 'n';
      assert !("--log-level=" <= arg) && !("--log-file=" <= arg) && !("--rt-engine=" <= arg) && !("-n=" <= arg);
      assert !("--out-dir=" <= arg) && !("--kml=" <= arg) && arg != "--no-validate" && arg != "--kml";
    }
  }

  /** A second script file is refused. */
  lemma SecondScriptIsRefused(env: Env, arg: string, c: Config)
    requires IsScript(arg) && c.scriptFile.Some?
    ensures HandleArgument(env, arg, c).Failure?
  {
  }

  lemma NumberReadIff(value: string, field: string)
    ensures var r := ParseUnsigned64(value, field);
            && (r.Success?
                <==> value != "" && Decimal.AllDigits(value) && Decimal.Value(value) < 0x1_0000_0000_0000_0000)
            && (r.Success? ==> r.value == Decimal.Value(value))
  {
    hide Decimal.Value;
  }

  /** The other values are accepted exactly within their limits. */
  lemma ValuesAcceptedIff(env: Env, value: string, c: Config)
    ensures HandleMaxUdpPayload(value, c).Success? <==>
            value != "" && Decimal.AllDigits(value) && 64 <= Decimal.Value(value) <= 65507
    ensures HandleQueueDepth(value, c).Success? <==>
            value != "" && Decimal.AllDigits(value) && 1 <= Decimal.Value(value) < 0x1_0000_0000
    ensures HandleFullscale(env, value, c).Success? <==>
            match env.stod(value) case None => false case Some(p) => p.1 == |value| && p.0.Finite? && p.0.value > 0.0
  {
    NumberReadIff(value, "VITA49 max UDP payload");
    NumberReadIff(value, "VITA49 queue depth");
    hide Decimal.Value, ParseUnsigned64;
  }

  lemma EndpointAcceptedIff(value: string, c: Config)
    ensures HandleEndpoint(value, c).Success? <==>
            exists host, port :: value == host + ":" + port && host != "" && ':' !in host
                                 && port != "" && Decimal.AllDigits(port) && 1 <= Decimal.Value(port) <= 65535
  {
    hide Decimal.Value, LastColon;
    if HandleEndpoint(value, c).Success? {
      var at := LastColon(value).value;
      assert value == value[..at] + ":" + value[at + 1..];
    }
    forall host, port | value == host + ":" + port && host != "" && ':' !in host
                        && port != "" && Decimal.AllDigits(port) && 1 <= Decimal.Value(port) <= 65535
      ensures HandleEndpoint(value, c).Success?
    {
      NoColonInDigits(port);
      LastColonIs(host, port);
      assert value[..|host|] == host && value[|host| + 1..] == port;
    }
  }

  lemma NoColonInDigits(digits: string)
    requires Decimal.AllDigits(digits)
    ensures ':' !in digits
  {
    forall i | 0 <= i < |digits|
      ensures digits[i] != ':'
    {
      assert Decimal.IsDigit(digits[i]);
    }
  }

  /** The command line accepts an epoch exactly when it is decimal text whose whole seconds fit 32 bits. */
  lemma EpochAcceptedIff(value: string, c: Config)
    ensures HandleEpoch(value, c).Success? <==>
            value != "" && Decimal.AllDigits(value) && Decimal.Value(value) / NANOSECONDS_PER_SECOND < 0x1_0000_0000
  {
    hide Decimal.Value;
  }

  lemma {:induction false} LastColonIs(a: string, b: string)
    requires ':' !in b
    ensures LastColon(a + ":" + b) == Some(|a|)
  {
    var s := a + ":" + b;
    if b != "" {
      assert s[..|s| - 1] == a + ":" + b[..|b| - 1];
      LastColonIs(a, b[..|b| - 1]);
    }
  }

  /** Every host without a colon and every port from 1 to 65535 can be given as HOST:PORT. */
  lemma EndpointRoundTrip(host: string, port: nat, c: Config)
    requires host != "" && ':' !in host && 1 <= port <= 65535
    ensures HandleEndpoint(host + ":" + Decimal.Print(port), c)
            == Success(c.(vitaEnabled := true, host := host, port := port))
  {
    hide Decimal.Value, Decimal.Print, LastColon;
    var digits := Decimal.Print(port);
    var value := host + ":" + digits;
    Decimal.ValueOfPrint(port);
    NoColonInDigits(digits);
    LastColonIs(host, digits);
    assert value[..|host|] == host && value[|host| + 1..] == digits;
  }

  lemma NumberRead(n: nat, field: string)
    requires n < 0x1_0000_0000_0000_0000
    ensures ParseUnsigned64(Decimal.Print(n), field) == Success(n)
  {
    hide Decimal.Value, Decimal.Print;
    Decimal.ValueOfPrint(n);
  }

  lemma OptionRead(env: Env, arg: string, value: string, rest: seq<string>, c: Config)
    requires TakesValue(arg) && HandleValue(env, arg, value, c).Success?
    ensures ReadArguments(env, [arg, value] + rest, c)
            == ReadArguments(env, rest, HandleValue(env, arg, value, c).value)
  {
    hide HandleValue, HandleArgument, TakesValue;
    var args := [arg, value] + rest;
    assert args[0] == arg && args[1] == value && args[2..] == rest;
  }

  lemma ScriptRead(env: Env, script: string, rest: seq<string>, c: Config)
    requires (script == "" || script[0] != '-') && c.scriptFile.None?
    ensures ReadArguments(env, [script] + rest, c) == ReadArguments(env, rest, c.(scriptFile := Some(script)))
  {
    var args := [script] + rest;
    assert args[0] == script && args[1..] == rest;
    assert !TakesValue(script);
    assert HandleArgument(env, script, c) == Success(c.(scriptFile := Some(script)));
    hide HandleArgument, TakesValue;
  }

  lemma OptionsHandled(env: Env, host: string, port: nat, scale: string, x: Double, c: Config)
    requires host != "" && ':' !in host && 1 <= port <= 65535
    requires env.stod(scale) == Some((x, |scale|)) && ValidFullscale(x)
    ensures HandleValue(env, "--vita49", host + ":" + Decimal.Print(port), c)
            == Success(c.(vitaEnabled := true, host := host, port := port))
    ensures HandleValue(env, "--vita49-fullscale", scale, c) == Success(c.(fullscale := Some(x)))
  {
    hide HandleEndpoint, Decimal.Print, ParseUnsigned64;
    EndpointRoundTrip(host, port, c);
  }

  lemma SizesHandled(env: Env, epoch: nat, payload: nat, depth: nat, c: Config)
    requires epoch <= MAX_VRT_EPOCH && 64 <= payload <= 65507 && 1 <= depth <= 0xffff_ffff
    ensures HandleValue(env, "--vita49-epoch", Decimal.Print(epoch), c) == Success(c.(epoch := Some(epoch)))
    ensures HandleValue(env, "--vita49-max-udp-payload", Decimal.Print(payload), c)
            == Success(c.(maxUdpPayload := Some(payload)))
    ensures HandleValue(env, "--vita49-queue-depth", Decimal.Print(depth), c) == Success(c.(queueDepth := Some(depth)))
  {
    hide Decimal.Print, ParseUnsigned64;
    NumberRead(epoch, "VITA49 epoch");
    NumberRead(payload, "VITA49 max UDP payload");
    NumberRead(depth, "VITA49 queue depth");
  }

  /** Every script name that is not an option and every choice of settings within their limits can be given,
      and is read as exactly those settings. */
  lemma OptionsRoundTrip(env: Env, program: string, script: string, host: string, port: nat, scale: string, x: Double,
                         epoch: nat, payload: nat, depth: nat)
    requires script == "" || script[0] != '-'
    requires host != "" && ':' !in host && 1 <= port <= 65535
    requires env.stod(scale) == Some((x, |scale|)) && ValidFullscale(x)
    requires epoch <= MAX_VRT_EPOCH && 64 <= payload <= 65507 && 1 <= depth <= 0xffff_ffff
    ensures ParsedArguments(env, [program, script, "--vita49", host + ":" + Decimal.Print(port),
                                  "--vita49-fullscale", scale, "--vita49-epoch", Decimal.Print(epoch),
                                  "--vita49-max-udp-payload", Decimal.Print(payload),
                                  "--vita49-queue-depth", Decimal.Print(depth)])
            == Success(Config(Some(script), true, host, port, Some(x), Some(epoch), Some(payload), Some(depth)))
  {
    hide Decimal.Print, HandleValue, HandleArgument, ReadArguments;
    var argv := [program, script, "--vita49", host + ":" + Decimal.Print(port), "--vita49-fullscale", scale,
                 "--vita49-epoch", Decimal.Print(epoch), "--vita49-max-udp-payload", Decimal.Print(payload),
                 "--vita49-queue-depth", Decimal.Print(depth)];
    var r3 := LastOptions(epoch, payload, depth);
    var r2 := ["--vita49-fullscale", scale] + r3;
    var r1 := ["--vita49", host + ":" + Decimal.Print(port)] + r2;
    var c0 := EmptyConfig.(scriptFile := Some(script));
    var c1 := c0.(vitaEnabled := true, host := host, port := port);
    var c2 := c1.(fullscale := Some(x));
    assert argv[1..] == [script] + r1;
    hide LastOptions;
    ScriptRead(env, script, r1, EmptyConfig);
    OptionsHandled(env, host, port, scale, x, c0);
    OptionRead(env, "--vita49", host + ":" + Decimal.Print(port), r2, c0);
    OptionsHandled(env, host, port, scale, x, c1);
    OptionRead(env, "--vita49-fullscale", scale, r3, c1);
    LastOptionsRead(env, epoch, payload, depth, c2);
  }

  function LastOptions(epoch: nat, payload: nat, depth: nat): seq<string> {
    ["--vita49-epoch", Decimal.Print(epoch)]
    + (["--vita49-max-udp-payload", Decimal.Print(payload)] + (["--vita49-queue-depth", Decimal.Print(depth)] + []))
  }

  lemma LastOptionsRead(env: Env, epoch: nat, payload: nat, depth: nat, c: Config)
    requires epoch <= MAX_VRT_EPOCH && 64 <= payload <= 65507 && 1 <= depth <= 0xffff_ffff
    ensures ReadArguments(env, LastOptions(epoch, payload, depth), c)
            == Success(c.(epoch := Some(epoch), maxUdpPayload := Some(payload), queueDepth := Some(depth)))
  {
    hide Decimal.Print, HandleValue, HandleArgument, ReadArguments;
    var r5 := ["--vita49-queue-depth", Decimal.Print(depth)] + [];
    var r4 := ["--vita49-max-udp-payload", Decimal.Print(payload)] + r5;
    var c3 := c.(epoch := Some(epoch));
    var c4 := c3.(maxUdpPayload := Some(payload));
    SizesHandled(env, epoch, payload, depth, c);
    OptionRead(env, "--vita49-epoch", Decimal.Print(epoch), r4, c);
    SizesHandled(env, epoch, payload, depth, c3);
    OptionRead(env, "--vita49-max-udp-payload", Decimal.Print(payload), r5, c3);
    SizesHandled(env, epoch, payload, depth, c4);
    OptionRead(env, "--vita49-queue-depth", Decimal.Print(depth), [], c4);
    NothingRead(env, c4.(queueDepth := Some(depth)));
  }

  lemma NothingRead(env: Env, c: Config)
    ensures ReadArguments(env, [], c) == Success(c)
  {
  }
}
