/** The command line of the oversampling audit: parsing, the launch of child suites,
    and the matrix of launches. */
module OversamplingCli {
  import opened Wrappers
  import opened TextPrinters
  import Decimal
  import Shell

  datatype CommandType = Suite | All | Matrix

  datatype CliOptions = CliOptions(
    command: CommandType, suite: string,
    ratio: nat, filterLength: nat, seed: nat,
    ratios: seq<nat>, filterLengths: seq<nat>,
    outputDir: string, executablePath: string)

  const DefaultOptions := CliOptions(All, "all", 4, 33, 42, [1, 2, 4, 8], [8, 33],
                                     "verification/oversampling/output", "")

  // ---------- parseCli ----------

  function Unsigned(s: string): Result<nat> {
    match ParseUnsigned(s)
    case None => Failure("stoul")
    case Some(v) => Success(v)
  }

  /** What an option and its value do to the options; the error of an unknown option is the caller's. */
  function SetOption(o: CliOptions, name: string, value: string): Result<CliOptions> {
    if name == "--ratio" then
      var v :- Unsigned(value);
      Success(o.(ratio := v))
    else if name == "--filter-length" then
      var v :- Unsigned(value);
      Success(o.(filterLength := v))
    else if name == "--seed" then
      var v :- Unsigned(value);
      Success(o.(seed := v))
    else if name == "--output-dir" then Success(o.(outputDir := value))
    else if name == "--ratios" then
      var vs :- UnsignedList(value);
      Success(o.(ratios := vs))
    else if name == "--filter-lengths" then
      var vs :- UnsignedList(value);
      Success(o.(filterLengths := vs))
    else Failure("Unknown or incomplete option: " + name)
  }

  /** The options after reading `args` two by two; a last option without its value is refused. */
  function SetOptions(o: CliOptions, args: seq<string>): Result<CliOptions>
    decreases |args|
  {
    if args == [] then Success(o)
    else if |args| == 1 then Failure("Unknown or incomplete option: " + args[0])
    else
      var next :- SetOption(o, args[0], args[1]);
      SetOptions(next, args[2..])
  }

  /** `absolute` is `fs::absolute`, which depends on the working directory. */
  function ReadCommand(argv: seq<string>, absolute: string -> string): Result<CliOptions>
    requires argv != []
  {
    var o := DefaultOptions.(executablePath := absolute(argv[0]));
    if |argv| < 2 then Success(o)
    else if argv[1] == "suite" then
      if |argv| < 3 then Failure("suite command requires a suite name")
      else Success(o.(command := Suite, suite := argv[2]))
    else if argv[1] == "matrix" then Success(o.(command := Matrix))
    else if argv[1] == "all" then Success(o.(command := All))
    else Failure("Unknown command: " + argv[1])
  }

  function FirstOption(o: CliOptions, argc: nat): nat {
    var start := if o.command == Suite then 3 else 2;
    if start <= argc then start else argc
  }

  function Parsed(argv: seq<string>, absolute: string -> string): Result<CliOptions>
    requires argv != []
  {
    var o :- ReadCommand(argv, absolute);
    SetOptions(o, argv[FirstOption(o, |argv|)..])
  }

  method ParseCli(argv: seq<string>, absolute: string -> string) returns (r: Result<CliOptions>)
    requires argv != []
    ensures r == Parsed(argv, absolute)
  {
    hide SetOption, Unsigned;
    var options := DefaultOptions.(executablePath := absolute(argv[0]));
    if |argv| >= 2 {
      var command := argv[1];
      if command == "suite" {
        options := options.(command := Suite);
        if |argv| < 3 {
          return Failure("suite command requires a suite name");
        }
        options := options.(suite := argv[2]);
      } else if command == "matrix" {
        options := options.(command := Matrix);
      } else if command == "all" {
        options := options.(command := All);
      } else {
        return Failure("Unknown command: " + command);
      }
    }
    assert ReadCommand(argv, absolute) == Success(options);
    var i := if options.command == Suite then 3 else 2;
    ghost var start := options;
    if i > |argv| {
      assert argv[|argv|..] == [];
      return Success(options);
    }
    ghost var first := i;
    while i < |argv|
      invariant first <= i <= |argv|
      invariant SetOptions(start, argv[first..]) == SetOptions(options, argv[i..])
    {
      var arg := argv[i];
      assert argv[i..][0] == arg;
      if i + 1 < |argv| {
        assert argv[i..][1] == argv[i + 1] && argv[i..][2..] == argv[i + 2..];
        options :- SetOption(options, arg, argv[i + 1]);
        i := i + 2;
      } else {
        return Failure("Unknown or incomplete option: " + arg);
      }
    }
    assert argv[|argv|..] == [];
    r := Success(options);
  }

  // ---------- what the command line can say ----------

  datatype Setting =
    | Ratio(value: nat)
    | FilterLength(value: nat)
    | Seed(value: nat)
    | OutputDir(dir: string)
    | Ratios(values: seq<nat>)
    | FilterLengths(values: seq<nat>)

  /** The two words that say it. */
  function WordsOf(s: Setting): seq<string> {
    match s
    case Ratio(v) => ["--ratio", Decimal.Print(v)]
    case FilterLength(v) => ["--filter-length", Decimal.Print(v)]
    case Seed(v) => ["--seed", Decimal.Print(v)]
    case OutputDir(d) => ["--output-dir", d]
    case Ratios(vs) => ["--ratios", Joined(vs)]
    case FilterLengths(vs) => ["--filter-lengths", Joined(vs)]
  }

  function AllWords(settings: seq<Setting>): seq<string> {
    if settings == [] then [] else WordsOf(settings[0]) + AllWords(settings[1..])
  }

  ghost predicate Sayable(s: Setting) {
    match s
    case OutputDir(_) => true
    case Ratios(vs) => vs != [] && AllUnsigned(vs)
    case FilterLengths(vs) => vs != [] && AllUnsigned(vs)
    case _ => s.value < TWO_TO_32
  }

  function Apply(o: CliOptions, s: Setting): CliOptions {
    match s
    case Ratio(v) => o.(ratio := v)
    case FilterLength(v) => o.(filterLength := v)
    case Seed(v) => o.(seed := v)
    case OutputDir(d) => o.(outputDir := d)
    case Ratios(vs) => o.(ratios := vs)
    case FilterLengths(vs) => o.(filterLengths := vs)
  }

  function ApplyAll(o: CliOptions, settings: seq<Setting>): CliOptions
    decreases |settings|
  {
    if settings == [] then o else ApplyAll(Apply(o, settings[0]), settings[1..])
  }

  lemma SettingIsRead(o: CliOptions, s: Setting)
    requires Sayable(s)
    ensures SetOption(o, WordsOf(s)[0], WordsOf(s)[1]) == Success(Apply(o, s))
  {
    hide ParseUnsigned, Decimal.Print, Joined, UnsignedList;
    match s
    case OutputDir(_) =>
    case Ratios(vs) => ListRoundTrip(vs);
    case FilterLengths(vs) => ListRoundTrip(vs);
    case _ => ParseUnsignedOfPrint(s.value);
  }

  lemma {:induction false} SettingsAreRead(o: CliOptions, settings: seq<Setting>)
    requires forall i :: 0 <= i < |settings| ==> Sayable(settings[i])
    ensures SetOptions(o, AllWords(settings)) == Success(ApplyAll(o, settings))
    decreases |settings|
  {
    hide SetOption, WordsOf, Apply, Sayable;
    if settings != [] {
      var words, rest := WordsOf(settings[0]), AllWords(settings[1..]);
      TwoWords(settings[0]);
      SettingIsRead(o, settings[0]);
      assert (words + rest)[2..] == rest && (words + rest)[0] == words[0] && (words + rest)[1] == words[1];
      SettingsAreRead(Apply(o, settings[0]), settings[1..]);
    }
  }

  lemma TwoWords(s: Setting)
    ensures |WordsOf(s)| == 2
  {
    hide Decimal.Print, Joined;
  }

  /** A command line that names a command and any settings, in any order and with repetitions, is read as that command
      with those settings, the last of each kind counting, over the defaults. */
  lemma CommandLineRoundTrip(path: string, command: CommandType, suite: string, settings: seq<Setting>,
                             absolute: string -> string)
    requires forall i :: 0 <= i < |settings| ==> Sayable(settings[i])
    ensures var words := match command case Suite => ["suite", suite] case Matrix => ["matrix"] case All => ["all"];
            Parsed([path] + words + AllWords(settings), absolute)
            == Success(ApplyAll(
                 CliOptions(command, if command == Suite then suite else "all", 4, 33, 42, [1, 2, 4, 8], [8, 33],
                            "verification/oversampling/output", absolute(path)), settings))
  {
    hide SetOptions, AllWords, ApplyAll, Sayable;
    var words := match command case Suite => ["suite", suite] case Matrix => ["matrix"] case All => ["all"];
    var argv := [path] + words + AllWords(settings);
    var o := ReadCommand(argv, absolute).value;
    assert argv[0] == path && argv[1] == words[0] && (command == Suite ==> argv[2] == suite);
    assert argv[FirstOption(o, |argv|)..] == AllWords(settings);
    SettingsAreRead(o, settings);
  }

  /** A known option with a value that can be read. */
  predicate Readable(name: string, value: string) {
    || name == "--output-dir"
    || (name in ["--ratio", "--filter-length", "--seed"] && Stoul(value).Some?)
    || (name in ["--ratios", "--filter-lengths"] && UnsignedList(value).Success?)
  }

  lemma {:induction false} OptionsReadIff(o: CliOptions, args: seq<string>)
    ensures SetOptions(o, args).Success?
            <==> |args| % 2 == 0 && forall i :: 0 <= i < |args| / 2 ==> Readable(args[2 * i], args[2 * i + 1])
    decreases |args|
  {
    hide Stoul, UnsignedList;
    if |args| >= 2 {
      var rest := args[2..];
      OptionReadIff(o, args[0], args[1]);
      hide Readable, SetOption;
      if SetOption(o, args[0], args[1]).Success? {
        OptionsReadIff(SetOption(o, args[0], args[1]).value, rest);
      }
      PairsSplit(args);
    }
  }

  lemma OptionReadIff(o: CliOptions, name: string, value: string)
    ensures SetOption(o, name, value).Success? <==> Readable(name, value)
  {
    hide Stoul, UnsignedList;
  }

  lemma PairsSplit(args: seq<string>)
    requires |args| >= 2
    ensures (forall i :: 0 <= i < |args| / 2 ==> Readable(args[2 * i], args[2 * i + 1]))
            <==> Readable(args[0], args[1])
                 && forall i :: 0 <= i < |args[2..]| / 2 ==> Readable(args[2..][2 * i], args[2..][2 * i + 1])
  {
    hide Readable;
    var rest := args[2..];
    if forall i :: 0 <= i < |args| / 2 ==> Readable(args[2 * i], args[2 * i + 1]) {
      assert Readable(args[2 * 0], args[2 * 0 + 1]);
      forall i | 0 <= i < |rest| / 2
        ensures Readable(rest[2 * i], rest[2 * i + 1])
      {
        assert Readable(args[2 * (i + 1)], args[2 * (i + 1) + 1]);
      }
    }
    if Readable(args[0], args[1]) && forall i :: 0 <= i < |rest| / 2 ==> Readable(rest[2 * i], rest[2 * i + 1]) {
      forall i | 0 <= i < |args| / 2
        ensures Readable(args[2 * i], args[2 * i + 1])
      {
        if i > 0 {
          assert Readable(rest[2 * (i - 1)], rest[2 * (i - 1) + 1]);
        }
      }
    }
  }

  /** A command line is accepted exactly when its command, if any, is one of the three, a suite is named, and the rest
      is known options in pairs with values that can be read. */
  lemma AcceptedIff(argv: seq<string>, absolute: string -> string)
    requires argv != []
    ensures var args := if |argv| < 2 then [] else if argv[1] == "suite" && |argv| > 2 then argv[3..] else argv[2..];
            Parsed(argv, absolute).Success?
            <==> && (|argv| > 1 ==> argv[1] in ["suite", "matrix", "all"])
                 && (|argv| > 1 && argv[1] == "suite" ==> |argv| > 2)
                 && |args| % 2 == 0
                 && forall i :: 0 <= i < |args| / 2 ==> Readable(args[2 * i], args[2 * i + 1])
  {
    hide SetOptions, Readable;
    var read := ReadCommand(argv, absolute);
    if read.Success? {
      OptionsReadIff(read.value, argv[FirstOption(read.value, |argv|)..]);
    }
  }

  /** Every number in options that were read fits 32 bits. */
  ghost predicate Unsigneds(o: CliOptions) {
    && o.ratio < TWO_TO_32 && o.filterLength < TWO_TO_32 && o.seed < TWO_TO_32
    && AllUnsigned(o.ratios) && AllUnsigned(o.filterLengths)
  }

  lemma {:induction false} ListIsUnsigned(s: string)
    requires ListValues(s).Some?
    ensures AllUnsigned(ListValues(s).value)
    decreases |s|
  {
    hide Stoul;
    if s != "" {
      var k := IndexOf(s, ',');
      ListIsUnsigned(if k < |s| then s[k + 1..] else "");
    }
  }

  lemma SetOptionIsUnsigned(o: CliOptions, name: string, value: string)
    requires Unsigneds(o) && SetOption(o, name, value).Success?
    ensures Unsigneds(SetOption(o, name, value).value)
  {
    hide Stoul, ListValues;
    if name in {"--ratios", "--filter-lengths"} {
      ListIsUnsigned(value);
    }
  }

  lemma {:induction false} SetOptionsAreUnsigned(o: CliOptions, args: seq<string>)
    requires Unsigneds(o) && SetOptions(o, args).Success?
    ensures Unsigneds(SetOptions(o, args).value)
    decreases |args|
  {
    hide SetOption, Unsigneds;
    if args != [] {
      SetOptionIsUnsigned(o, args[0], args[1]);
      SetOptionsAreUnsigned(SetOption(o, args[0], args[1]).value, args[2..]);
    }
  }

  lemma ParsedIsUnsigned(argv: seq<string>, absolute: string -> string)
    requires argv != [] && Parsed(argv, absolute).Success?
    ensures Unsigneds(Parsed(argv, absolute).value)
  {
    hide SetOptions;
    var o := ReadCommand(argv, absolute).value;
    SetOptionsAreUnsigned(o, argv[FirstOption(o, |argv|)..]);
  }

  // ---------- runChildSuite ----------

  datatype Launch = Launch(suite: string, ratio: nat, filterLength: nat, outputDir: string)

  function ChildWords(parent: CliOptions, l: Launch): seq<string> {
    [parent.executablePath, "suite", l.suite,
     "--ratio", Decimal.Print(l.ratio),
     "--filter-length", Decimal.Print(l.filterLength),
     "--seed", Decimal.Print(parent.seed),
     "--output-dir", l.outputDir]
  }

  /** Builds the command handed to `std::system`. */
  method ChildCommand(parent: CliOptions, l: Launch) returns (command: string)
    ensures command == Shell.Command(ChildWords(parent, l))
  {
    hide Shell.Quoted, Decimal.Print;
    var args := ["suite", l.suite, "--ratio", Decimal.Print(l.ratio), "--filter-length", Decimal.Print(l.filterLength),
                 "--seed", Decimal.Print(parent.seed), "--output-dir", l.outputDir];
    command := Shell.ShellQuote(parent.executablePath);
    ghost var words := [parent.executablePath] + args;
    assert words[..1] == [parent.executablePath];
    for i := 0 to |args|
      invariant command == Shell.Command(words[..i + 1])
    {
      var quoted := Shell.ShellQuote(args[i]);
      command := command + " " + quoted;
      assert words[..i + 2][..i + 1] == words[..i + 1] && words[i + 1] == args[i];
    }
    assert words[..|args| + 1] == ChildWords(parent, l);
  }

  function ChildOptions(parent: CliOptions, l: Launch, absolute: string -> string): CliOptions {
    DefaultOptions.(
      command := Suite, executablePath := absolute(parent.executablePath), seed := parent.seed,
      suite := l.suite, ratio := l.ratio, filterLength := l.filterLength, outputDir := l.outputDir)
  }

  lemma ParsedChild(parent: CliOptions, l: Launch, absolute: string -> string)
    requires l.ratio < TWO_TO_32 && l.filterLength < TWO_TO_32 && parent.seed < TWO_TO_32
    ensures Parsed(ChildWords(parent, l), absolute) == Success(ChildOptions(parent, l, absolute))
  {
    hide ParseUnsigned, Decimal.Print;
    var words := ChildWords(parent, l);
    var o0 := ReadCommand(words, absolute).value;
    ParseUnsignedOfPrint(l.ratio);
    ParseUnsignedOfPrint(l.filterLength);
    ParseUnsignedOfPrint(parent.seed);
    var o1 := o0.(ratio := l.ratio);
    var o2 := o1.(filterLength := l.filterLength);
    var o3 := o2.(seed := parent.seed);
    var o4 := o3.(outputDir := l.outputDir);
    calc {
      Parsed(words, absolute);
      SetOptions(o0, words[3..]);
      { assert words[3..][2..] == words[5..]; }
      SetOptions(o1, words[5..]);
      { assert words[5..][2..] == words[7..]; }
      SetOptions(o2, words[7..]);
      { assert words[7..][2..] == words[9..]; }
      SetOptions(o3, words[9..]);
      { assert words[9..][2..] == []; }
      SetOptions(o4, []);
    }
  }

  /** What the child reads from the command line its parent built: exactly the suite, ratio, filter
      length, seed and output directory the parent chose, whatever characters the names hold,
      as long as none is a NUL; with a NUL the shell finds an unterminated quotation. */
  lemma ChildLaunchRoundTrip(parent: CliOptions, l: Launch, absolute: string -> string)
    requires l.ratio < TWO_TO_32 && l.filterLength < TWO_TO_32 && parent.seed < TWO_TO_32
    ensures var seen := Shell.Words(Shell.CString(Shell.Command(ChildWords(parent, l))), Shell.Plain, None);
            && (seen.Some? <==>
                Shell.NulFree(parent.executablePath) && Shell.NulFree(l.suite) && Shell.NulFree(l.outputDir))
            && (seen.Some? ==>
                seen.value != [] && Parsed(seen.value, absolute) == Success(ChildOptions(parent, l, absolute)))
  {
    hide Shell.Words, Shell.CString, Shell.Command, Parsed, Decimal.Print;
    var words := ChildWords(parent, l);
    ParsedChild(parent, l, absolute);
    NumbersAreNulFree(l.ratio);
    NumbersAreNulFree(l.filterLength);
    NumbersAreNulFree(parent.seed);
    if Shell.NulFree(parent.executablePath) && Shell.NulFree(l.suite) && Shell.NulFree(l.outputDir) {
      Shell.ShellReadsWordsIff(words);
    } else {
      var k := if !Shell.NulFree(parent.executablePath) then 0 else if !Shell.NulFree(l.suite) then 2 else 10;
      Shell.CutCommandIsUnterminated(words, k);
    }
  }

  lemma NumbersAreNulFree(n: nat)
    ensures Shell.NulFree(Decimal.Print(n))
  {
    var s := Decimal.Print(n);
    forall i | 0 <= i < |s|
      ensures s[i] != Shell.NUL
    {
      assert Decimal.IsDigit(s[i]);
    }
  }

  // ---------- runMatrix ----------

  const Suites: seq<string> := ["resampler", "render", "pipeline", "clocking"]

  /** `ratio_R / filter_F / suite`, below the output directory. */
  function CaseDir(ratio: nat, filterLength: nat, suite: string): string {
    "ratio_" + Decimal.Print(ratio) + "/filter_" + Decimal.Print(filterLength) + "/" + suite
  }

  /** `fs::path::operator/` with a relative path on the right. */
  function Join(dir: string, path: string): string {
    if dir == "" || dir[|dir| - 1] == '/' then dir + path else dir + "/" + path
  }

  function CaseLaunch(o: CliOptions, ratio: nat, filterLength: nat, suite: string): Launch {
    Launch(suite, ratio, filterLength, Join(o.outputDir, CaseDir(ratio, filterLength, suite)))
  }

  /** The launches of the first `k` suites, filter lengths or ratios. */
  function SuiteLaunches(o: CliOptions, ratio: nat, filterLength: nat, k: nat): seq<Launch>
    requires k <= |Suites|
  {
    if k == 0 then []
    else SuiteLaunches(o, ratio, filterLength, k - 1) + [CaseLaunch(o, ratio, filterLength, Suites[k - 1])]
  }

  function FilterLaunches(o: CliOptions, ratio: nat, k: nat): seq<Launch>
    requires k <= |o.filterLengths|
  {
    if k == 0 then []
    else FilterLaunches(o, ratio, k - 1) + SuiteLaunches(o, ratio, o.filterLengths[k - 1], |Suites|)
  }

  function RatioLaunches(o: CliOptions, k: nat): seq<Launch>
    requires k <= |o.ratios|
  {
    if k == 0 then []
    else RatioLaunches(o, k - 1) + FilterLaunches(o, o.ratios[k - 1], |o.filterLengths|)
  }

  function Plan(o: CliOptions): seq<Launch> {
    RatioLaunches(o, |o.ratios|)
  }

  lemma PlanIsAll(o: CliOptions)
    ensures Plan(o) == RatioLaunches(o, |o.ratios|)
  {
  }

  lemma {:induction false} RatioPrefix(o: CliOptions, k: nat)
    requires k <= |o.ratios|
    ensures RatioLaunches(o, k) <= Plan(o)
    decreases |o.ratios| - k
  {
    if k < |o.ratios| {
      RatioPrefix(o, k + 1);
    }
  }

  lemma {:induction false} FilterPrefix(o: CliOptions, ratio: nat, k: nat)
    requires k <= |o.filterLengths|
    ensures FilterLaunches(o, ratio, k) <= FilterLaunches(o, ratio, |o.filterLengths|)
    decreases |o.filterLengths| - k
  {
    if k < |o.filterLengths| {
      FilterPrefix(o, ratio, k + 1);
    }
  }

  lemma {:induction false} SuitePrefix(o: CliOptions, ratio: nat, filterLength: nat, k: nat)
    requires k <= |Suites|
    ensures SuiteLaunches(o, ratio, filterLength, k) <= SuiteLaunches(o, ratio, filterLength, |Suites|)
    decreases |Suites| - k
  {
    if k < |Suites| {
      SuitePrefix(o, ratio, filterLength, k + 1);
    }
  }

  /** The launches made when suite `k` of filter length `j` of ratio `i` has just been started
      are the beginning of the plan. */
  lemma PlanPrefix(o: CliOptions, i: nat, j: nat, k: nat)
    requires i < |o.ratios| && j < |o.filterLengths| && k <= |Suites|
    ensures RatioLaunches(o, i) + FilterLaunches(o, o.ratios[i], j)
            + SuiteLaunches(o, o.ratios[i], o.filterLengths[j], k) <= Plan(o)
  {
    hide RatioLaunches, FilterLaunches, SuiteLaunches, Plan;
    NextRatio(o, i);
    NextFilter(o, o.ratios[i], j);
    RatioPrefix(o, i + 1);
    FilterPrefix(o, o.ratios[i], j + 1);
    SuitePrefix(o, o.ratios[i], o.filterLengths[j], k);
    PrefixOfParts(RatioLaunches(o, i), FilterLaunches(o, o.ratios[i], j),
                  SuiteLaunches(o, o.ratios[i], o.filterLengths[j], k),
                  SuiteLaunches(o, o.ratios[i], o.filterLengths[j], |Suites|),
                  FilterLaunches(o, o.ratios[i], |o.filterLengths|), Plan(o));
  }

  lemma NothingLaunched(o: CliOptions)
    ensures RatioLaunches(o, 0) == []
    ensures forall r :: FilterLaunches(o, r, 0) == []
    ensures forall r, f :: SuiteLaunches(o, r, f, 0) == []
  {
  }

  lemma NextRatio(o: CliOptions, i: nat)
    requires i < |o.ratios|
    ensures RatioLaunches(o, i + 1) == RatioLaunches(o, i) + FilterLaunches(o, o.ratios[i], |o.filterLengths|)
  {
  }

  lemma NextFilter(o: CliOptions, ratio: nat, j: nat)
    requires j < |o.filterLengths|
    ensures FilterLaunches(o, ratio, j + 1)
            == FilterLaunches(o, ratio, j) + SuiteLaunches(o, ratio, o.filterLengths[j], |Suites|)
  {
  }

  lemma NextSuite(o: CliOptions, ratio: nat, filterLength: nat, k: nat)
    requires k < |Suites|
    ensures SuiteLaunches(o, ratio, filterLength, k + 1)
            == SuiteLaunches(o, ratio, filterLength, k) + [CaseLaunch(o, ratio, filterLength, Suites[k])]
  {
  }

  lemma PrefixOfParts<T>(a: seq<T>, b: seq<T>, c: seq<T>, c': seq<T>, bc: seq<T>, whole: seq<T>)
    requires c <= c' && b + c' <= bc && a + bc <= whole
    ensures a + b + c <= whole
  {
    assert b + c <= bc;
    assert a + (b + c) <= whole;
    assert a + b + c == a + (b + c);
  }

  lemma {:induction false} SuiteAt(o: CliOptions, ratio: nat, filterLength: nat, n: nat)
    requires n <= |Suites|
    ensures |SuiteLaunches(o, ratio, filterLength, n)| == n
    ensures forall k :: 0 <= k < n ==>
              SuiteLaunches(o, ratio, filterLength, n)[k] == CaseLaunch(o, ratio, filterLength, Suites[k])
  {
    hide CaseLaunch;
    if n > 0 {
      SuiteAt(o, ratio, filterLength, n - 1);
    }
  }

  lemma {:induction false} FilterLength(o: CliOptions, ratio: nat, n: nat)
    requires n <= |o.filterLengths|
    ensures |FilterLaunches(o, ratio, n)| == 4 * n
  {
    if n > 0 {
      FilterLength(o, ratio, n - 1);
      SuiteAt(o, ratio, o.filterLengths[n - 1], 4);
    }
  }

  lemma {:induction false} FilterAt(o: CliOptions, ratio: nat, n: nat, j: nat, k: nat)
    requires j < n <= |o.filterLengths| && k < 4
    ensures |FilterLaunches(o, ratio, n)| == 4 * n
    ensures FilterLaunches(o, ratio, n)[4 * j + k] == CaseLaunch(o, ratio, o.filterLengths[j], Suites[k])
  {
    hide CaseLaunch, SuiteLaunches;
    FilterLength(o, ratio, n);
    FilterLength(o, ratio, n - 1);
    if j < n - 1 {
      FilterAt(o, ratio, n - 1, j, k);
    } else {
      SuiteAt(o, ratio, o.filterLengths[j], 4);
    }
  }

  lemma {:induction false} RatioLength(o: CliOptions, n: nat, w: nat)
    requires n <= |o.ratios| && w == 4 * |o.filterLengths|
    ensures |RatioLaunches(o, n)| == w * n
  {
    hide FilterLaunches;
    if n > 0 {
      RatioLength(o, n - 1, w);
      FilterLength(o, o.ratios[n - 1], |o.filterLengths|);
      assert w * n == w * (n - 1) + w;
    }
  }

  /** Block `i` of `w` launches lies before the end of `n` blocks. */
  lemma BlockBounds(i: nat, n: nat, w: nat, x: nat)
    requires i < n && x < w
    ensures w * i + x < w * n
  {
    assert w * n == w * i + w + w * (n - 1 - i);
    assert w * (n - 1 - i) >= 0;
  }

  lemma {:induction false} RatioAt(o: CliOptions, n: nat, w: nat, i: nat, x: nat)
    requires i < n <= |o.ratios| && w == 4 * |o.filterLengths| && x < w
    ensures w * i + x < |RatioLaunches(o, n)| == w * n
    ensures |FilterLaunches(o, o.ratios[i], |o.filterLengths|)| == w
    ensures RatioLaunches(o, n)[w * i + x] == FilterLaunches(o, o.ratios[i], |o.filterLengths|)[x]
  {
    hide FilterLaunches;
    RatioLength(o, n, w);
    RatioLength(o, n - 1, w);
    FilterLength(o, o.ratios[i], |o.filterLengths|);
    BlockBounds(i, n, w, x);
    if i < n - 1 {
      RatioAt(o, n - 1, w, i, x);
    }
  }

  /** A launch of the named suite with this ratio and filter length, into the directory named after the three. */
  ghost predicate Launches(o: CliOptions, l: Launch, ratio: nat, filterLength: nat, suite: string) {
    && l.suite == suite && l.ratio == ratio && l.filterLength == filterLength
    && l.outputDir == Join(o.outputDir, "ratio_" + Decimal.Print(ratio) + "/filter_" + Decimal.Print(filterLength)
                                        + "/" + suite)
  }

  lemma CaseLaunches(o: CliOptions, ratio: nat, filterLength: nat, k: nat)
    requires k < 4
    ensures Launches(o, CaseLaunch(o, ratio, filterLength, Suites[k]), ratio, filterLength,
                     ["resampler", "render", "pipeline", "clocking"][k])
  {
    hide Decimal.Print;
  }

  /** The plan holds every combination of ratio, filter length and suite once, ratios slowest and suites fastest. */
  lemma PlanAt(o: CliOptions, i: nat, j: nat, k: nat)
    requires i < |o.ratios| && j < |o.filterLengths| && k < 4
    ensures var w := 4 * |o.filterLengths|;
            && w * i + (4 * j + k) < |Plan(o)| == w * |o.ratios|
            && Launches(o, Plan(o)[w * i + (4 * j + k)], o.ratios[i], o.filterLengths[j],
                        ["resampler", "render", "pipeline", "clocking"][k])
  {
    hide RatioLaunches, FilterLaunches, CaseLaunch, Launches;
    RatioAt(o, |o.ratios|, 4 * |o.filterLengths|, i, 4 * j + k);
    FilterAt(o, o.ratios[i], |o.filterLengths|, j, k);
    CaseLaunches(o, o.ratios[i], o.filterLengths[j], k);
  }

  /** A launch is planned exactly when its ratio and its filter length are listed and its suite is one of the four. */
  lemma PlanMembers(o: CliOptions, l: Launch)
    ensures l in Plan(o)
            <==> && l.ratio in o.ratios && l.filterLength in o.filterLengths
                 && l.suite in ["resampler", "render", "pipeline", "clocking"]
                 && Launches(o, l, l.ratio, l.filterLength, l.suite)
  {
    hide Join, Plan, Decimal.Print;
    if && l.ratio in o.ratios && l.filterLength in o.filterLengths
       && l.suite in ["resampler", "render", "pipeline", "clocking"]
       && Launches(o, l, l.ratio, l.filterLength, l.suite) {
      var i :| 0 <= i < |o.ratios| && o.ratios[i] == l.ratio;
      var j :| 0 <= j < |o.filterLengths| && o.filterLengths[j] == l.filterLength;
      var k :| 0 <= k < 4 && ["resampler", "render", "pipeline", "clocking"][k] == l.suite;
      PlanAt(o, i, j, k);
      SameLaunch(o, l, Plan(o)[4 * |o.filterLengths| * i + (4 * j + k)], l.ratio, l.filterLength, l.suite);
    }
    if l in Plan(o) {
      var i, j, k := PlanIndices(o, l);
      CaseLaunches(o, o.ratios[i], o.filterLengths[j], k);
      assert l.ratio == o.ratios[i] && l.filterLength == o.filterLengths[j];
    }
  }

  lemma SameLaunch(o: CliOptions, a: Launch, b: Launch, ratio: nat, filterLength: nat, suite: string)
    requires Launches(o, a, ratio, filterLength, suite) && Launches(o, b, ratio, filterLength, suite)
    ensures a == b
  {
  }

  lemma PlanIndices(o: CliOptions, l: Launch) returns (i: nat, j: nat, k: nat)
    requires l in Plan(o)
    ensures i < |o.ratios| && j < |o.filterLengths| && k < 4
    ensures l == CaseLaunch(o, o.ratios[i], o.filterLengths[j], Suites[k])
  {
    hide CaseLaunch, RatioLaunches;
    i, j, k := RatioMember(o, |o.ratios|, l);
  }

  lemma {:induction false} SuiteMember(o: CliOptions, ratio: nat, filterLength: nat, n: nat, l: Launch) returns (k: nat)
    requires n <= |Suites| && l in SuiteLaunches(o, ratio, filterLength, n)
    ensures k < n && l == CaseLaunch(o, ratio, filterLength, Suites[k])
  {
    hide CaseLaunch;
    if l == CaseLaunch(o, ratio, filterLength, Suites[n - 1]) {
      k := n - 1;
    } else {
      k := SuiteMember(o, ratio, filterLength, n - 1, l);
    }
  }

  lemma {:induction false} FilterMember(o: CliOptions, ratio: nat, n: nat, l: Launch) returns (j: nat, k: nat)
    requires n <= |o.filterLengths| && l in FilterLaunches(o, ratio, n)
    ensures j < n && k < 4 && l == CaseLaunch(o, ratio, o.filterLengths[j], Suites[k])
  {
    hide CaseLaunch, SuiteLaunches;
    if l in SuiteLaunches(o, ratio, o.filterLengths[n - 1], 4) {
      j := n - 1;
      k := SuiteMember(o, ratio, o.filterLengths[j], 4, l);
    } else {
      j, k := FilterMember(o, ratio, n - 1, l);
    }
  }

  lemma {:induction false} RatioMember(o: CliOptions, n: nat, l: Launch) returns (i: nat, j: nat, k: nat)
    requires n <= |o.ratios| && l in RatioLaunches(o, n)
    ensures i < n && j < |o.filterLengths| && k < 4 && l == CaseLaunch(o, o.ratios[i], o.filterLengths[j], Suites[k])
  {
    hide CaseLaunch, FilterLaunches;
    if l in FilterLaunches(o, o.ratios[n - 1], |o.filterLengths|) {
      i := n - 1;
      j, k := FilterMember(o, o.ratios[i], |o.filterLengths|, l);
    } else {
      i, j, k := RatioMember(o, n - 1, l);
    }
  }

  lemma CaseLaunchIs(o: CliOptions, ratio: nat, filterLength: nat, suite: string)
    ensures CaseLaunch(o, ratio, filterLength, suite)
            == Launch(suite, ratio, filterLength,
                      Join(o.outputDir, "ratio_" + Decimal.Print(ratio) + "/filter_" + Decimal.Print(filterLength)
                                        + "/" + suite))
  {
  }

  ghost predicate AllSucceed(launches: seq<Launch>, system: (nat, Launch) -> int) {
    forall k :: 0 <= k < |launches| ==> system(k, launches[k]) == 0
  }

  /** `system` stands for the exit status each launch would return, which may differ when one is repeated. */
  method RunMatrix(o: CliOptions, system: (nat, Launch) -> int) returns (status: int, launched: seq<Launch>)
    ensures launched <= Plan(o)
    ensures status == 0 ==> launched == Plan(o) && AllSucceed(launched, system)
    ensures status != 0 ==>
              && launched != [] && status == system(|launched| - 1, launched[|launched| - 1])
              && AllSucceed(launched[..|launched| - 1], system)
  {
    hide RatioLaunches, FilterLaunches, SuiteLaunches, CaseLaunch, Plan;
    NothingLaunched(o);
    launched := [];
    for i := 0 to |o.ratios|
      invariant launched == RatioLaunches(o, i) && AllSucceed(launched, system)
    {
      for j := 0 to |o.filterLengths|
        invariant launched == RatioLaunches(o, i) + FilterLaunches(o, o.ratios[i], j) && AllSucceed(launched, system)
      {
        for k := 0 to |Suites|
          invariant AllSucceed(launched, system)
          invariant launched == RatioLaunches(o, i) + FilterLaunches(o, o.ratios[i], j)
                                + SuiteLaunches(o, o.ratios[i], o.filterLengths[j], k)
        {
          NextSuite(o, o.ratios[i], o.filterLengths[j], k);
          var dir := "ratio_" + Decimal.Print(o.ratios[i]) + "/filter_" + Decimal.Print(o.filterLengths[j])
              + "/" + Suites[k];
          var launch := Launch(Suites[k], o.ratios[i], o.filterLengths[j], Join(o.outputDir, dir));
          assert launch == CaseLaunch(o, o.ratios[i], o.filterLengths[j], Suites[k]) by {
            CaseLaunchIs(o, o.ratios[i], o.filterLengths[j], Suites[k]);
          }
          launched := launched + [launch];
          status := system(|launched| - 1, launch);
          if status != 0 {
            PlanPrefix(o, i, j, k + 1);
            return;
          }
        }
        NextFilter(o, o.ratios[i], j);
      }
      NextRatio(o, i);
    }
    PlanIsAll(o);
    status := 0;
  }
}
