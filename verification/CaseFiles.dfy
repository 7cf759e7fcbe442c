/** The case directories the audit leaves behind, as the analysis script reads and orders them. */
module CaseFiles {
  import opened OversamplingCli
  import opened TextPrinters
  import opened Wrappers
  import Decimal
  import Shell
  import Sorting

  datatype Case = Case(ratio: nat, filterLength: nat, suite: string)

  /** `int(token.removeprefix(prefix))`, for tokens that are a run of digits after the prefix. */
  function NumberAfter(prefix: string, token: string): Option<nat> {
    var digits := if prefix <= token then token[|prefix|..] else token;
    if digits != "" && Decimal.AllDigits(digits) then Some(Decimal.Value(digits)) else None
  }

  /** The case of a directory `ratio_*` / `filter_*` / suite. */
  function CaseOf(dir: string): Option<Case> {
    var i := IndexOf(dir, '/');
    if i == |dir| then None
    else
      var rest := dir[i + 1..];
      var j := IndexOf(rest, '/');
      if j == |rest| then None
      else
        var ratio :- NumberAfter("ratio_", dir[..i]);
        var filterLength :- NumberAfter("filter_", rest[..j]);
        Some(Case(ratio, filterLength, rest[j + 1..]))
  }

  lemma SlashIndexIs(a: string, b: string)
    requires '/' !in a
    ensures IndexOf(a + "/" + b, '/') == |a|
    ensures (a + "/" + b)[..|a|] == a && (a + "/" + b)[|a| + 1..] == b
  {
    var s := a + "/" + b;
    assert s[..|a|] == a;
    assert s[|a|] == '/';
  }

  lemma NumberAfterPrint(prefix: string, n: nat)
    requires '/' !in prefix
    ensures NumberAfter(prefix, prefix + Decimal.Print(n)) == Some(n)
    ensures '/' !in prefix + Decimal.Print(n)
  {
    hide Decimal.Value, Decimal.Print;
    var digits := Decimal.Print(n);
    assert (prefix + digits)[|prefix|..] == digits;
    Decimal.ValueOfPrint(n);
    forall i | 0 <= i < |digits|
      ensures digits[i] != '/'
    {
      assert Decimal.IsDigit(digits[i]);
    }
  }

  /** Reading a case directory gives back the case it was made for, so different cases never
      share an output directory. */
  lemma CaseDirRoundTrip(ratio: nat, filterLength: nat, suite: string)
    ensures CaseOf(CaseDir(ratio, filterLength, suite)) == Some(Case(ratio, filterLength, suite))
  {
    hide Decimal.Print, NumberAfter;
    var r, f := "ratio_" + Decimal.Print(ratio), "filter_" + Decimal.Print(filterLength);
    NumberAfterPrint("ratio_", ratio);
    NumberAfterPrint("filter_", filterLength);
    assert CaseDir(ratio, filterLength, suite) == r + "/" + (f + "/" + suite);
    SlashIndexIs(r, f + "/" + suite);
    SlashIndexIs(f, suite);
  }

  // ---------- find_cases ----------

  /** Python's order of texts. */
  predicate TextNotAfter(a: string, b: string) {
    a == "" || (b != "" && (a[0] < b[0] || (a[0] == b[0] && TextNotAfter(a[1..], b[1..]))))
  }

  /** By ratio, then filter length, then suite. */
  predicate CaseNotAfter(a: Case, b: Case) {
    if a.ratio != b.ratio then a.ratio < b.ratio
    else if a.filterLength != b.filterLength then a.filterLength < b.filterLength
    else TextNotAfter(a.suite, b.suite)
  }

  /** The directories in the order they are listed; None stands for the ValueError of `int`. */
  function Described(dirs: seq<string>): Option<seq<Case>> {
    if dirs == [] then Some([])
    else
      var cases :- Described(dirs[..|dirs| - 1]);
      var last :- CaseOf(dirs[|dirs| - 1]);
      Some(cases + [last])
  }

  function FoundCases(dirs: seq<string>): Option<seq<Case>> {
    var cases :- Described(dirs);
    Some(Sorting.Sort(cases, CaseNotAfter))
  }

  method FindCases(dirs: seq<string>) returns (r: Option<seq<Case>>)
    ensures r == FoundCases(dirs)
  {
    hide CaseOf;
    var cases := [];
    for i := 0 to |dirs|
      invariant Described(dirs[..i]) == Some(cases)
    {
      assert dirs[..i + 1][..i] == dirs[..i];
      var described := CaseOf(dirs[i]);
      if described.None? {
        DescribedStuck(dirs, i + 1);
        return None;
      }
      cases := cases + [described.value];
    }
    assert dirs[..|dirs|] == dirs;
    r := Some(Sorting.Sort(cases, CaseNotAfter));
  }

  lemma {:induction false} DescribedStuck(dirs: seq<string>, k: nat)
    requires k <= |dirs| && Described(dirs[..k]).None?
    ensures Described(dirs).None?
    decreases |dirs| - k
  {
    hide CaseOf;
    if k == |dirs| {
      assert dirs[..k] == dirs;
    } else {
      assert dirs[..k + 1][..k] == dirs[..k];
      DescribedStuck(dirs, k + 1);
    }
  }

  // ---------- the order ----------

  lemma {:induction false} TextTotal(a: string, b: string)
    ensures TextNotAfter(a, b) || TextNotAfter(b, a)
  {
    if a != "" && b != "" {
      TextTotal(a[1..], b[1..]);
    }
  }

  lemma {:induction false} TextTransitive(a: string, b: string, c: string)
    requires TextNotAfter(a, b) && TextNotAfter(b, c)
    ensures TextNotAfter(a, c)
  {
    if a != "" && a[0] == b[0] == c[0] {
      TextTransitive(a[1..], b[1..], c[1..]);
    }
  }

  lemma CaseNotAfterIsOrder()
    ensures Sorting.TotalPreorder(CaseNotAfter)
  {
    forall a, b
      ensures CaseNotAfter(a, b) || CaseNotAfter(b, a)
    {
      TextTotal(a.suite, b.suite);
    }
    hide TextNotAfter;
    forall a, b, c | CaseNotAfter(a, b) && CaseNotAfter(b, c)
      ensures CaseNotAfter(a, c)
    {
      if a.ratio == b.ratio == c.ratio && a.filterLength == b.filterLength == c.filterLength {
        TextTransitive(a.suite, b.suite, c.suite);
      }
    }
  }

  // ---------- from the plan to the cases found ----------

  ghost predicate Planned(o: CliOptions, c: Case) {
    c.ratio in o.ratios && c.filterLength in o.filterLengths && c.suite in Suites
  }

  function DirOf(c: Case): string {
    CaseDir(c.ratio, c.filterLength, c.suite)
  }

  lemma JoinInjective(dir: string, a: string, b: string)
    requires Join(dir, a) == Join(dir, b)
    ensures a == b
  {
    if dir == "" || dir[|dir| - 1] == '/' {
      assert (dir + a)[|dir|..] == a && (dir + b)[|dir|..] == b;
    } else {
      assert (dir + "/" + a)[|dir| + 1..] == a && (dir + "/" + b)[|dir| + 1..] == b;
    }
  }

  /** The output directory of some planned launch. */
  ghost predicate LeftBehind(o: CliOptions, dir: string) {
    exists l :: l in Plan(o) && l.outputDir == Join(o.outputDir, dir)
  }

  /** From the command line of the audit to that of every child it launches: what the child reads as its ratio, filter
      length and suite is what the analysis reads from the directory the child writes to. */
  lemma ChildWritesWhereItBelongs(argv: seq<string>, absolute: string -> string, l: Launch)
    requires argv != [] && Parsed(argv, absolute).Success? && l in Plan(Parsed(argv, absolute).value)
    requires var o := Parsed(argv, absolute).value;
             Shell.NulFree(o.executablePath) && Shell.NulFree(l.outputDir)
    ensures var o := Parsed(argv, absolute).value;
            var seen := Shell.Words(Shell.CString(Shell.Command(ChildWords(o, l))), Shell.Plain, None);
            && seen.Some? && seen.value != [] && Parsed(seen.value, absolute).Success?
            && var child := Parsed(seen.value, absolute).value;
            && child.command == CommandType.Suite && child.seed == o.seed
            && child.ratio in o.ratios && child.filterLength in o.filterLengths
            && exists dir :: child.outputDir == Join(o.outputDir, dir)
                 && CaseOf(dir) == Some(Case(child.ratio, child.filterLength, child.suite))
  {
    hide Plan, SetOptions, Shell.Words, Shell.CString, Shell.Command, Shell.NulFree, CaseOf, Join, Decimal.Print;
    var o := Parsed(argv, absolute).value;
    ParsedIsUnsigned(argv, absolute);
    PlanMembers(o, l);
    SuitesAreNulFree(l.suite);
    ChildLaunchRoundTrip(o, l, absolute);
    CaseDirRoundTrip(l.ratio, l.filterLength, l.suite);
    assert l.outputDir == Join(o.outputDir, CaseDir(l.ratio, l.filterLength, l.suite));
  }

  lemma SuitesAreNulFree(suite: string)
    requires suite in ["resampler", "render", "pipeline", "clocking"]
    ensures Shell.NulFree(suite)
  {
  }

  lemma PlannedLeavesDir(o: CliOptions, c: Case)
    requires Planned(o, c)
    ensures LeftBehind(o, DirOf(c))
  {
    hide Plan, CaseDir, Join;
    var i :| 0 <= i < |o.ratios| && o.ratios[i] == c.ratio;
    var j :| 0 <= j < |o.filterLengths| && o.filterLengths[j] == c.filterLength;
    var k :| 0 <= k < |Suites| && Suites[k] == c.suite;
    CaseLaunches(o, o.ratios[i], o.filterLengths[j], k);
    PlanMembers(o, CaseLaunch(o, o.ratios[i], o.filterLengths[j], Suites[k]));
  }

  lemma DirIsPlanned(o: CliOptions, dir: string) returns (c: Case)
    requires LeftBehind(o, dir)
    ensures Planned(o, c) && dir == DirOf(c) && CaseOf(dir) == Some(c)
  {
    hide Plan, CaseOf, Join, Planned, DirOf;
    var l :| l in Plan(o) && l.outputDir == Join(o.outputDir, dir);
    c := CaseOfLaunch(o, l);
    JoinInjective(o.outputDir, dir, DirOf(c));
    DirRoundTrip(c);
  }

  lemma CaseOfLaunch(o: CliOptions, l: Launch) returns (c: Case)
    requires l in Plan(o)
    ensures Planned(o, c) && l.outputDir == Join(o.outputDir, DirOf(c))
  {
    hide Plan, CaseDir, Join;
    var i, j, k := PlanIndices(o, l);
    c := Case(o.ratios[i], o.filterLengths[j], Suites[k]);
  }

  lemma DirRoundTrip(c: Case)
    ensures CaseOf(DirOf(c)) == Some(c)
  {
    CaseDirRoundTrip(c.ratio, c.filterLength, c.suite);
  }

  lemma {:induction false} PlannedDirsDescribed(o: CliOptions, dirs: seq<string>)
    requires forall i :: 0 <= i < |dirs| ==> LeftBehind(o, dirs[i])
    ensures Described(dirs).Some? && |Described(dirs).value| == |dirs|
    ensures forall i :: 0 <= i < |dirs| ==>
              dirs[i] == DirOf(Described(dirs).value[i]) && Planned(o, Described(dirs).value[i])
  {
    hide LeftBehind, CaseOf, DirOf, Planned;
    if dirs != [] {
      var init, last := dirs[..|dirs| - 1], dirs[|dirs| - 1];
      PlannedDirsDescribed(o, init);
      assert forall i :: 0 <= i < |init| ==> init[i] == dirs[i];
      var c := DirIsPlanned(o, last);
    }
  }

  /** When the matrix has left exactly the directories of its plan, in whatever order they are listed, the script finds
      exactly the planned cases, each once, by ratio, filter length and suite. */
  lemma PlanIsFound(o: CliOptions, dirs: seq<string>)
    requires forall i, j :: 0 <= i < j < |dirs| ==> dirs[i] != dirs[j]
    requires forall d :: d in dirs <==> LeftBehind(o, d)
    ensures FoundCases(dirs).Some?
    ensures var cases := FoundCases(dirs).value;
            && Sorting.Sorted(cases, CaseNotAfter)
            && (forall i, j :: 0 <= i < j < |cases| ==> cases[i] != cases[j])
            && (forall c :: c in cases <==> Planned(o, c))
  {
    hide LeftBehind, DirOf, Planned, CaseNotAfter, Described, Sorting.Sort;
    forall i | 0 <= i < |dirs|
      ensures LeftBehind(o, dirs[i])
    {
      assert dirs[i] in dirs;
    }
    PlannedDirsDescribed(o, dirs);
    var described := Described(dirs).value;
    CaseNotAfterIsOrder();
    Sorting.SortSorts(described, CaseNotAfter);
    Sorting.SortKeeps(described, CaseNotAfter);
    Sorting.SortMembers(described, CaseNotAfter);
    var key := (c: Case) => c;
    Sorting.DistinctAfterReordering(described, Sorting.Sort(described, CaseNotAfter), key);
    var cases := FoundCases(dirs).value;
    forall i, j | 0 <= i < j < |cases|
      ensures cases[i] != cases[j]
    {
      assert key(cases[i]) != key(cases[j]);
    }
    forall c
      ensures c in cases <==> Planned(o, c)
    {
      if Planned(o, c) {
        PlannedLeavesDir(o, c);
        SameDirSameCase(dirs, described, c);
      }
      if c in described {
        var i :| 0 <= i < |described| && described[i] == c;
      }
    }
  }

  lemma SameDirSameCase(dirs: seq<string>, described: seq<Case>, c: Case)
    requires DirOf(c) in dirs && |described| == |dirs|
    requires forall i :: 0 <= i < |dirs| ==> dirs[i] == DirOf(described[i])
    ensures c in described
  {
    hide CaseDir, CaseOf;
    var i :| 0 <= i < |dirs| && dirs[i] == DirOf(c);
    CaseDirRoundTrip(c.ratio, c.filterLength, c.suite);
    CaseDirRoundTrip(described[i].ratio, described[i].filterLength, described[i].suite);
    assert described[i] == c;
  }
}
