/** References to a name that no element has, and when `resolve_duplicate_names` gives that name to
    one of the elements it renames, so that the reference comes to name it. */
module DanglingReferences {
  import opened DuplicateNames
  import opened Sorting
  import opened Wrappers
  import Decimal
  import FreshName

  // ---------- which dangling references can be captured ----------

  ghost predicate Duplicated(doc: seq<Node>, name: string) {
    |Occurrences(doc, name)| > 1
  }

  /** Names in use stay in use, except the one whose group is being renamed. */
  lemma UsedStays(doc: seq<Node>, st: State, name: string, v: string)
    requires |st.doc| == |doc| && v in st.used && v != name
    ensures v in ResolveName(doc, st, name).used
  {
    hide Occurrences, References, RenameFrom, RedirectFrom;
    OccurrencesFacts(doc, name);
    RenameResult(st.(used := st.used - {name}), name, Occurrences(doc, name), 0, []);
  }

  lemma {:induction false} UsedStaysThroughout(doc: seq<Node>, st: State, order: seq<string>, v: string)
    requires |st.doc| == |doc| && v in st.used && v !in order
    ensures v in ResolveFrom(doc, st, order).used
    decreases |order|
  {
    hide ResolveName;
    if order != [] {
      UsedStays(doc, st, order[0], v);
      UsedStaysThroughout(doc, ResolveName(doc, st, order[0]), order[1..], v);
    }
  }

  /** A name typed at the first question is taken when it is free. */
  lemma TypedIsTaken(doc: seq<Node>, st: State, name: string, v: string)
    requires |st.doc| == |doc| && st.lines == [v] && Strip(v) == v && v != "" && v !in st.used && Duplicated(doc, name)
    ensures v in ResolveName(doc, st, name).used
  {
    hide Occurrences, References, RenameFrom, RedirectFrom, Strip, DefaultName;
    var occ := Occurrences(doc, name);
    OccurrencesFacts(doc, name);
    var cleared := st.(used := st.used - {name});
    FirstTyped(cleared, name, occ, v);
    RenameResult(cleared, name, occ, 0, []);
    RenameResult(State(SetAttr(st.doc, occ[0], NAME, v), cleared.used + {v}, []), name, occ, 1, [v]);
  }

  lemma FirstTyped(st: State, name: string, occ: seq<nat>, v: string)
    requires IndicesOf(occ, |st.doc|) && occ != [] && st.lines == [v] && Strip(v) == v && v != "" && v !in st.used
    ensures RenameFrom(st, name, occ, 0, [])
            == RenameFrom(State(SetAttr(st.doc, occ[0], NAME, v), st.used + {v}, []), name, occ, 1, [v])
  {
    hide Strip, DefaultName;
    assert [v][1..] == [];
    assert AskName(st.lines, DefaultName(name, st.used, 1), st.used) == (v, []);
    assert [] + [v] == [v];
  }

  lemma {:induction false} TypedIsTakenSomewhere(doc: seq<Node>, st: State, order: seq<string>, v: string)
    requires |st.doc| == |doc| && st.lines == [v] && Strip(v) == v && v != "" && v !in st.used && v !in order
    requires exists n :: n in order && Duplicated(doc, n)
    ensures v in ResolveFrom(doc, st, order).used
    decreases |order|
  {
    hide ResolveName, Strip;
    if Duplicated(doc, order[0]) {
      TypedIsTaken(doc, st, order[0], v);
      UsedStaysThroughout(doc, ResolveName(doc, st, order[0]), order[1..], v);
    } else {
      SingleIsSkipped(doc, st, order[0]);
      assert forall n :: n in order && n != order[0] ==> n in order[1..];
      TypedIsTakenSomewhere(doc, st, order[1..], v);
    }
  }

  lemma SingleIsSkipped(doc: seq<Node>, st: State, name: string)
    requires |st.doc| == |doc| && !Duplicated(doc, name)
    ensures ResolveName(doc, st, name) == st
  {
  }

  lemma {:induction false} NothingToResolve(doc: seq<Node>, st: State, order: seq<string>)
    requires |st.doc| == |doc| && forall n :: n in order ==> !Duplicated(doc, n)
    ensures ResolveFrom(doc, st, order) == st
    decreases |order|
  {
    hide ResolveName;
    if order != [] {
      SingleIsSkipped(doc, st, order[0]);
      NothingToResolve(doc, st, order[1..]);
    }
  }

  lemma DuplicatedIsListed(doc: seq<Node>, name: string)
    requires Duplicated(doc, name)
    ensures name in Order(doc)
  {
    hide Occurrences, Order;
    OccurrencesFacts(doc, name);
    OrderFacts(doc);
    var e := Occurrences(doc, name)[0];
    assert e in Occurrences(doc, name);
    assert NameOf(doc, e) == Some(name);
  }

  /** A reference that names an element after the run. */
  ghost predicate NamesSomething(doc: seq<Node>, lines: seq<string>, i: nat, a: string)
    requires i < |doc|
  {
    var end := Resolved(doc, lines).doc;
    |end| == |doc| && Attr(end[i], a).Some? && Defined(end, Attr(end[i], a).value)
  }

  // ---------- names that can be typed ----------

  predicate Typable(v: string) {
    v != "" && Strip(v) == v
  }

  predicate Trimmed(s: string) {
    s == "" || (!IsSpace(s[0]) && !IsSpace(s[|s| - 1]))
  }

  lemma {:induction false} StripTrims(s: string)
    ensures Trimmed(Strip(s)) && |Strip(s)| <= |s|
    ensures Strip(s) == s <==> Trimmed(s)
    decreases |s|
  {
    hide IsSpace;
    if s != "" && IsSpace(s[0]) {
      StripTrims(s[1..]);
    } else if s != "" && IsSpace(s[|s| - 1]) {
      StripTrims(s[..|s| - 1]);
    }
  }

  lemma TypedIsTypable(line: string)
    requires Strip(line) != ""
    ensures Typable(Strip(line))
  {
    StripTrims(line);
    StripTrims(Strip(line));
  }

  /** Whether a numbered name can be typed depends on the name alone, not on the number. */
  lemma NumbersTypableAlike(name: string, j: nat, k: nat)
    ensures Typable(name + Decimal.Print(j)) <==> Typable(name + Decimal.Print(k))
  {
    NumberTypableIff(name, j);
    NumberTypableIff(name, k);
  }

  lemma NumberTypableIff(name: string, k: nat)
    ensures Typable(name + Decimal.Print(k)) <==> name == "" || !IsSpace(name[0])
  {
    hide Decimal.Print, Strip;
    var s := name + Decimal.Print(k);
    StripTrims(s);
    assert Decimal.IsDigit(Decimal.Print(k)[|Decimal.Print(k)| - 1]) && Decimal.IsDigit(Decimal.Print(k)[0]);
    assert s[|s| - 1] == Decimal.Print(k)[|Decimal.Print(k)| - 1];
    assert s[0] == if name == "" then Decimal.Print(k)[0] else name[0];
  }

  lemma AnswerIsDefaultOrTypable(lines: seq<string>, default: string, used: set<string>)
    requires default !in used
    ensures AskName(lines, default, used).0 == default || Typable(AskName(lines, default, used).0)
  {
    hide Strip;
    var k := NameIsFirstFreeAnswer(lines, default, used);
    if k < |lines| && Strip(lines[k]) != "" {
      TypedIsTypable(lines[k]);
    }
  }

  // ---------- which numbers of a duplicated name can be reached ----------

  /** How many of `name`a+1, ..., `name`b are not in `taken`. */
  ghost function FreeBetween(name: string, taken: iset<string>, a: nat, b: nat): (c: nat)
    ensures c <= if a < b then b - a else 0
    decreases b
  {
    if b <= a then 0
    else FreeBetween(name, taken, a, b - 1) + if name + Decimal.Print(b) in taken then 0 else 1
  }

  /** `taken` and the numbers of `name` that a group of `size` elements can reach: before `name`k there are
      fewer free numbers than elements. */
  ghost function WithNumbers(name: string, taken: iset<string>, size: nat): iset<string> {
    taken + iset k: nat | k > 0 && FreeBetween(name, taken, 0, k) <= size :: name + Decimal.Print(k)
  }

  ghost function ReachGroup(doc: seq<Node>, taken: iset<string>, name: string): iset<string> {
    if Duplicated(doc, name) then WithNumbers(name, taken - iset{name}, |Occurrences(doc, name)|) else taken
  }

  ghost function ReachFrom(doc: seq<Node>, taken: iset<string>, order: seq<string>): iset<string>
    decreases |order|
  {
    if order == [] then taken else ReachFrom(doc, ReachGroup(doc, taken, order[0]), order[1..])
  }

  /** The names reached when every group takes as many of its numbers as it has elements. */
  ghost function Reach(doc: seq<Node>): iset<string> {
    ReachFrom(doc, (iset v | v in Order(doc)), Order(doc))
  }

  lemma {:induction false} FreeMonotone(name: string, more: iset<string>, fewer: iset<string>, a: nat, b: nat)
    requires forall k: nat :: name + Decimal.Print(k) in fewer ==> name + Decimal.Print(k) in more
    ensures FreeBetween(name, more, a, b) <= FreeBetween(name, fewer, a, b)
    decreases b
  {
    hide Decimal.Print;
    if b > a {
      FreeMonotone(name, more, fewer, a, b - 1);
    }
  }

  lemma {:induction false} NoneFree(name: string, taken: iset<string>, a: nat, b: nat)
    requires forall j :: a < j <= b ==> name + Decimal.Print(j) in taken
    ensures FreeBetween(name, taken, a, b) == 0
    decreases b
  {
    hide Decimal.Print;
    if b > a {
      NoneFree(name, taken, a, b - 1);
    }
  }

  /** Leaving out the first number and taking any other one costs at most one free number, if the one
      taken is the first free one. */
  lemma {:induction false} TakingFirstFree(name: string, taken: iset<string>, a: nat, b: nat, k: nat)
    requires a < k && a < b && name + Decimal.Print(k) !in taken
    requires forall j :: a < j < k ==> name + Decimal.Print(j) in taken
    ensures FreeBetween(name, taken + iset{name + Decimal.Print(k)}, a + 1, b) + 1 >= FreeBetween(name, taken, a, b)
    decreases b
  {
    hide Decimal.Print;
    NumberedInjective(name);
    assert forall j: nat :: Numbered(name)(j) == name + Decimal.Print(j);
    if b < k {
      NoneFree(name, taken, a, b);
    } else if b == k {
      NoneFree(name, taken, a, b - 1);
    } else {
      TakingFirstFree(name, taken, a, b - 1, k);
    }
  }

  lemma {:induction false} LeavingOutFirst(name: string, taken: iset<string>, a: nat, b: nat)
    requires a < b
    ensures FreeBetween(name, taken, a + 1, b) + 1 >= FreeBetween(name, taken, a, b)
    decreases b
  {
    hide Decimal.Print;
    if a + 1 < b {
      LeavingOutFirst(name, taken, a, b - 1);
    }
  }

  // ---------- no answers reach more ----------

  /** Every name in use that cannot be typed is one of `reach`. */
  ghost predicate Within(used: set<string>, reach: iset<string>) {
    forall v :: v in used && !Typable(v) ==> v in reach
  }

  ghost function All(s: set<string>): iset<string> {
    iset v | v in s
  }

  /** After `i` elements at most `i` of the numbers that were free at the start are taken or passed over. */
  ghost predicate AtMostSpent(name: string, start: iset<string>, used: set<string>, i: nat) {
    forall b: nat :: b >= i ==> FreeBetween(name, start, 0, b) <= i + FreeBetween(name, All(used), i, b)
  }

  lemma SpendOne(name: string, start: iset<string>, used: set<string>, i: nat, chosen: string)
    requires AtMostSpent(name, start, used, i)
    requires chosen == DefaultName(name, used, i + 1) || forall k: nat :: chosen != name + Decimal.Print(k)
    ensures AtMostSpent(name, start, used + {chosen}, i + 1)
  {
    hide Decimal.Print, FreeBetween, DefaultName;
    var k := DefaultNameIsFirstFree(name, used, i + 1);
    forall b: nat | b >= i + 1
      ensures FreeBetween(name, start, 0, b) <= i + 1 + FreeBetween(name, All(used + {chosen}), i + 1, b)
    {
      assert FreeBetween(name, start, 0, b) <= i + FreeBetween(name, All(used), i, b);
      if chosen == DefaultName(name, used, i + 1) {
        TakingFirstFree(name, All(used), i, b, k);
        assert All(used) + iset{chosen} == All(used + {chosen});
      } else {
        LeavingOutFirst(name, All(used), i, b);
        FreeMonotone(name, All(used + {chosen}), All(used), i + 1, b);
        FreeMonotone(name, All(used), All(used + {chosen}), i + 1, b);
      }
    }
  }

  /** A default that is accepted is one of the numbers the group can reach. */
  lemma DefaultIsReached(name: string, start: iset<string>, used: set<string>, i: nat, size: nat)
    requires AtMostSpent(name, start, used, i) && i < size
    ensures DefaultName(name, used, i + 1) in WithNumbers(name, start, size)
  {
    hide Decimal.Print, DefaultName;
    var k := DefaultNameIsFirstFree(name, used, i + 1);
    NoneFree(name, All(used), i, k - 1);
    assert FreeBetween(name, start, 0, k) <= i + FreeBetween(name, All(used), i, k);
  }

  lemma {:induction false} RenamingStaysWithin(st: State, name: string, occ: seq<nat>, i: nat, newNames: seq<string>,
                                               start: iset<string>)
    requires IndicesOf(occ, |st.doc|) && i <= |occ| && Within(st.used, WithNumbers(name, start, |occ|))
    requires Typable(name + Decimal.Print(0)) || AtMostSpent(name, start, st.used, i)
    ensures Within(RenameFrom(st, name, occ, i, newNames).0.used, WithNumbers(name, start, |occ|))
    decreases |occ| - i
  {
    hide AskName, DefaultName, WithNumbers, AtMostSpent, Decimal.Print, Typable;
    if i < |occ| {
      var default := DefaultName(name, st.used, i + 1);
      var (chosen, rest) := AskName(st.lines, default, st.used);
      AnswerIsDefaultOrTypable(st.lines, default, st.used);
      var k := DefaultNameIsFirstFree(name, st.used, i + 1);
      NumbersTypableAlike(name, 0, k);
      if !Typable(name + Decimal.Print(0)) {
        DefaultIsReached(name, start, st.used, i, |occ|);
        forall j: nat | chosen == name + Decimal.Print(j)
          ensures chosen == default
        {
          NumbersTypableAlike(name, 0, j);
        }
        SpendOne(name, start, st.used, i, chosen);
      }
      RenamingStaysWithin(State(SetAttr(st.doc, occ[i], NAME, chosen), st.used + {chosen}, rest), name, occ, i + 1,
                          newNames + [chosen], start);
    }
  }

  lemma GroupStaysWithin(doc: seq<Node>, st: State, name: string, taken: iset<string>)
    requires |st.doc| == |doc| && Within(st.used, taken)
    ensures Within(ResolveName(doc, st, name).used, ReachGroup(doc, taken, name))
  {
    hide Occurrences, References, RenameFrom, RedirectFrom, Decimal.Print, Typable;
    if Duplicated(doc, name) {
      var cleared, start := st.(used := st.used - {name}), taken - iset{name};
      OccurrencesFacts(doc, name);
      if !Typable(name + Decimal.Print(0)) {
        NothingSpent(name, start, cleared.used);
      }
      RenamingStaysWithin(cleared, name, Occurrences(doc, name), 0, [], start);
    }
  }

  lemma NothingSpent(name: string, start: iset<string>, used: set<string>)
    requires Within(used, start) && !Typable(name + Decimal.Print(0))
    ensures AtMostSpent(name, start, used, 0)
  {
    hide Decimal.Print, FreeBetween, Typable;
    forall k: nat | name + Decimal.Print(k) in All(used)
      ensures name + Decimal.Print(k) in start
    {
      NumbersTypableAlike(name, 0, k);
    }
    forall b: nat
      ensures FreeBetween(name, start, 0, b) <= FreeBetween(name, All(used), 0, b)
    {
      FreeMonotone(name, start, All(used), 0, b);
    }
  }

  lemma {:induction false} RunStaysWithin(doc: seq<Node>, st: State, order: seq<string>, taken: iset<string>)
    requires |st.doc| == |doc| && Within(st.used, taken)
    ensures Within(ResolveFrom(doc, st, order).used, ReachFrom(doc, taken, order))
    decreases |order|
  {
    hide ResolveName, ReachGroup, Within;
    if order != [] {
      GroupStaysWithin(doc, st, order[0], taken);
      RunStaysWithin(doc, ResolveName(doc, st, order[0]), order[1..], ReachGroup(doc, taken, order[0]));
    }
  }

  // ---------- the default answers reach all of it ----------

  /** Accepting `i` defaults takes the first `i` numbers that were free at the start. */
  ghost predicate FirstTaken(name: string, start: iset<string>, used: set<string>, i: nat) {
    forall k: nat :: k > 0 && FreeBetween(name, start, 0, k) <= i ==> name + Decimal.Print(k) in used
  }

  lemma {:induction false} FreeGrows(name: string, taken: iset<string>, j: nat, k: nat)
    requires 0 < j < k && name + Decimal.Print(k) !in taken
    ensures FreeBetween(name, taken, 0, j) < FreeBetween(name, taken, 0, k)
  {
    FreeSplits(name, taken, j, k - 1);
  }

  lemma {:induction false} FreeSplits(name: string, taken: iset<string>, j: nat, k: nat)
    requires j <= k
    ensures FreeBetween(name, taken, 0, j) <= FreeBetween(name, taken, 0, k)
    decreases k
  {
    hide Decimal.Print;
    if j < k {
      FreeSplits(name, taken, j, k - 1);
    }
  }

  lemma AcceptOne(name: string, start: iset<string>, used: set<string>, i: nat)
    requires FirstTaken(name, start, used, i) && forall v :: v in start ==> v in used
    ensures FirstTaken(name, start, used + {DefaultName(name, used, i + 1)}, i + 1)
  {
    hide Decimal.Print, FreeBetween, DefaultName;
    var d := DefaultNameIsFirstFree(name, used, i + 1);
    forall k: nat | k > 0 && FreeBetween(name, start, 0, k) <= i + 1 && name + Decimal.Print(k) !in used
      ensures k == d
    {
      assert k >= i + 1;
      forall j: nat | 0 < j < k
        ensures name + Decimal.Print(j) in used
      {
        FreeGrows(name, start, j, k);
      }
    }
  }

  lemma {:induction false} DefaultsTakeTheFirst(st: State, name: string, occ: seq<nat>, i: nat, newNames: seq<string>,
                                                start: iset<string>)
    requires IndicesOf(occ, |st.doc|) && i <= |occ| && st.lines == []
    requires FirstTaken(name, start, st.used, i) && forall v :: v in start ==> v in st.used
    ensures var r := RenameFrom(st, name, occ, i, newNames).0;
            FirstTaken(name, start, r.used, |occ|) && (forall v :: v in start ==> v in r.used) && r.lines == []
    decreases |occ| - i
  {
    hide DefaultName, FirstTaken;
    if i < |occ| {
      var default := DefaultName(name, st.used, i + 1);
      assert AskName(st.lines, default, st.used) == (default, []);
      AcceptOne(name, start, st.used, i);
      DefaultsTakeTheFirst(State(SetAttr(st.doc, occ[i], NAME, default), st.used + {default}, []), name, occ, i + 1,
                           newNames + [default], start);
    }
  }

  /** Whatever was taken since the start is one of the first `i` free numbers. */
  ghost predicate OnlyFirstTaken(name: string, start: iset<string>, used: set<string>, i: nat) {
    forall k: nat :: name + Decimal.Print(k) in used && name + Decimal.Print(k) !in start ==>
      k > 0 && FreeBetween(name, start, 0, k) <= i
  }

  /** A free number with a given count of free numbers up to it. */
  lemma {:induction false} FreeWithCount(name: string, taken: iset<string>, k: nat, c: nat) returns (j: nat)
    requires 0 < c <= FreeBetween(name, taken, 0, k)
    ensures 0 < j <= k && name + Decimal.Print(j) !in taken && FreeBetween(name, taken, 0, j) == c
    decreases k
  {
    hide Decimal.Print;
    if name + Decimal.Print(k) !in taken && FreeBetween(name, taken, 0, k) == c {
      j := k;
    } else {
      j := FreeWithCount(name, taken, k - 1, c);
    }
  }

  lemma DefaultIsNextFree(name: string, start: iset<string>, used: set<string>, i: nat) returns (k: nat)
    requires FirstTaken(name, start, used, i) && OnlyFirstTaken(name, start, used, i)
    requires forall v :: v in start ==> v in used
    ensures DefaultName(name, used, i + 1) == name + Decimal.Print(k) && name + Decimal.Print(k) !in start
    ensures k > 0 && FreeBetween(name, start, 0, k) == i + 1
    ensures OnlyFirstTaken(name, start, used + {name + Decimal.Print(k)}, i + 1)
  {
    hide Decimal.Print, FreeBetween, DefaultName;
    k := DefaultNameIsFirstFree(name, used, i + 1);
    if FreeBetween(name, start, 0, k) > i + 1 {
      var j := FreeWithCount(name, start, k, i + 1);
      assert false;
    }
    forall l: nat | name + Decimal.Print(l) == name + Decimal.Print(k)
      ensures l == k
    {
      NumberedInjective(name);
      assert Numbered(name)(l) == Numbered(name)(k);
    }
  }

  /** With no answers from the user, occurrence `s` of a group gets the number that is the (s+1)-th of those free when
      the group is reached. */
  lemma {:induction false} DefaultsInOrder(st: State, name: string, occ: seq<nat>, i: nat, newNames: seq<string>,
                                           start: iset<string>, s: nat) returns (k: nat)
    requires IndicesOf(occ, |st.doc|) && |newNames| == i <= s < |occ| && st.lines == []
    requires Distinct(newNames) && forall j :: 0 <= j < i ==> newNames[j] in st.used
    requires FirstTaken(name, start, st.used, i) && OnlyFirstTaken(name, start, st.used, i)
    requires forall v :: v in start ==> v in st.used
    ensures var (_, names) := RenameFrom(st, name, occ, i, newNames);
            |names| == |occ| && names[s] == name + Decimal.Print(k)
    ensures k > 0 && name + Decimal.Print(k) !in start && FreeBetween(name, start, 0, k) == s + 1
    decreases |occ| - i
  {
    hide DefaultName, FirstTaken, OnlyFirstTaken, FreeBetween, Decimal.Print;
    RenameResult(st, name, occ, i, newNames);
    var default := DefaultName(name, st.used, i + 1);
    assert AskName(st.lines, default, st.used) == (default, []);
    AcceptOne(name, start, st.used, i);
    k := DefaultIsNextFree(name, start, st.used, i);
    var next := State(SetAttr(st.doc, occ[i], NAME, default), st.used + {default}, []);
    if s > i {
      k := DefaultsInOrder(next, name, occ, i + 1, newNames + [default], start, s);
    } else {
      RenameResult(next, name, occ, i + 1, newNames + [default]);
    }
  }

  /** So the elements of a group are numbered in document order by the first free numbers. */
  lemma GroupNumberedInOrder(doc: seq<Node>, st: State, name: string, s: nat) returns (k: nat)
    requires |st.doc| == |doc| && st.lines == [] && Duplicated(doc, name) && s < |Occurrences(doc, name)|
    requires Occurrences(doc, name)[s] < |doc|
    ensures NameOf(ResolveName(doc, st, name).doc, Occurrences(doc, name)[s]) == Some(name + Decimal.Print(k))
    ensures k > 0 && name + Decimal.Print(k) !in st.used - {name}
    ensures FreeBetween(name, All(st.used - {name}), 0, k) == s + 1
  {
    hide Occurrences, References, RenameFrom, RedirectFrom, Decimal.Print, FreeBetween;
    var cleared, occ, start := st.(used := st.used - {name}), Occurrences(doc, name), All(st.used - {name});
    OccurrencesFacts(doc, name);
    NothingTaken(name, start, cleared.used);
    k := DefaultsInOrder(cleared, name, occ, 0, [], start, s);
    RenameResult(cleared, name, occ, 0, []);
    NameAfterGroup(doc, st, name, occ[s]);
  }

  lemma NothingTaken(name: string, start: iset<string>, used: set<string>)
    requires start == All(used)
    ensures FirstTaken(name, start, used, 0) && OnlyFirstTaken(name, start, used, 0)
  {
    forall k: nat | k > 0 && FreeBetween(name, start, 0, k) <= 0
      ensures name + Decimal.Print(k) in start
    {
    }
  }

  lemma {:induction false} RedirectingReadsNothing(doc: seq<Node>, refs: seq<Ref>, k: nat, newNames: seq<string>)
    requires RefsOf(refs, |doc|) && k <= |refs| && newNames != []
    ensures RedirectFrom(doc, [], refs, k, newNames).1 == []
    decreases |refs| - k
  {
    if k < |refs| {
      assert AskReference([], newNames[0], newNames) == (newNames[0], []);
      RedirectingReadsNothing(SetAttr(doc, refs[k].index, refs[k].attr, newNames[0]), refs, k + 1, newNames);
    }
  }

  lemma GroupTakesItsNumbers(doc: seq<Node>, st: State, name: string, taken: iset<string>)
    requires |st.doc| == |doc| && st.lines == [] && forall v :: v in taken ==> v in st.used
    ensures var t := ResolveName(doc, st, name);
            t.lines == [] && forall v :: v in ReachGroup(doc, taken, name) ==> v in t.used
  {
    hide Occurrences, References, RenameFrom, RedirectFrom, Decimal.Print;
    if Duplicated(doc, name) {
      var cleared, occ, start := st.(used := st.used - {name}), Occurrences(doc, name), taken - iset{name};
      OccurrencesFacts(doc, name);
      ReferencesFacts(doc, name);
      RenameResult(cleared, name, occ, 0, []);
      assert FirstTaken(name, start, cleared.used, 0) by {
        forall k: nat | k > 0 && FreeBetween(name, start, 0, k) <= 0
          ensures name + Decimal.Print(k) in start
        {
        }
      }
      DefaultsTakeTheFirst(cleared, name, occ, 0, [], start);
      var (renamed, newNames) := RenameFrom(cleared, name, occ, 0, []);
      RedirectingReadsNothing(renamed.doc, References(doc, name), 0, newNames);
    }
  }

  lemma {:induction false} RunTakesAllNumbers(doc: seq<Node>, st: State, order: seq<string>, taken: iset<string>)
    requires |st.doc| == |doc| && st.lines == [] && forall v :: v in taken ==> v in st.used
    ensures forall v :: v in ReachFrom(doc, taken, order) ==> v in ResolveFrom(doc, st, order).used
    decreases |order|
  {
    hide ResolveName, ReachGroup;
    if order != [] {
      GroupTakesItsNumbers(doc, st, order[0], taken);
      RunTakesAllNumbers(doc, ResolveName(doc, st, order[0]), order[1..], ReachGroup(doc, taken, order[0]));
    }
  }

  // ---------- exactly when a dangling reference can be captured ----------

  /** A reference to a name nobody has can come to name an element, for some answers of the user, if and only if
      - the name can be typed and the tree has a duplicated name, or
      - it cannot be typed (it is empty or has outer white space) and is a number some group can reach. */
  lemma DanglingReferenceCapturableIff(doc: seq<Node>, i: nat, a: string, v: string)
    requires i < |doc| && a in REF_ATTRS && Attr(doc[i], a) == Some(v) && !Defined(doc, v)
    ensures (exists lines :: NamesSomething(doc, lines, i, a))
            <==> if Typable(v) then exists n :: Duplicated(doc, n) else v in Reach(doc)
  {
    if Typable(v) {
      TypableCapturableIff(doc, i, a, v);
    } else {
      UntypableCapturableIff(doc, i, a, v);
    }
  }

  lemma TypableCapturableIff(doc: seq<Node>, i: nat, a: string, v: string)
    requires i < |doc| && a in REF_ATTRS && Attr(doc[i], a) == Some(v) && !Defined(doc, v) && Typable(v)
    ensures (exists lines :: NamesSomething(doc, lines, i, a)) <==> exists n :: Duplicated(doc, n)
  {
    hide Strip, Order, ResolveFrom, Duplicated;
    OrderFacts(doc);
    if n :| Duplicated(doc, n) {
      DuplicatedIsListed(doc, n);
      TypedIsTakenSomewhere(doc, Start(doc, [v]), Order(doc), v);
      NamesEndUpDistinct(doc, [v]);
      DanglingReferenceCapturedIff(doc, [v], i, a, v);
      assert NamesSomething(doc, [v], i, a);
    } else {
      forall lines
        ensures !NamesSomething(doc, lines, i, a)
      {
        NothingToResolve(doc, Start(doc, lines), Order(doc));
      }
    }
  }

  lemma UntypableCapturableIff(doc: seq<Node>, i: nat, a: string, v: string)
    requires i < |doc| && a in REF_ATTRS && Attr(doc[i], a) == Some(v) && !Defined(doc, v) && !Typable(v)
    ensures (exists lines :: NamesSomething(doc, lines, i, a)) <==> v in Reach(doc)
  {
    hide Typable, Order, ResolveFrom, ReachFrom;
    var taken := iset n | n in Order(doc);
    forall lines
      ensures NamesSomething(doc, lines, i, a) <==> v in Resolved(doc, lines).used
    {
      NamesEndUpDistinct(doc, lines);
      DanglingReferenceCapturedIff(doc, lines, i, a, v);
    }
    forall lines | NamesSomething(doc, lines, i, a)
      ensures v in Reach(doc)
    {
      RunStaysWithin(doc, Start(doc, lines), Order(doc), taken);
    }
    RunTakesAllNumbers(doc, Start(doc, []), Order(doc), taken);
    assert v in Reach(doc) ==> NamesSomething(doc, [], i, a);
  }

  // ---------- which answers capture it ----------

  ghost predicate NeverTyped(lines: seq<string>, v: string) {
    forall i :: 0 <= i < |lines| && Strip(lines[i]) != "" ==> Strip(lines[i]) != v
  }

  /** `v` is one of the names the run may offer. */
  ghost predicate Offered(doc: seq<Node>, v: string) {
    exists n, k: nat :: Duplicated(doc, n) && v == n + Decimal.Print(k)
  }

  lemma UnreadNeverTyped(lines: seq<string>, k: nat, v: string)
    requires NeverTyped(lines, v)
    ensures NeverTyped(Unread(lines, k), v)
  {
    hide Strip;
  }

  lemma {:induction false} RenamingTakesOnlyAnswers(st: State, name: string, occ: seq<nat>, i: nat,
                                                    newNames: seq<string>, v: string)
    requires IndicesOf(occ, |st.doc|) && i <= |occ| && v !in st.used && NeverTyped(st.lines, v)
    requires forall k: nat :: v != name + Decimal.Print(k)
    ensures var (r, _) := RenameFrom(st, name, occ, i, newNames);
            v !in r.used && NeverTyped(r.lines, v)
    decreases |occ| - i
  {
    hide AskName, DefaultName, NeverTyped, Decimal.Print;
    if i < |occ| {
      var default := DefaultName(name, st.used, i + 1);
      var k := NameIsFirstFreeAnswer(st.lines, default, st.used);
      var d := DefaultNameIsFirstFree(name, st.used, i + 1);
      UnreadNeverTyped(st.lines, k, v);
      var (chosen, rest) := AskName(st.lines, default, st.used);
      AnswerIsTypedOrDefault(st.lines, k, default, v);
      RenamingTakesOnlyAnswers(State(SetAttr(st.doc, occ[i], NAME, chosen), st.used + {chosen}, rest), name, occ, i + 1,
                               newNames + [chosen], v);
    }
  }

  lemma AnswerIsTypedOrDefault(lines: seq<string>, k: nat, default: string, v: string)
    requires NeverTyped(lines, v) && v != default
    ensures AnswerAt(lines, k, default) != v
  {
    hide Strip;
  }

  lemma {:induction false} RedirectingReadsOn(doc: seq<Node>, lines: seq<string>, refs: seq<Ref>, k: nat,
                                              newNames: seq<string>, v: string)
    requires RefsOf(refs, |doc|) && k <= |refs| && newNames != [] && NeverTyped(lines, v)
    ensures NeverTyped(RedirectFrom(doc, lines, refs, k, newNames).1, v)
    decreases |refs| - k
  {
    hide AskReference, NeverTyped;
    if k < |refs| {
      var j := ReferenceIsFirstOption(lines, newNames[0], newNames);
      UnreadNeverTyped(lines, j, v);
      var (chosen, rest) := AskReference(lines, newNames[0], newNames);
      RedirectingReadsOn(SetAttr(doc, refs[k].index, refs[k].attr, chosen), rest, refs, k + 1, newNames, v);
    }
  }

  lemma GroupTakesOnlyAnswers(doc: seq<Node>, st: State, name: string, v: string)
    requires |st.doc| == |doc| && v !in st.used && NeverTyped(st.lines, v) && !Offered(doc, v)
    ensures v !in ResolveName(doc, st, name).used && NeverTyped(ResolveName(doc, st, name).lines, v)
  {
    hide Occurrences, References, RenameFrom, RedirectFrom, NeverTyped, Decimal.Print;
    if Duplicated(doc, name) {
      var cleared, occ := st.(used := st.used - {name}), Occurrences(doc, name);
      OccurrencesFacts(doc, name);
      ReferencesFacts(doc, name);
      RenameResult(cleared, name, occ, 0, []);
      RenamingTakesOnlyAnswers(cleared, name, occ, 0, [], v);
      var (renamed, newNames) := RenameFrom(cleared, name, occ, 0, []);
      RedirectingReadsOn(renamed.doc, renamed.lines, References(doc, name), 0, newNames, v);
    }
  }

  lemma {:induction false} RunTakesOnlyAnswers(doc: seq<Node>, st: State, order: seq<string>, v: string)
    requires |st.doc| == |doc| && v !in st.used && NeverTyped(st.lines, v) && !Offered(doc, v)
    ensures v !in ResolveFrom(doc, st, order).used
    decreases |order|
  {
    hide ResolveName, NeverTyped, Offered;
    if order != [] {
      GroupTakesOnlyAnswers(doc, st, order[0], v);
      RunTakesOnlyAnswers(doc, ResolveName(doc, st, order[0]), order[1..], v);
    }
  }

  /** A run captures a reference to nobody only when its name was typed, or is a duplicated name with a number. */
  lemma CapturedOnlyByAnswers(doc: seq<Node>, lines: seq<string>, i: nat, a: string, v: string)
    requires i < |doc| && a in REF_ATTRS && Attr(doc[i], a) == Some(v) && !Defined(doc, v)
    requires NeverTyped(lines, v) && !Offered(doc, v)
    ensures !NamesSomething(doc, lines, i, a)
  {
    hide Strip, Order, ResolveFrom, Offered, NeverTyped;
    OrderFacts(doc);
    RunTakesOnlyAnswers(doc, Start(doc, lines), Order(doc), v);
    NamesEndUpDistinct(doc, lines);
    DanglingReferenceCapturedIff(doc, lines, i, a, v);
  }

  // ---------- a tree on which it happens ----------

  lemma FirstDefault(st: State, name: string, occ: seq<nat>)
    requires IndicesOf(occ, |st.doc|) && occ != [] && st.lines == [] && name + "1" !in st.used
    ensures RenameFrom(st, name, occ, 0, [])
            == RenameFrom(State(SetAttr(st.doc, occ[0], NAME, name + "1"), st.used + {name + "1"}, []), name, occ, 1,
                          [name + "1"])
  {
    var first := name + "1";
    NumberedInjective(name);
    assert Numbered(name)(1) == first;
    assert DefaultName(name, st.used, 1) == first;
    assert AskName(st.lines, first, st.used) == (first, []);
    assert [] + [first] == [first];
  }

  /** With no answers from the user, the first of several elements called `name` becomes `name`1
      when that is free. */
  lemma FirstDefaultName(doc: seq<Node>, st: State, name: string, e: nat)
    requires |st.doc| == |doc| && st.lines == [] && name + "1" !in st.used - {name}
    requires |Occurrences(doc, name)| > 1 && e == Occurrences(doc, name)[0] && e < |doc|
    ensures NameOf(ResolveName(doc, st, name).doc, e) == Some(name + "1")
  {
    hide Occurrences, References, RedirectFrom, RenameFrom;
    var occ, refs := Occurrences(doc, name), References(doc, name);
    OccurrencesFacts(doc, name);
    ReferencesFacts(doc, name);
    var cleared := st.(used := st.used - {name});
    var first := name + "1";
    var next := State(SetAttr(st.doc, occ[0], NAME, first), cleared.used + {first}, []);
    FirstDefault(cleared, name, occ);
    RenameResult(cleared, name, occ, 0, []);
    RenameResult(next, name, occ, 1, [first]);
    var (renamed, newNames) := RenameFrom(cleared, name, occ, 0, []);
    assert occ[0] !in occ[1..];
    assert Ref(occ[0], NAME) !in refs[0..];
    RedirectResult(renamed.doc, renamed.lines, refs, 0, newNames, occ[0], NAME);
  }

  lemma ExampleGroups(a: Node, r: Node)
    requires Attr(a, NAME) == Some("A") && Attr(r, NAME) == None
    ensures Order([a, a, r]) == ["A"] && Occurrences([a, a, r], "A") == [0, 1]
  {
    var doc := [a, a, r];
    assert doc[..2] == [a, a] && doc[..2][..1] == [a] && [a][..0] == [];
    assert Order([a]) == ["A"] && Order([a, a]) == ["A"];
    assert Occurrences([a], "A") == [0] && Occurrences([a, a], "A") == [0, 1];
  }

  /** Two elements called A and a reference to A1, which nothing is called: with the default answers
      the first of the two becomes A1, and the reference now names it. */
  lemma CaptureExample(a: Node, r: Node)
    requires Attr(a, NAME) == Some("A") && Attr(r, NAME) == None && Attr(r, "pulse") == Some("A1")
    ensures !Defined([a, a, r], "A1")
    ensures var end := Resolved([a, a, r], []).doc;
            |end| == 3 && NameOf(end, 0) == Some("A1") && Attr(end[2], "pulse") == Some("A1")
  {
    hide Order, Occurrences, ResolveName;
    var doc := [a, a, r];
    ExampleGroups(a, r);
    var st := Start(doc, []);
    assert ["A"][1..] == [] && ["A"][0] == "A";
    assert ResolveFrom(doc, st, ["A"]) == ResolveName(doc, st, "A");
    assert "A" + "1" == "A1";
    FirstDefaultName(doc, st, "A", 0);
    assert Resolved(doc, []) == ResolveName(doc, st, "A");
    DanglingReferenceCapturedIff(doc, [], 2, "pulse", "A1");
  }
}
