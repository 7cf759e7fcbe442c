/** `resolve_duplicate_names`: renames the elements that share a name, by dialogue with the
    user, and redirects the references to that name. The tree is the array of its
    elements in document order, which is the order `root.iter()` visits. */
module DuplicateNames {
  import opened Sorting
  import opened Wrappers
  import Decimal
  import FreshName

  datatype Node = Node(tag: string, attrs: map<string, string>)
  datatype Ref = Ref(index: nat, attr: string)

  const NAME: string := "name"
  const REF_ATTRS: seq<string> := ["pulse", "timing", "antenna"]

  // ---------- pass 1: definitions and references ----------

  function Attr(n: Node, a: string): Option<string> {
    if a in n.attrs then Some(n.attrs[a]) else None
  }

  function SetAttr(doc: seq<Node>, i: nat, a: string, v: string): seq<Node>
    requires i < |doc|
  {
    doc[i := doc[i].(attrs := doc[i].attrs[a := v])]
  }

  /** The names in order of first appearance: the iteration order of the `definitions` dictionary. */
  function Order(doc: seq<Node>): seq<string> {
    if doc == [] then []
    else
      var before, name := Order(doc[..|doc| - 1]), Attr(doc[|doc| - 1], NAME);
      if name.Some? && name.value !in before then before + [name.value] else before
  }

  function Occurrences(doc: seq<Node>, name: string): seq<nat> {
    if doc == [] then []
    else Occurrences(doc[..|doc| - 1], name) + (if Attr(doc[|doc| - 1], NAME) == Some(name) then [|doc| - 1] else [])
  }

  function RefsOfNode(n: Node, i: nat, value: string, attrs: seq<string>): seq<Ref> {
    if attrs == [] then []
    else RefsOfNode(n, i, value, attrs[..|attrs| - 1]) +
         (if Attr(n, attrs[|attrs| - 1]) == Some(value) then [Ref(i, attrs[|attrs| - 1])] else [])
  }

  function References(doc: seq<Node>, value: string): seq<Ref> {
    if doc == [] then []
    else References(doc[..|doc| - 1], value) + RefsOfNode(doc[|doc| - 1], |doc| - 1, value, REF_ATTRS)
  }

  // ---------- the dialogue ----------

  /** Characters `str.strip` removes. */
  predicate IsSpace(c: char) {
    var k := c as int;
    9 <= k <= 13 || 28 <= k <= 32 || k in {0x85, 0xA0, 0x1680, 0x2028, 0x2029, 0x202F, 0x205F, 0x3000}
        || 0x2000 <= k <= 0x200A
  }

  function Strip(s: string): string
    decreases |s|
  {
    if s == "" then s
    else if IsSpace(s[0]) then Strip(s[1..])
    else if IsSpace(s[|s| - 1]) then Strip(s[..|s| - 1])
    else s
  }

  /** `get_user_input`: `lines` is what the user will still type; after it comes the end of the input. */
  function UserInput(lines: seq<string>, default: string): (string, seq<string>) {
    if lines == [] then (default, [])
    else if Strip(lines[0]) == "" then (default, lines[1..])
    else (Strip(lines[0]), lines[1..])
  }

  /** Asks until the answer is a free name. */
  function AskName(lines: seq<string>, default: string, used: set<string>): (r: (string, seq<string>))
    requires default !in used
    ensures r.0 !in used
    decreases |lines|
  {
    var (answer, rest) := UserInput(lines, default);
    if answer in used then AskName(rest, default, used) else (answer, rest)
  }

  /** Asks until the answer is one of the options. */
  function AskReference(lines: seq<string>, default: string, options: seq<string>): (r: (string, seq<string>))
    requires default in options
    ensures r.0 in options
    decreases |lines|
  {
    var (answer, rest) := UserInput(lines, default);
    if answer !in options then AskReference(rest, default, options) else (answer, rest)
  }

  /** The answer to question `k`: what is typed, or the default for a blank line and after the end of the input. */
  function AnswerAt(lines: seq<string>, k: nat, default: string): string {
    if k < |lines| && Strip(lines[k]) != "" then Strip(lines[k]) else default
  }

  function Unread(lines: seq<string>, k: nat): seq<string> {
    if k < |lines| then lines[k + 1..] else []
  }

  lemma AnswerOfRest(lines: seq<string>, k: nat, default: string)
    requires lines != []
    ensures AnswerAt(lines, k + 1, default) == AnswerAt(lines[1..], k, default)
    ensures Unread(lines, k + 1) == Unread(lines[1..], k)
  {
    hide Strip;
  }

  /** The chosen name is the first answer that is free; nothing beyond it is read. */
  lemma {:induction false} NameIsFirstFreeAnswer(lines: seq<string>, default: string, used: set<string>)
    returns (k: nat)
    requires default !in used
    ensures k <= |lines| && AskName(lines, default, used) == (AnswerAt(lines, k, default), Unread(lines, k))
    ensures AnswerAt(lines, k, default) !in used && forall j :: 0 <= j < k ==> AnswerAt(lines, j, default) in used
    decreases |lines|
  {
    hide Strip;
    k := 0;
    if UserInput(lines, default).0 in used {
      var j := NameIsFirstFreeAnswer(lines[1..], default, used);
      k := j + 1;
      AnswerOfRest(lines, j, default);
      forall i | 0 <= i < k
        ensures AnswerAt(lines, i, default) in used
      {
        if i > 0 {
          AnswerOfRest(lines, i - 1, default);
        }
      }
    }
  }

  /** The chosen reference is the first answer that is one of the new names. */
  lemma {:induction false} ReferenceIsFirstOption(lines: seq<string>, default: string, options: seq<string>)
    returns (k: nat)
    requires default in options
    ensures k <= |lines| && AskReference(lines, default, options) == (AnswerAt(lines, k, default), Unread(lines, k))
    ensures AnswerAt(lines, k, default) in options && forall j :: 0 <= j < k ==> AnswerAt(lines, j, default) !in options
    decreases |lines|
  {
    hide Strip;
    k := 0;
    if UserInput(lines, default).0 !in options {
      var j := ReferenceIsFirstOption(lines[1..], default, options);
      k := j + 1;
      AnswerOfRest(lines, j, default);
      forall i | 0 <= i < k
        ensures AnswerAt(lines, i, default) !in options
      {
        if i > 0 {
          AnswerOfRest(lines, i - 1, default);
        }
      }
    }
  }

  function Numbered(name: string): nat -> string {
    (k: nat) => name + Decimal.Print(k)
  }

  lemma NumberedInjective(name: string)
    ensures FreshName.Injective(Numbered(name))
  {
    hide Decimal.Print;
    forall i: nat, j: nat | Numbered(name)(i) == Numbered(name)(j)
      ensures i == j
    {
      assert Numbered(name)(i)[|name|..] == Decimal.Print(i);
      assert Numbered(name)(j)[|name|..] == Decimal.Print(j);
      Decimal.PrintInjective(i, j);
    }
  }

  function DefaultName(name: string, used: set<string>, counter: nat): (r: string)
    ensures r !in used
  {
    NumberedInjective(name);
    Numbered(name)(FreshName.FirstFree(Numbered(name), used, counter))
  }

  /** The default offered is the first numbered name, counting from the occurrence's place, that is free. */
  lemma DefaultNameIsFirstFree(name: string, used: set<string>, counter: nat) returns (k: nat)
    ensures k >= counter && DefaultName(name, used, counter) == name + Decimal.Print(k)
    ensures name + Decimal.Print(k) !in used && forall j :: counter <= j < k ==> name + Decimal.Print(j) in used
  {
    hide Decimal.Print;
    NumberedInjective(name);
    k := FreshName.FirstFree(Numbered(name), used, counter);
    assert forall j: nat :: Numbered(name)(j) == name + Decimal.Print(j);
  }

  // ---------- passes 2 and 3 ----------

  datatype State = State(doc: seq<Node>, used: set<string>, lines: seq<string>)

  ghost predicate IndicesOf(occ: seq<nat>, n: nat) {
    && (forall s :: 0 <= s < |occ| ==> occ[s] < n)
    && (forall s, t :: 0 <= s < t < |occ| ==> occ[s] != occ[t])
  }

  /** Renames occurrence `i` and those after it. */
  function RenameFrom(st: State, name: string, occ: seq<nat>, i: nat, newNames: seq<string>): (State, seq<string>)
    requires IndicesOf(occ, |st.doc|) && i <= |occ|
    decreases |occ| - i
  {
    if i == |occ| then (st, newNames)
    else
      var (chosen, rest) := AskName(st.lines, DefaultName(name, st.used, i + 1), st.used);
      RenameFrom(State(SetAttr(st.doc, occ[i], NAME, chosen), st.used + {chosen}, rest), name, occ, i + 1,
                 newNames + [chosen])
  }

  ghost predicate RefsOf(refs: seq<Ref>, n: nat) {
    forall s :: 0 <= s < |refs| ==> refs[s].index < n && refs[s].attr in REF_ATTRS
  }

  function RedirectFrom(doc: seq<Node>, lines: seq<string>, refs: seq<Ref>, k: nat, newNames: seq<string>)
    : (seq<Node>, seq<string>)
    requires RefsOf(refs, |doc|) && k <= |refs| && newNames != []
    decreases |refs| - k
  {
    if k == |refs| then (doc, lines)
    else
      var (chosen, rest) := AskReference(lines, newNames[0], newNames);
      RedirectFrom(SetAttr(doc, refs[k].index, refs[k].attr, chosen), rest, refs, k + 1, newNames)
  }

  lemma {:induction false} OccurrencesFacts(doc: seq<Node>, name: string)
    ensures IndicesOf(Occurrences(doc, name), |doc|)
    ensures forall i :: 0 <= i < |doc| ==> (i in Occurrences(doc, name) <==> Attr(doc[i], NAME) == Some(name))
  {
    if doc != [] {
      OccurrencesFacts(doc[..|doc| - 1], name);
      assert forall i :: 0 <= i < |doc| - 1 ==> doc[i] == doc[..|doc| - 1][i];
    }
  }

  lemma {:induction false} RefsOfNodeFacts(n: Node, i: nat, value: string, attrs: seq<string>)
    ensures forall r ::
              r in RefsOfNode(n, i, value, attrs) <==> r.index == i && r.attr in attrs && Attr(n, r.attr) == Some(value)
  {
    if attrs != [] {
      RefsOfNodeFacts(n, i, value, attrs[..|attrs| - 1]);
      assert attrs == attrs[..|attrs| - 1] + [attrs[|attrs| - 1]];
    }
  }

  lemma {:induction false} ReferencesFacts(doc: seq<Node>, value: string)
    ensures forall r :: r in References(doc, value) <==>
              r.index < |doc| && r.attr in REF_ATTRS && Attr(doc[r.index], r.attr) == Some(value)
    ensures RefsOf(References(doc, value), |doc|)
  {
    if doc != [] {
      ReferencesFacts(doc[..|doc| - 1], value);
      RefsOfNodeFacts(doc[|doc| - 1], |doc| - 1, value, REF_ATTRS);
    }
    assert forall s :: 0 <= s < |References(doc, value)| ==> References(doc, value)[s] in References(doc, value);
  }

  function ResolveName(doc: seq<Node>, st: State, name: string): (r: State)
    requires |st.doc| == |doc|
    ensures |r.doc| == |doc|
  {
    var occ := Occurrences(doc, name);
    if |occ| <= 1 then st
    else
      OccurrencesFacts(doc, name);
      var (renamed, newNames) := RenameFrom(st.(used := st.used - {name}), name, occ, 0, []);
      RenameResult(st.(used := st.used - {name}), name, occ, 0, []);
      ReferencesFacts(doc, name);
      var (redirected, rest) := RedirectFrom(renamed.doc, renamed.lines, References(doc, name), 0, newNames);
      RedirectLength(renamed.doc, renamed.lines, References(doc, name), 0, newNames);
      State(redirected, renamed.used, rest)
  }

  function ResolveFrom(doc: seq<Node>, st: State, order: seq<string>): (r: State)
    requires |st.doc| == |doc|
    ensures |r.doc| == |doc|
    decreases |order|
  {
    if order == [] then st else ResolveFrom(doc, ResolveName(doc, st, order[0]), order[1..])
  }

  function Start(doc: seq<Node>, lines: seq<string>): State {
    State(doc, (set v | v in Order(doc)), lines)
  }

  function Resolved(doc: seq<Node>, lines: seq<string>): State {
    ResolveFrom(doc, Start(doc, lines), Order(doc))
  }

  // ---------- what renaming a group of elements does ----------

  /** Renaming occurrences `i` on turns `st` into `r`: the new names are appended one per occurrence, all different from
      each other and from every name in use; only the NAME attribute of the occurrences changes. */
  ghost predicate RenamedAs(st: State, occ: seq<nat>, i: nat, newNames: seq<string>, r: State, names: seq<string>)
    requires IndicesOf(occ, |st.doc|) && i <= |occ|
  {
    && |r.doc| == |st.doc|
    && |names| == |occ| && newNames <= names && Distinct(names)
    && (forall s :: i <= s < |occ| ==> names[s] !in st.used)
    && (forall v :: v in r.used <==> v in st.used || v in names)
    && (forall s :: i <= s < |occ| ==>
          r.doc[occ[s]] == st.doc[occ[s]].(attrs := st.doc[occ[s]].attrs[NAME := names[s]]))
    && (forall e :: 0 <= e < |st.doc| && e !in occ[i..] ==> r.doc[e] == st.doc[e])
  }

  lemma RenamedOneMore(st: State, occ: seq<nat>, i: nat, newNames: seq<string>, chosen: string, next: State, r: State,
                       names: seq<string>)
    requires IndicesOf(occ, |st.doc|) && i < |occ| && |newNames| == i && chosen !in st.used
    requires next.doc == SetAttr(st.doc, occ[i], NAME, chosen) && next.used == st.used + {chosen}
    requires RenamedAs(next, occ, i + 1, newNames + [chosen], r, names)
    ensures RenamedAs(st, occ, i, newNames, r, names)
  {
    hide Distinct;
    assert names[i] == (newNames + [chosen])[i] == chosen;
    assert newNames == (newNames + [chosen])[..i] == names[..i];
    assert occ[i..] == [occ[i]] + occ[i + 1..];
    assert occ[i] !in occ[i + 1..];
    assert forall s :: i < s < |occ| ==> next.doc[occ[s]] == st.doc[occ[s]];
    assert forall e :: 0 <= e < |st.doc| && e != occ[i] ==> next.doc[e] == st.doc[e];
  }

  lemma {:induction false} RenameResult(st: State, name: string, occ: seq<nat>, i: nat, newNames: seq<string>)
    requires IndicesOf(occ, |st.doc|) && i <= |occ| && |newNames| == i
    requires Distinct(newNames) && forall s :: 0 <= s < i ==> newNames[s] in st.used
    ensures var (r, names) := RenameFrom(st, name, occ, i, newNames);
            RenamedAs(st, occ, i, newNames, r, names)
    decreases |occ| - i
  {
    hide AskName, DefaultName;
    if i < |occ| {
      var (chosen, rest) := AskName(st.lines, DefaultName(name, st.used, i + 1), st.used);
      var next := State(SetAttr(st.doc, occ[i], NAME, chosen), st.used + {chosen}, rest);
      var (r, names) := RenameFrom(next, name, occ, i + 1, newNames + [chosen]);
      assert RenamedAs(st, occ, i, newNames, r, names) by {
        hide RenameFrom;
        RenameResult(next, name, occ, i + 1, newNames + [chosen]);
        RenamedOneMore(st, occ, i, newNames, chosen, next, r, names);
      }
    }
  }

  lemma {:induction false} RedirectLength(doc: seq<Node>, lines: seq<string>, refs: seq<Ref>, k: nat,
                                          newNames: seq<string>)
    requires RefsOf(refs, |doc|) && k <= |refs| && newNames != []
    ensures |RedirectFrom(doc, lines, refs, k, newNames).0| == |doc|
    decreases |refs| - k
  {
    if k < |refs| {
      var (chosen, rest) := AskReference(lines, newNames[0], newNames);
      RedirectLength(SetAttr(doc, refs[k].index, refs[k].attr, chosen), rest, refs, k + 1, newNames);
    }
  }

  /** Every listed reference ends up with one of the new names; nothing else changes. */
  lemma {:induction false} RedirectResult(doc: seq<Node>, lines: seq<string>, refs: seq<Ref>, k: nat,
                                          newNames: seq<string>, e: nat, a: string)
    requires RefsOf(refs, |doc|) && k <= |refs| && newNames != [] && e < |doc|
    ensures var r := RedirectFrom(doc, lines, refs, k, newNames).0;
            && |r| == |doc| && r[e].tag == doc[e].tag
            && (if Ref(e, a) in refs[k..] then Attr(r[e], a).Some? && Attr(r[e], a).value in newNames
                else Attr(r[e], a) == Attr(doc[e], a))
    decreases |refs| - k
  {
    if k < |refs| {
      var (chosen, rest) := AskReference(lines, newNames[0], newNames);
      RedirectResult(SetAttr(doc, refs[k].index, refs[k].attr, chosen), rest, refs, k + 1, newNames, e, a);
      assert refs[k..] == [refs[k]] + refs[k + 1..];
    }
  }

  // ---------- the invariant of the whole run ----------

  function NameOf(doc: seq<Node>, i: nat): Option<string>
    requires i < |doc|
  {
    Attr(doc[i], NAME)
  }

  ghost predicate Defined(doc: seq<Node>, v: string) {
    exists i :: 0 <= i < |doc| && NameOf(doc, i) == Some(v)
  }

  /** `v` names more than one element and its group has been dealt with. */
  ghost predicate Renamed(doc: seq<Node>, done: set<string>, v: string) {
    v in done && |Occurrences(doc, v)| > 1
  }

  /** A reference whose name was given up names an element that had that name; any other is untouched. */
  ghost predicate RefFollows(doc: seq<Node>, now: seq<Node>, done: set<string>, i: nat, a: string)
    requires |now| == |doc| && i < |doc|
  {
    match Attr(doc[i], a)
    case None => Attr(now[i], a) == None
    case Some(v) =>
      if Renamed(doc, done, v) then
        exists j :: 0 <= j < |doc| && NameOf(doc, j) == Some(v) && NameOf(now, j).Some?
                    && Attr(now[i], a) == NameOf(now, j)
      else Attr(now[i], a) == Some(v)
  }

  ghost predicate NamesFollow(doc: seq<Node>, now: seq<Node>, done: set<string>)
    requires |now| == |doc|
  {
    && (forall i :: 0 <= i < |doc| ==> (NameOf(doc, i).Some? <==> NameOf(now, i).Some?))
    && (forall i :: 0 <= i < |doc| && NameOf(doc, i).Some? && !Renamed(doc, done, NameOf(doc, i).value) ==>
          NameOf(now, i) == NameOf(doc, i))
  }

  /** Two elements share a name now only if they shared it at the start and have not been dealt with. */
  ghost predicate SharedOnlyIfPending(doc: seq<Node>, now: seq<Node>, done: set<string>)
    requires |now| == |doc|
  {
    forall i, j :: 0 <= i < j < |doc| && NameOf(now, i).Some? && NameOf(now, i) == NameOf(now, j) ==>
      NameOf(doc, i) == NameOf(doc, j) && NameOf(doc, i).Some? && !Renamed(doc, done, NameOf(doc, i).value)
  }

  ghost predicate Inv(doc: seq<Node>, st: State, done: set<string>) {
    && |st.doc| == |doc|
    && NamesFollow(doc, st.doc, done)
    && SharedOnlyIfPending(doc, st.doc, done)
    && (forall v :: v in st.used <==> Defined(st.doc, v))
    && (forall i, a :: 0 <= i < |doc| && a in REF_ATTRS ==> RefFollows(doc, st.doc, done, i, a))
  }

  /** What dealing with a shared name does to the whole tree. */
  ghost predicate GroupRenamed(doc: seq<Node>, st: State, t: State, name: string, newNames: seq<string>) {
    var occ := Occurrences(doc, name);
    && |t.doc| == |st.doc| == |doc| && |newNames| == |occ| && Distinct(newNames) && IndicesOf(occ, |doc|)
    && (forall s :: 0 <= s < |occ| ==> NameOf(t.doc, occ[s]) == Some(newNames[s]))
    && (forall e :: 0 <= e < |doc| && e !in occ ==> NameOf(t.doc, e) == NameOf(st.doc, e))
    && (forall s :: 0 <= s < |occ| ==> newNames[s] !in st.used - {name})
    && (forall v :: v in t.used <==> v in st.used - {name} || v in newNames)
    && (forall e, a :: 0 <= e < |doc| && a in REF_ATTRS ==>
          if Attr(doc[e], a) == Some(name) then Attr(t.doc[e], a).Some? && Attr(t.doc[e], a).value in newNames
          else Attr(t.doc[e], a) == Attr(st.doc[e], a))
  }

  lemma GroupResult(doc: seq<Node>, st: State, name: string) returns (newNames: seq<string>)
    requires |st.doc| == |doc| && |Occurrences(doc, name)| > 1
    ensures GroupRenamed(doc, st, ResolveName(doc, st, name), name, newNames)
  {
    hide RenameFrom, RedirectFrom, Occurrences, References;
    var occ := Occurrences(doc, name);
    var cleared := st.(used := st.used - {name});
    OccurrencesFacts(doc, name);
    ReferencesFacts(doc, name);
    RenameResult(cleared, name, occ, 0, []);
    var (renamed, names) := RenameFrom(cleared, name, occ, 0, []);
    newNames := names;
    var t := ResolveName(doc, st, name);
    assert occ[0..] == occ;
    assert |t.doc| == |doc| && t.used == renamed.used;
    forall e | 0 <= e < |doc|
      ensures NameOf(t.doc, e) == NameOf(renamed.doc, e)
    {
      NameAfterGroup(doc, st, name, e);
    }
    forall e, a | 0 <= e < |doc| && a in REF_ATTRS
      ensures if Attr(doc[e], a) == Some(name) then Attr(t.doc[e], a).Some? && Attr(t.doc[e], a).value in newNames
              else Attr(t.doc[e], a) == Attr(st.doc[e], a)
    {
      ReferenceAfterGroup(doc, st, name, e, a);
    }
    hide ResolveName;
  }

  /** Redirecting references leaves the names of the elements alone. */
  lemma NameAfterGroup(doc: seq<Node>, st: State, name: string, e: nat)
    requires |st.doc| == |doc| && |Occurrences(doc, name)| > 1 && e < |doc|
    requires IndicesOf(Occurrences(doc, name), |doc|)
    ensures var (renamed, _) := RenameFrom(st.(used := st.used - {name}), name, Occurrences(doc, name), 0, []);
            |renamed.doc| == |doc| && NameOf(ResolveName(doc, st, name).doc, e) == NameOf(renamed.doc, e)
  {
    hide RenameFrom, RedirectFrom, Occurrences, References;
    var occ, refs := Occurrences(doc, name), References(doc, name);
    ReferencesFacts(doc, name);
    RenameResult(st.(used := st.used - {name}), name, occ, 0, []);
    var (renamed, names) := RenameFrom(st.(used := st.used - {name}), name, occ, 0, []);
    assert refs[0..] == refs && Ref(e, NAME) !in refs;
    RedirectResult(renamed.doc, renamed.lines, refs, 0, names, e, NAME);
  }

  /** A reference to the name gets one of the new names; every other one stays. */
  lemma ReferenceAfterGroup(doc: seq<Node>, st: State, name: string, e: nat, a: string)
    requires |st.doc| == |doc| && |Occurrences(doc, name)| > 1 && e < |doc| && a in REF_ATTRS
    requires IndicesOf(Occurrences(doc, name), |doc|)
    ensures var (_, names) := RenameFrom(st.(used := st.used - {name}), name, Occurrences(doc, name), 0, []);
            var t := ResolveName(doc, st, name);
            if Attr(doc[e], a) == Some(name) then Attr(t.doc[e], a).Some? && Attr(t.doc[e], a).value in names
            else Attr(t.doc[e], a) == Attr(st.doc[e], a)
  {
    hide RenameFrom, RedirectFrom, Occurrences, References;
    var occ, refs := Occurrences(doc, name), References(doc, name);
    ReferencesFacts(doc, name);
    RenameResult(st.(used := st.used - {name}), name, occ, 0, []);
    var (renamed, names) := RenameFrom(st.(used := st.used - {name}), name, occ, 0, []);
    assert refs[0..] == refs && occ[0..] == occ;
    assert Attr(renamed.doc[e], a) == Attr(st.doc[e], a) by {
      if e in occ {
        var s :| 0 <= s < |occ| && occ[s] == e;
      }
    }
    RedirectResult(renamed.doc, renamed.lines, refs, 0, names, e, a);
  }

  lemma GroupKeepsNames(doc: seq<Node>, st: State, t: State, name: string, newNames: seq<string>, done: set<string>)
    requires Inv(doc, st, done) && name !in done && GroupRenamed(doc, st, t, name, newNames)
    requires |Occurrences(doc, name)| > 1
    ensures NamesFollow(doc, t.doc, done + {name})
    ensures SharedOnlyIfPending(doc, t.doc, done + {name})
  {
    hide Occurrences;
    var occ := Occurrences(doc, name);
    OccurrencesFacts(doc, name);
    assert forall s, u :: 0 <= s < |occ| && 0 <= u < |occ| && NameOf(t.doc, occ[s]) == NameOf(t.doc, occ[u]) ==> s == u;
    forall i, j | 0 <= i < j < |doc| && NameOf(t.doc, i).Some? && NameOf(t.doc, i) == NameOf(t.doc, j)
      ensures i !in occ && j !in occ
    {
      if i in occ && j !in occ {
        NewNameIsFree(doc, st, t, name, newNames, done, i, j);
      } else if j in occ && i !in occ {
        NewNameIsFree(doc, st, t, name, newNames, done, j, i);
      }
    }
  }

  lemma NewNameIsFree(doc: seq<Node>, st: State, t: State, name: string, newNames: seq<string>, done: set<string>,
                      i: nat, j: nat)
    requires Inv(doc, st, done) && name !in done && GroupRenamed(doc, st, t, name, newNames)
    requires i < |doc| && j < |doc| && i in Occurrences(doc, name) && j !in Occurrences(doc, name)
    ensures NameOf(t.doc, i) != NameOf(t.doc, j)
  {
    hide Occurrences;
    var occ := Occurrences(doc, name);
    OccurrencesFacts(doc, name);
    var s :| 0 <= s < |occ| && occ[s] == i;
    var held := NameOf(st.doc, j);
    if held.Some? {
      assert Defined(st.doc, held.value);
      if held.value == name {
        OccurrenceShares(doc, st, name, done, j);
      }
    }
  }

  lemma GroupKeepsUsed(doc: seq<Node>, st: State, t: State, name: string, newNames: seq<string>, done: set<string>,
                       v: string)
    requires Inv(doc, st, done) && name !in done && GroupRenamed(doc, st, t, name, newNames)
    requires |Occurrences(doc, name)| > 1
    ensures v in t.used <==> Defined(t.doc, v)
  {
    hide Occurrences;
    var occ := Occurrences(doc, name);
    OccurrencesFacts(doc, name);
    if v in newNames {
      var s :| 0 <= s < |occ| && newNames[s] == v;
      assert NameOf(t.doc, occ[s]) == Some(v);
    } else if v in t.used {
      var e :| 0 <= e < |doc| && NameOf(st.doc, e) == Some(v);
      assert e !in occ;
      assert NameOf(t.doc, e) == Some(v);
    } else if Defined(t.doc, v) {
      var e :| 0 <= e < |doc| && NameOf(t.doc, e) == Some(v);
      assert forall s :: 0 <= s < |occ| ==> NameOf(t.doc, occ[s]) != Some(v);
      assert e !in occ;
      assert Defined(st.doc, v);
      OccurrenceShares(doc, st, name, done, e);
    }
  }

  /** Before its group is dealt with, only the occurrences carry a name. */
  lemma OccurrenceShares(doc: seq<Node>, st: State, name: string, done: set<string>, e: nat)
    requires Inv(doc, st, done) && name !in done && Occurrences(doc, name) != []
    requires e < |doc| && NameOf(st.doc, e) == Some(name)
    ensures e in Occurrences(doc, name)
  {
    hide Occurrences;
    var occ := Occurrences(doc, name);
    OccurrencesFacts(doc, name);
    var i := occ[0];
    assert NameOf(st.doc, i) == Some(name);
    assert i < e || e < i || e == i;
  }

  lemma GroupKeepsReference(doc: seq<Node>, st: State, t: State, name: string, newNames: seq<string>, done: set<string>,
                            i: nat, a: string)
    requires Inv(doc, st, done) && name !in done && GroupRenamed(doc, st, t, name, newNames)
    requires |Occurrences(doc, name)| > 1 && i < |doc| && a in REF_ATTRS
    ensures RefFollows(doc, t.doc, done + {name}, i, a)
  {
    hide Occurrences, NamesFollow, SharedOnlyIfPending;
    var occ := Occurrences(doc, name);
    OccurrencesFacts(doc, name);
    assert RefFollows(doc, st.doc, done, i, a);
    hide Inv, Distinct, IndicesOf;
    if Attr(doc[i], a) == Some(name) {
      var s :| 0 <= s < |newNames| && newNames[s] == Attr(t.doc[i], a).value;
      assert NameOf(doc, occ[s]) == Some(name) && NameOf(t.doc, occ[s]) == Attr(t.doc[i], a);
    } else if Attr(doc[i], a).Some? {
      var v := Attr(doc[i], a).value;
      if Renamed(doc, done, v) {
        var j :| 0 <= j < |doc| && NameOf(doc, j) == Some(v) && NameOf(st.doc, j).Some?
                 && Attr(st.doc[i], a) == NameOf(st.doc, j);
        assert j !in occ;
        assert NameOf(t.doc, j) == NameOf(st.doc, j);
      }
    }
  }

  lemma ResolveNameKeepsInv(doc: seq<Node>, st: State, name: string, done: set<string>)
    requires Inv(doc, st, done) && name !in done
    ensures Inv(doc, ResolveName(doc, st, name), done + {name})
  {
    hide ResolveName, Occurrences, NamesFollow, SharedOnlyIfPending, RefFollows;
    var t := ResolveName(doc, st, name);
    if |Occurrences(doc, name)| > 1 {
      var newNames := GroupResult(doc, st, name);
      GroupKeepsNames(doc, st, t, name, newNames, done);
      forall v
        ensures v in t.used <==> Defined(t.doc, v)
      {
        GroupKeepsUsed(doc, st, t, name, newNames, done, v);
      }
      forall i, a | 0 <= i < |doc| && a in REF_ATTRS
        ensures RefFollows(doc, t.doc, done + {name}, i, a)
      {
        GroupKeepsReference(doc, st, t, name, newNames, done, i, a);
      }
    } else {
      SingleKeepsInv(doc, st, name, done);
    }
  }

  lemma SingleKeepsInv(doc: seq<Node>, st: State, name: string, done: set<string>)
    requires Inv(doc, st, done) && |Occurrences(doc, name)| <= 1
    ensures ResolveName(doc, st, name) == st && Inv(doc, st, done + {name})
  {
    assert ResolveName(doc, st, name) == st;
    hide ResolveName, Occurrences;
    assert forall v :: Renamed(doc, done + {name}, v) <==> Renamed(doc, done, v);
    hide Renamed;
    assert forall i, a :: 0 <= i < |doc| && a in REF_ATTRS && RefFollows(doc, st.doc, done, i, a) ==>
        RefFollows(doc, st.doc, done + {name}, i, a);
  }

  lemma DistinctRest(order: seq<string>)
    requires order != [] && Distinct(order)
    ensures Distinct(order[1..]) && order[0] !in order[1..]
    ensures (set v | v in order) == {order[0]} + (set v | v in order[1..])
  {
  }

  lemma {:induction false} ResolveFromKeepsInv(doc: seq<Node>, st: State, order: seq<string>, done: set<string>)
    requires Inv(doc, st, done) && Distinct(order) && forall v :: v in order ==> v !in done
    ensures Inv(doc, ResolveFrom(doc, st, order), done + (set v | v in order))
    decreases |order|
  {
    assert |st.doc| == |doc|;
    hide Inv, ResolveName, Distinct;
    if order == [] {
      assert done + (set v | v in order) == done;
    } else {
      var next, rest := ResolveName(doc, st, order[0]), set v | v in order[1..];
      DistinctRest(order);
      ResolveNameKeepsInv(doc, st, order[0], done);
      ResolveFromKeepsInv(doc, next, order[1..], done + {order[0]});
      assert done + {order[0]} + rest == done + ({order[0]} + rest);
    }
  }

  lemma {:induction false} OrderFacts(doc: seq<Node>)
    ensures Distinct(Order(doc))
    ensures forall v :: v in Order(doc) <==> Defined(doc, v)
  {
    if doc != [] {
      var init := doc[..|doc| - 1];
      OrderFacts(init);
      forall v
        ensures v in Order(doc) <==> Defined(doc, v)
      {
        if Defined(doc, v) {
          var i :| 0 <= i < |doc| && NameOf(doc, i) == Some(v);
          assert i < |init| ==> NameOf(init, i) == Some(v);
        }
        if Defined(init, v) {
          var i :| 0 <= i < |init| && NameOf(init, i) == Some(v);
          assert NameOf(doc, i) == Some(v);
        }
        assert NameOf(doc, |doc| - 1) == Attr(doc[|doc| - 1], NAME);
      }
    }
  }

  /** The invariant at the end of the run, for every tree and every input. */
  lemma ResolvedInv(doc: seq<Node>, lines: seq<string>) returns (done: set<string>)
    ensures Inv(doc, Resolved(doc, lines), done)
    ensures forall v :: v in done <==> Defined(doc, v)
  {
    OrderFacts(doc);
    done := set v | v in Order(doc);
    forall i, a | 0 <= i < |doc| && a in REF_ATTRS
      ensures RefFollows(doc, doc, {}, i, a)
    {
    }
    assert Inv(doc, Start(doc, lines), {});
    ResolveFromKeepsInv(doc, Start(doc, lines), Order(doc), {});
    assert {} + done == done;
  }

  lemma {:induction false} SingleOccurrence(doc: seq<Node>, v: string, i: nat, j: nat)
    requires i < j < |doc| && NameOf(doc, i) == Some(v) && NameOf(doc, j) == Some(v)
    ensures |Occurrences(doc, v)| > 1
  {
    hide Occurrences;
    var occ := Occurrences(doc, v);
    OccurrencesFacts(doc, v);
    var s :| 0 <= s < |occ| && occ[s] == i;
    var t :| 0 <= t < |occ| && occ[t] == j;
  }

  /** After the run no two elements share a name, and `used_names` is exactly the set of names in the tree. */
  lemma NamesEndUpDistinct(doc: seq<Node>, lines: seq<string>)
    ensures var end := Resolved(doc, lines);
            && |end.doc| == |doc|
            && (forall i, j :: 0 <= i < j < |doc| && NameOf(end.doc, i).Some? ==>
                  NameOf(end.doc, i) != NameOf(end.doc, j))
            && (forall v :: v in end.used <==> Defined(end.doc, v))
            && (forall i :: 0 <= i < |doc| ==> (NameOf(doc, i).Some? <==> NameOf(end.doc, i).Some?))
  {
    hide Resolved;
    var done := ResolvedInv(doc, lines);
    var end := Resolved(doc, lines);
    forall i, j | 0 <= i < j < |doc| && NameOf(end.doc, i).Some?
      ensures NameOf(end.doc, i) != NameOf(end.doc, j)
    {
      if NameOf(end.doc, i) == NameOf(end.doc, j) {
        SingleOccurrence(doc, NameOf(doc, i).value, i, j);
      }
    }
  }

  /** Every reference whose name was defined names exactly one element afterwards, and that
      element had the referenced name before. */
  lemma ReferencesKeepTheirMeaning(doc: seq<Node>, lines: seq<string>, i: nat, a: string, v: string)
    requires i < |doc| && a in REF_ATTRS && Attr(doc[i], a) == Some(v) && Defined(doc, v)
    ensures var end := Resolved(doc, lines).doc;
            && |end| == |doc|
            && (exists j :: 0 <= j < |doc| && NameOf(end, j) == Attr(end[i], a) && NameOf(doc, j) == Some(v)
                  && forall k :: 0 <= k < |doc| && NameOf(end, k) == Attr(end[i], a) ==> k == j)
  {
    hide Resolved;
    var done := ResolvedInv(doc, lines);
    var end := Resolved(doc, lines).doc;
    NamesEndUpDistinct(doc, lines);
    assert RefFollows(doc, end, done, i, a);
    var j: nat;
    if Renamed(doc, done, v) {
      j :| 0 <= j < |doc| && NameOf(doc, j) == Some(v) && NameOf(end, j).Some? && Attr(end[i], a) == NameOf(end, j);
    } else {
      j :| 0 <= j < |doc| && NameOf(doc, j) == Some(v);
      assert NameOf(end, j) == Some(v);
    }
    assert forall k :: 0 <= k < |doc| && NameOf(end, k) == Attr(end[i], a) ==> k == j;
  }

  /** A reference to a name nobody had is left as it is. It names an element afterwards exactly when
      one of the renamed elements was given that name, so the run can capture it. */
  lemma DanglingReferenceCapturedIff(doc: seq<Node>, lines: seq<string>, i: nat, a: string, v: string)
    requires i < |doc| && a in REF_ATTRS && Attr(doc[i], a) == Some(v) && !Defined(doc, v)
    ensures var end := Resolved(doc, lines).doc;
            && |end| == |doc| && Attr(end[i], a) == Some(v)
            && (Defined(end, v) <==>
                exists j :: 0 <= j < |doc| && NameOf(end, j) == Some(v)
                  && NameOf(doc, j).Some? && |Occurrences(doc, NameOf(doc, j).value)| > 1)
  {
    hide Resolved, Occurrences;
    var done := ResolvedInv(doc, lines);
    var end := Resolved(doc, lines).doc;
    assert RefFollows(doc, end, done, i, a);
    if Defined(end, v) {
      var j :| 0 <= j < |doc| && NameOf(end, j) == Some(v);
      assert NameOf(doc, j) != Some(v);
      assert NameOf(doc, j).Some? && Renamed(doc, done, NameOf(doc, j).value);
    }
  }

  // ---------- which name a reference gets ----------

  /** `v` is what one of the lines says, white space around it apart. */
  ghost predicate Typed(lines: seq<string>, v: string) {
    v != "" && exists l :: l in lines && Strip(l) == v
  }

  /** The answer to a question is the default or typed, and what is left to read was there before. */
  lemma ReferenceAnswer(lines: seq<string>, default: string, options: seq<string>)
    requires default in options
    ensures var (chosen, rest) := AskReference(lines, default, options);
            && (chosen == default || Typed(lines, chosen))
            && (forall v :: Typed(rest, v) ==> Typed(lines, v))
  {
    hide Strip;
    var k := ReferenceIsFirstOption(lines, default, options);
  }

  lemma NameAnswer(lines: seq<string>, default: string, used: set<string>)
    requires default !in used
    ensures var (chosen, rest) := AskName(lines, default, used);
            && (chosen == default || Typed(lines, chosen))
            && (forall v :: Typed(rest, v) ==> Typed(lines, v))
  {
    hide Strip;
    var k := NameIsFirstFreeAnswer(lines, default, used);
  }

  lemma {:induction false} RenamingReadsOn(st: State, name: string, occ: seq<nat>, i: nat, newNames: seq<string>,
                                           v: string)
    requires IndicesOf(occ, |st.doc|) && i <= |occ| && Typed(RenameFrom(st, name, occ, i, newNames).0.lines, v)
    ensures Typed(st.lines, v)
    decreases |occ| - i
  {
    hide AskName, DefaultName, Typed;
    if i < |occ| {
      var default := DefaultName(name, st.used, i + 1);
      NameAnswer(st.lines, default, st.used);
      var (chosen, rest) := AskName(st.lines, default, st.used);
      RenamingReadsOn(State(SetAttr(st.doc, occ[i], NAME, chosen), st.used + {chosen}, rest), name, occ, i + 1,
                      newNames + [chosen], v);
    }
  }

  /** Every listed reference gets the first of the new names, unless the user typed another. */
  lemma {:induction false} RedirectingByDefault(doc: seq<Node>, lines: seq<string>, refs: seq<Ref>, k: nat,
                                                newNames: seq<string>, e: nat, a: string)
    requires RefsOf(refs, |doc|) && k <= |refs| && newNames != [] && e < |doc|
    ensures var (r, rest) := RedirectFrom(doc, lines, refs, k, newNames);
            && |r| == |doc| && (forall v :: Typed(rest, v) ==> Typed(lines, v))
            && (Ref(e, a) in refs[k..] ==>
                  Attr(r[e], a).Some? && (Attr(r[e], a).value == newNames[0] || Typed(lines, Attr(r[e], a).value)))
    decreases |refs| - k
  {
    hide AskReference, Typed;
    if k < |refs| {
      ReferenceAnswer(lines, newNames[0], newNames);
      var (chosen, rest) := AskReference(lines, newNames[0], newNames);
      var next := SetAttr(doc, refs[k].index, refs[k].attr, chosen);
      RedirectingByDefault(next, rest, refs, k + 1, newNames, e, a);
      RedirectResult(next, rest, refs, k + 1, newNames, e, a);
      assert refs[k..] == [refs[k]] + refs[k + 1..];
    }
  }

  /** The element that comes first among those called `v`. */
  ghost predicate IsFirst(doc: seq<Node>, v: string, f: nat) {
    && f < |doc| && NameOf(doc, f) == Some(v)
    && (forall i :: 0 <= i < f ==> NameOf(doc, i) != Some(v))
  }

  /** The occurrences are listed in document order. */
  lemma {:induction false} OccurrencesInOrder(doc: seq<Node>, name: string)
    ensures var occ := Occurrences(doc, name);
            forall s, t :: 0 <= s < t < |occ| ==> occ[s] < occ[t]
  {
    if doc != [] {
      var init, occ := doc[..|doc| - 1], Occurrences(doc, name);
      OccurrencesInOrder(init, name);
      OccurrencesFacts(init, name);
      assert occ == Occurrences(init, name) || occ == Occurrences(init, name) + [|init|];
    }
  }

  function Place(a: string): nat {
    if a == "pulse" then 0 else if a == "timing" then 1 else if a == "antenna" then 2 else 3
  }

  lemma RefsOfNodeStep(n: Node, i: nat, v: string, attrs: seq<string>, k: nat)
    requires k < |attrs|
    ensures RefsOfNode(n, i, v, attrs[..k + 1])
            == RefsOfNode(n, i, v, attrs[..k]) + (if Attr(n, attrs[k]) == Some(v) then [Ref(i, attrs[k])] else [])
  {
    assert attrs[..k + 1][..k] == attrs[..k];
  }

  lemma RefsOfNodeInOrder(n: Node, i: nat, value: string)
    ensures var refs := RefsOfNode(n, i, value, REF_ATTRS);
            && (forall s :: 0 <= s < |refs| ==> refs[s].index == i)
            && (forall s, t :: 0 <= s < t < |refs| ==> Place(refs[s].attr) < Place(refs[t].attr))
  {
    assert RefsOfNode(n, i, value, REF_ATTRS[..0]) == [];
    hide RefsOfNode;
    RefsOfNodeStep(n, i, value, REF_ATTRS, 0);
    RefsOfNodeStep(n, i, value, REF_ATTRS, 1);
    RefsOfNodeStep(n, i, value, REF_ATTRS, 2);
    assert REF_ATTRS[..3] == REF_ATTRS;
  }

  ghost predicate InDocumentOrder(refs: seq<Ref>) {
    forall s, t :: 0 <= s < t < |refs| ==>
      refs[s].index < refs[t].index || (refs[s].index == refs[t].index && Place(refs[s].attr) < Place(refs[t].attr))
  }

  lemma OrderJoined(before: seq<Ref>, last: seq<Ref>, n: nat)
    requires InDocumentOrder(before) && InDocumentOrder(last)
    requires forall s :: 0 <= s < |before| ==> before[s].index < n
    requires forall s :: 0 <= s < |last| ==> last[s].index == n
    ensures InDocumentOrder(before + last)
  {
  }

  /** The references are listed in document order, and those of one element as pulse, timing, antenna. */
  lemma {:induction false} ReferencesInOrder(doc: seq<Node>, value: string)
    ensures InDocumentOrder(References(doc, value))
  {
    hide RefsOfNode, InDocumentOrder;
    if doc == [] {
      NothingInOrder();
    } else {
      var init, n := doc[..|doc| - 1], |doc| - 1;
      ReferencesInOrder(init, value);
      ReferencesFacts(init, value);
      NodeInOrder(doc[n], n, value);
      OrderJoined(References(init, value), RefsOfNode(doc[n], n, value, REF_ATTRS), n);
    }
  }

  lemma NothingInOrder()
    ensures InDocumentOrder([])
  {
  }

  lemma NodeInOrder(n: Node, i: nat, value: string)
    ensures InDocumentOrder(RefsOfNode(n, i, value, REF_ATTRS))
    ensures var refs := RefsOfNode(n, i, value, REF_ATTRS);
            forall s :: 0 <= s < |refs| ==> refs[s].index == i
  {
    hide RefsOfNode;
    RefsOfNodeInOrder(n, i, value);
  }

  /** The names are dealt with in the order in which they first appear. */
  lemma {:induction false} OrderIsOfFirsts(doc: seq<Node>, s: nat, t: nat, f: nat, g: nat)
    requires s < t < |Order(doc)| && IsFirst(doc, Order(doc)[s], f) && IsFirst(doc, Order(doc)[t], g)
    ensures f < g
  {
    var init, last := doc[..|doc| - 1], |doc| - 1;
    OrderFacts(init);
    assert forall i :: 0 <= i < last ==> NameOf(init, i) == NameOf(doc, i);
    assert Order(doc)[s] == Order(init)[s];
    assert Order(doc)[s] in Order(init);
    if t < |Order(init)| {
      assert Order(doc)[t] in Order(init);
      OrderIsOfFirsts(init, s, t, f, g);
    }
  }

  lemma FirstOccurrence(doc: seq<Node>, v: string, f: nat)
    requires IsFirst(doc, v, f)
    ensures Occurrences(doc, v) != [] && Occurrences(doc, v)[0] == f
  {
    hide Occurrences;
    var occ := Occurrences(doc, v);
    OccurrencesFacts(doc, v);
    OccurrencesInOrder(doc, v);
    var s :| 0 <= s < |occ| && occ[s] == f;
    assert occ[0] in occ;
    assert NameOf(doc, occ[0]) == Some(v);
  }

  /** The reference names the first element that was called `v`, under its new name, or was typed. */
  ghost predicate FollowsFirst(doc: seq<Node>, now: seq<Node>, lines: seq<string>, i: nat, a: string, f: nat)
    requires |now| == |doc| && i < |doc| && f < |doc|
  {
    Attr(now[i], a).Some? && (Attr(now[i], a) == NameOf(now, f) || Typed(lines, Attr(now[i], a).value))
  }

  /** Dealing with the group of `v` redirects each reference to it so. */
  lemma GroupFollowsFirst(doc: seq<Node>, st: State, v: string, i: nat, a: string, f: nat)
    requires |st.doc| == |doc| && |Occurrences(doc, v)| > 1 && IsFirst(doc, v, f)
    requires i < |doc| && a in REF_ATTRS && Attr(doc[i], a) == Some(v)
    ensures FollowsFirst(doc, ResolveName(doc, st, v).doc, st.lines, i, a, f)
  {
    hide RenameFrom, RedirectFrom, Occurrences, References, Typed;
    var occ, refs, cleared := Occurrences(doc, v), References(doc, v), st.(used := st.used - {v});
    OccurrencesFacts(doc, v);
    ReferencesFacts(doc, v);
    FirstOccurrence(doc, v, f);
    RenameResult(cleared, v, occ, 0, []);
    var (renamed, names) := RenameFrom(cleared, v, occ, 0, []);
    NameAfterGroup(doc, st, v, f);
    assert refs[0..] == refs && Ref(i, a) in refs;
    RedirectingByDefault(renamed.doc, renamed.lines, refs, 0, names, i, a);
    if Typed(renamed.lines, Attr(ResolveName(doc, st, v).doc[i], a).value) {
      RenamingReadsOn(cleared, v, occ, 0, [], Attr(ResolveName(doc, st, v).doc[i], a).value);
    }
  }

  /** Dealing with another group leaves it so. */
  lemma OtherGroupLeaves(doc: seq<Node>, st: State, name: string, i: nat, a: string, f: nat)
    requires |st.doc| == |doc| && i < |doc| && a in REF_ATTRS && Attr(doc[i], a) != Some(name)
    requires f < |doc| && NameOf(doc, f) != Some(name)
    ensures var t := ResolveName(doc, st, name);
            Attr(t.doc[i], a) == Attr(st.doc[i], a) && NameOf(t.doc, f) == NameOf(st.doc, f)
  {
    hide ResolveName, Occurrences;
    if |Occurrences(doc, name)| > 1 {
      OccurrencesFacts(doc, name);
      var names := GroupResult(doc, st, name);
    } else {
      SingleIsLeft(doc, st, name);
    }
  }

  lemma SingleIsLeft(doc: seq<Node>, st: State, name: string)
    requires |st.doc| == |doc| && |Occurrences(doc, name)| <= 1
    ensures ResolveName(doc, st, name) == st
  {
  }

  lemma GroupReadsOn(doc: seq<Node>, st: State, name: string, v: string)
    requires |st.doc| == |doc| && Typed(ResolveName(doc, st, name).lines, v)
    ensures Typed(st.lines, v)
  {
    hide RenameFrom, RedirectFrom, Occurrences, References, Typed;
    var occ, cleared := Occurrences(doc, name), st.(used := st.used - {name});
    if |occ| > 1 {
      OccurrencesFacts(doc, name);
      ReferencesFacts(doc, name);
      RenameResult(cleared, name, occ, 0, []);
      var (renamed, names) := RenameFrom(cleared, name, occ, 0, []);
      assert occ[0] < |doc|;
      RedirectingByDefault(renamed.doc, renamed.lines, References(doc, name), 0, names, 0, "");
      RenamingReadsOn(cleared, name, occ, 0, [], v);
    }
  }

  lemma {:induction false} RestLeaves(doc: seq<Node>, st: State, order: seq<string>, i: nat, a: string, f: nat)
    requires |st.doc| == |doc| && i < |doc| && a in REF_ATTRS && f < |doc| && NameOf(doc, f).Some?
    requires Attr(doc[i], a) == NameOf(doc, f) && NameOf(doc, f).value !in order
    ensures var t := ResolveFrom(doc, st, order);
            Attr(t.doc[i], a) == Attr(st.doc[i], a) && NameOf(t.doc, f) == NameOf(st.doc, f)
    decreases |order|
  {
    hide ResolveName;
    if order != [] {
      OtherGroupLeaves(doc, st, order[0], i, a, f);
      RestLeaves(doc, ResolveName(doc, st, order[0]), order[1..], i, a, f);
    }
  }

  lemma {:induction false} RunFollowsFirst(doc: seq<Node>, st: State, order: seq<string>, v: string, i: nat, a: string,
                                           f: nat)
    requires |st.doc| == |doc| && Distinct(order) && v in order && |Occurrences(doc, v)| > 1 && IsFirst(doc, v, f)
    requires i < |doc| && a in REF_ATTRS && Attr(doc[i], a) == Some(v)
    ensures FollowsFirst(doc, ResolveFrom(doc, st, order).doc, st.lines, i, a, f)
    decreases |order|
  {
    hide ResolveName, Occurrences, Typed;
    var next := ResolveName(doc, st, order[0]);
    if order[0] == v {
      GroupFollowsFirst(doc, st, v, i, a, f);
      RestLeaves(doc, next, order[1..], i, a, f);
    } else {
      RunFollowsFirst(doc, next, order[1..], v, i, a, f);
      var end := ResolveFrom(doc, next, order[1..]).doc;
      if Typed(next.lines, Attr(end[i], a).value) {
        GroupReadsOn(doc, st, order[0], Attr(end[i], a).value);
      }
    }
  }

  /** A reference to a defined name ends up with the name that the first element of that name has then, unless the
      user typed another; in a run without input it always does. */
  lemma ReferencesFollowTheFirst(doc: seq<Node>, lines: seq<string>, i: nat, a: string, v: string, f: nat)
    requires i < |doc| && a in REF_ATTRS && Attr(doc[i], a) == Some(v) && IsFirst(doc, v, f)
    ensures var end := Resolved(doc, lines).doc;
            && |end| == |doc| && Attr(end[i], a).Some?
            && (Attr(end[i], a) == NameOf(end, f) || Typed(lines, Attr(end[i], a).value))
            && (lines == [] ==> Attr(end[i], a) == NameOf(end, f))
  {
    hide ResolveFrom, Occurrences, Order, Strip;
    OrderFacts(doc);
    if |Occurrences(doc, v)| > 1 {
      RunFollowsFirst(doc, Start(doc, lines), Order(doc), v, i, a, f);
    } else {
      var done := ResolvedInv(doc, lines);
      assert RefFollows(doc, Resolved(doc, lines).doc, done, i, a);
    }
  }

  // ---------- the procedure ----------

  /** The search for a default answer. */
  method FindDefaultName(name: string, used: set<string>, first: nat) returns (candidate: string)
    ensures candidate == DefaultName(name, used, first)
  {
    NumberedInjective(name);
    var counter := first;
    candidate := name + Decimal.Print(counter);
    while candidate in used
      invariant candidate == Numbered(name)(counter)
      invariant FreshName.FirstFree(Numbered(name), used, first) == FreshName.FirstFree(Numbered(name), used, counter)
      decreases |used - FreshName.Tried(Numbered(name), counter)|
    {
      FreshName.SearchProgress(Numbered(name), used, counter);
      counter := counter + 1;
      candidate := name + Decimal.Print(counter);
    }
  }

  method AskForName(lines: seq<string>, default: string, used: set<string>) returns (chosen: string, rest: seq<string>)
    requires default !in used
    ensures (chosen, rest) == AskName(lines, default, used)
  {
    var answer := UserInput(lines, default);
    while answer.0 in used
      invariant AskName(lines, default, used) == if answer.0 in used then AskName(answer.1, default, used) else answer
      invariant answer.0 == default || |answer.1| < |lines|
      decreases |answer.1|, if answer.0 in used then 1 else 0
    {
      answer := UserInput(answer.1, default);
    }
    chosen, rest := answer.0, answer.1;
  }

  method AskForReference(lines: seq<string>, default: string, options: seq<string>)
    returns (chosen: string, rest: seq<string>)
    requires default in options
    ensures (chosen, rest) == AskReference(lines, default, options)
  {
    var answer := UserInput(lines, default);
    while answer.0 !in options
      invariant AskReference(lines, default, options)
                == if answer.0 !in options then AskReference(answer.1, default, options) else answer
      decreases |answer.1|, if answer.0 !in options then 1 else 0
    {
      answer := UserInput(answer.1, default);
    }
    chosen, rest := answer.0, answer.1;
  }

  method RenameGroup(tree: array<Node>, used: set<string>, lines: seq<string>, name: string, occ: seq<nat>)
    returns (usedNow: set<string>, rest: seq<string>, newNames: seq<string>)
    requires IndicesOf(occ, tree.Length)
    modifies tree
    ensures (State(tree[..], usedNow, rest), newNames)
            == RenameFrom(State(old(tree[..]), used, lines), name, occ, 0, [])
  {
    hide AskName, DefaultName;
    usedNow, rest, newNames := used, lines, [];
    ghost var start := State(tree[..], used, lines);
    for i := 0 to |occ|
      invariant |tree[..]| == tree.Length
      invariant RenameFrom(start, name, occ, 0, [])
                == RenameFrom(State(tree[..], usedNow, rest), name, occ, i, newNames)
    {
      var default := FindDefaultName(name, usedNow, i + 1);
      var chosen, unread := AskForName(rest, default, usedNow);
      ghost var before := tree[..];
      tree[occ[i]] := tree[occ[i]].(attrs := tree[occ[i]].attrs[NAME := chosen]);
      assert tree[..] == SetAttr(before, occ[i], NAME, chosen);
      usedNow, rest, newNames := usedNow + {chosen}, unread, newNames + [chosen];
    }
  }

  method RedirectReferences(tree: array<Node>, lines: seq<string>, refs: seq<Ref>, newNames: seq<string>)
    returns (rest: seq<string>)
    requires RefsOf(refs, tree.Length) && newNames != []
    modifies tree
    ensures (tree[..], rest) == RedirectFrom(old(tree[..]), lines, refs, 0, newNames)
  {
    hide AskReference;
    rest := lines;
    ghost var start := tree[..];
    for k := 0 to |refs|
      invariant RedirectFrom(start, lines, refs, 0, newNames) == RedirectFrom(tree[..], rest, refs, k, newNames)
    {
      var chosen, unread := AskForReference(rest, newNames[0], newNames);
      ghost var before := tree[..];
      var e, a := refs[k].index, refs[k].attr;
      tree[e] := tree[e].(attrs := tree[e].attrs[a := chosen]);
      assert tree[..] == SetAttr(before, e, a, chosen);
      rest := unread;
    }
  }

  /** `dictionary.get(key, [])`. */
  function Entries<T>(dictionary: map<string, seq<T>>, key: string): seq<T> {
    if key in dictionary then dictionary[key] else []
  }

  /** One attribute more: `listed` becomes `next`. */
  lemma EntriesGrow(references: map<string, seq<Ref>>, before: map<string, seq<Ref>>, now: map<string, seq<Ref>>,
                    el: Node, r: Ref, v: string, listed: seq<Ref>, next: seq<Ref>)
    requires Entries(before, v) == Entries(references, v) + listed
    requires now == match Attr(el, r.attr)
                    case Some(val) => before[val := Entries(before, val) + [r]]
                    case None => before
    requires next == listed + (if Attr(el, r.attr) == Some(v) then [r] else [])
    ensures Entries(now, v) == Entries(references, v) + next
  {
  }

  /** Adds the references of one element to the dictionary. */
  method AddReferences(el: Node, i: nat, references: map<string, seq<Ref>>) returns (now: map<string, seq<Ref>>)
    ensures forall v :: Entries(now, v) == Entries(references, v) + RefsOfNode(el, i, v, REF_ATTRS)
  {
    now := references;
    assert forall v :: RefsOfNode(el, i, v, REF_ATTRS[..0]) == [];
    hide RefsOfNode, Entries;
    for k := 0 to |REF_ATTRS|
      invariant forall v :: Entries(now, v) == Entries(references, v) + RefsOfNode(el, i, v, REF_ATTRS[..k])
    {
      var attr := REF_ATTRS[k];
      ghost var before := now;
      if attr in el.attrs {
        var val := el.attrs[attr];
        now := now[val := Entries(now, val) + [Ref(i, attr)]];
      }
      forall v
        ensures Entries(now, v) == Entries(references, v) + RefsOfNode(el, i, v, REF_ATTRS[..k + 1])
      {
        RefsOfNodeStep(el, i, v, REF_ATTRS, k);
        EntriesGrow(references, before, now, el, Ref(i, attr), v,
                    RefsOfNode(el, i, v, REF_ATTRS[..k]), RefsOfNode(el, i, v, REF_ATTRS[..k + 1]));
      }
    }
    assert REF_ATTRS[..|REF_ATTRS|] == REF_ATTRS;
  }

  lemma PassOneStep(doc: seq<Node>, i: nat)
    requires i < |doc|
    ensures Order(doc[..i + 1])
            == (var name := Attr(doc[i], NAME);
                if name.Some? && name.value !in Order(doc[..i]) then Order(doc[..i]) + [name.value]
                else Order(doc[..i]))
    ensures forall v :: Occurrences(doc[..i + 1], v)
                        == Occurrences(doc[..i], v) + (if Attr(doc[i], NAME) == Some(v) then [i] else [])
    ensures forall v :: References(doc[..i + 1], v) == References(doc[..i], v) + RefsOfNode(doc[i], i, v, REF_ATTRS)
  {
    assert doc[..i + 1][..i] == doc[..i];
  }

  /** Pass 1: the dictionaries of definitions and references. */
  method Collect(tree: array<Node>)
    returns (order: seq<string>, definitions: map<string, seq<nat>>, references: map<string, seq<Ref>>)
    ensures order == Order(tree[..])
    ensures forall v :: Occurrences(tree[..], v) == Entries(definitions, v)
    ensures forall v :: v in order <==> v in definitions
    ensures forall v :: References(tree[..], v) == Entries(references, v)
  {
    hide Order, Occurrences, References, RefsOfNode;
    EmptyPass();
    order, definitions, references := [], map[], map[];
    ghost var doc := tree[..];
    assert doc[..0] == [];
    for i := 0 to tree.Length
      invariant tree[..] == doc
      invariant order == Order(doc[..i])
      invariant forall v :: Occurrences(doc[..i], v) == Entries(definitions, v)
      invariant forall v :: v in order <==> v in definitions
      invariant forall v :: References(doc[..i], v) == Entries(references, v)
    {
      var el := tree[i];
      PassOneStep(doc, i);
      if NAME in el.attrs {
        var name := el.attrs[NAME];
        if name !in definitions {
          order := order + [name];
        }
        definitions := definitions[name := Entries(definitions, name) + [i]];
      }
      forall v
        ensures Occurrences(doc[..i + 1], v) == Entries(definitions, v)
      {
        assert Occurrences(doc[..i], v) + [] == Occurrences(doc[..i], v);
      }
      references := AddReferences(el, i, references);
    }
    assert doc[..tree.Length] == doc;
  }

  lemma EmptyPass()
    ensures Order([]) == []
    ensures forall v :: Occurrences([], v) == [] && References([], v) == []
  {
  }

  method ResolveDuplicateNames(tree: array<Node>, input: seq<string>)
    returns (usedNames: set<string>, unread: seq<string>)
    modifies tree
    ensures State(tree[..], usedNames, unread) == Resolved(old(tree[..]), input)
  {
    hide Occurrences, References, RenameFrom, RedirectFrom, Order;
    ghost var doc := tree[..];
    var order, definitions, references := Collect(tree);
    usedNames, unread := (set v | v in order), input;
    for k := 0 to |order|
      invariant Resolved(doc, input) == ResolveFrom(doc, State(tree[..], usedNames, unread), order[k..])
    {
      var name := order[k];
      ghost var before := State(tree[..], usedNames, unread);
      assert order[k..][0] == name && order[k..][1..] == order[k + 1..];
      assert name in definitions;
      OccurrencesFacts(doc, name);
      ReferencesFacts(doc, name);
      var occ := definitions[name];
      if |occ| > 1 {
        var newNames;
        RenameResult(before.(used := usedNames - {name}), name, occ, 0, []);
        usedNames, unread, newNames := RenameGroup(tree, usedNames - {name}, unread, name, occ);
        var refs := Entries(references, name);
        unread := RedirectReferences(tree, unread, refs, newNames);
      }
      assert State(tree[..], usedNames, unread) == ResolveName(doc, before, name);
    }
  }
}
