/** The text printers of the oversampling audit and the parsers that undo them:
    JSON string escapes and comma-separated lists of unsigned values. */
module TextPrinters {
  import opened Wrappers
  import Decimal

  // ---------- JSON string escapes ----------

  function EscapeChar(c: char): string {
    if c == '\\' then "\\\\"
    else if c == '\"' then "\\\""
    else if c == '\n' then "\\n"
    else if c == '\r' then "\\r"
    else if c == '\t' then "\\t"
    else [c]
  }

  function Escaped(s: string): string {
    if s == "" then "" else Escaped(s[..|s| - 1]) + EscapeChar(s[|s| - 1])
  }

  method JsonEscape(value: string) returns (out: string)
    ensures out == Escaped(value)
  {
    out := "";
    for i := 0 to |value|
      invariant out == Escaped(value[..i])
    {
      assert value[..i + 1][..i] == value[..i];
      match value[i] {
        case '\\' => out := out + "\\\\";
        case '\"' => out := out + "\\\"";
        case '\n' => out := out + "\\n";
        case '\r' => out := out + "\\r";
        case '\t' => out := out + "\\t";
        case ch => out := out + [ch];
      }
    }
    assert value[..|value|] == value;
  }

  function HexValue(c: char): Option<nat> {
    if '0' <= c <= '9' then Some(c as int - '0' as int)
    else if 'a' <= c <= 'f' then Some(c as int - 'a' as int + 10)
    else if 'A' <= c <= 'F' then Some(c as int - 'A' as int + 10)
    else None
  }

  /** The character of a two-character escape in section 7 of RFC 8259. */
  function SimpleEscape(c: char): Option<char> {
    if c in "\"\\/" then Some(c)
    else if c == 'b' then Some(8 as char)
    else if c == 'f' then Some(12 as char)
    else if c == 'n' then Some('\n')
    else if c == 'r' then Some('\r')
    else if c == 't' then Some('\t')
    else None
  }

  /** Section 7 of RFC 8259 requires control characters to be escaped. */
  predicate MustBeEscaped(c: char) {
    c as int < 0x20
  }

  /** Decodes the characters between the quotation marks of a JSON string. With `strict` the text
      must also keep the rule on control characters. */
  function Decode(s: string, strict: bool): Option<string>
    decreases |s|
  {
    if s == "" then Some("")
    else if s[0] == '\"' then None
    else if s[0] != '\\' then
      if strict && MustBeEscaped(s[0]) then None
      else
        var rest :- Decode(s[1..], strict);
        Some([s[0]] + rest)
    else if |s| >= 6 && s[1] == 'u' then
      var a :- HexValue(s[2]);
      var b :- HexValue(s[3]);
      var c :- HexValue(s[4]);
      var d :- HexValue(s[5]);
      var code := 4096 * a + 256 * b + 16 * c + d;
      if 0xD800 <= code < 0xE000 || code > 0xFFFF then None  // surrogate pairs are not part of this model
      else
        var rest :- Decode(s[6..], strict);
        Some([code as char] + rest)
    else if |s| >= 2 then
      var c :- SimpleEscape(s[1]);
      var rest :- Decode(s[2..], strict);
      Some([c] + rest)
    else None
  }

  lemma DecodeAfterChar(c: char, rest: string, strict: bool)
    ensures Decode(EscapeChar(c) + rest, strict)
            == if strict && MustBeEscaped(c) && c !in "\n\r\t" then None
               else match Decode(rest, strict) case None => None case Some(r) => Some([c] + r)
  {
    var s := EscapeChar(c) + rest;
    if |EscapeChar(c)| == 1 {
      assert s[0] == c && s[1..] == rest;
    } else {
      assert s[0] == '\\' && s[1] == EscapeChar(c)[1] && s[2..] == rest;
    }
  }

  lemma EscapedOfExtension(s: string, c: char)
    ensures Escaped(s + [c]) == Escaped(s) + EscapeChar(c)
  {
    hide EscapeChar;
    assert (s + [c])[..|s|] == s;
  }

  lemma {:induction false} EscapedOfConcat(a: string, b: string)
    ensures Escaped(a + b) == Escaped(a) + Escaped(b)
  {
    if b == "" {
      assert a + b == a;
    } else {
      var init, c := b[..|b| - 1], b[|b| - 1];
      assert b == init + [c];
      hide Escaped;
      EscapedOfConcat(a, init);
      ExtendedConcat(a, init, c);
    }
  }

  lemma ExtendedConcat(a: string, b: string, c: char)
    requires Escaped(a + b) == Escaped(a) + Escaped(b)
    ensures Escaped(a + (b + [c])) == Escaped(a) + Escaped(b + [c])
  {
    EscapedOfExtension(b, c);
    EscapedOfExtension(a + b, c);
    hide Escaped, EscapeChar;
    assert a + (b + [c]) == (a + b) + [c];
    assert Escaped(a) + (Escaped(b) + EscapeChar(c)) == (Escaped(a) + Escaped(b)) + EscapeChar(c);
  }

  ghost predicate Representable(s: string) {
    forall i :: 0 <= i < |s| ==> MustBeEscaped(s[i]) ==> s[i] in "\n\r\t"
  }

  /** Decoding inverts `jsonEscape` for every string. The escaped text is a legal JSON string exactly
      when the only control characters are line feed, carriage return and tab: the others
      are passed through unescaped. */
  lemma {:induction false} DecodeOfEscaped(s: string, strict: bool)
    ensures Decode(Escaped(s), strict) == if strict && !Representable(s) then None else Some(s)
    decreases |s|
  {
    if s != "" {
      assert s == [s[0]] + s[1..];
      EscapedOfConcat([s[0]], s[1..]);
      assert [s[0]][..0] == "";
      assert Escaped([s[0]]) == EscapeChar(s[0]);
      DecodeAfterChar(s[0], Escaped(s[1..]), strict);
      DecodeOfEscaped(s[1..], strict);
      if Representable(s[1..]) && (MustBeEscaped(s[0]) ==> s[0] in "\n\r\t") {
        assert Representable(s);
      } else if !Representable(s[1..]) {
        var i :| 0 <= i < |s[1..]| && MustBeEscaped(s[1..][i]) && s[1..][i] !in "\n\r\t";
        assert s[i + 1] == s[1..][i];
      }
    }
  }

  predicate IsSpecial(c: char) {
    c == '\"' || c == '\\' || c == '\n' || c == '\r' || c == '\t'
  }

  function Specials(s: string): nat {
    if s == "" then 0 else Specials(s[..|s| - 1]) + if IsSpecial(s[|s| - 1]) then 1 else 0
  }

  /** Only the quotation mark, the backslash, line feed, carriage return and tab are escaped, each by one more
      character. */
  lemma {:induction false} EscapedLength(s: string)
    ensures |Escaped(s)| == |s| + Specials(s)
    ensures Specials(s) == 0 ==> Escaped(s) == s
  {
    if s != "" {
      var init, c := s[..|s| - 1], s[|s| - 1];
      EscapedLength(init);
      assert |EscapeChar(c)| == (if IsSpecial(c) then 2 else 1) && (!IsSpecial(c) ==> EscapeChar(c) == [c]);
      hide EscapeChar, IsSpecial;
      assert s == init + [c];
    }
  }

  /** A bell character: what is printed is not a legal JSON string. */
  lemma BellIsNotEscaped()
    ensures Decode(Escaped([7 as char]), true) == None
  {
    DecodeOfEscaped([7 as char], true);
    assert MustBeEscaped([7 as char][0]);
  }

  // ---------- unsigned values ----------

  const TWO_TO_32: nat := 0x1_0000_0000
  const TWO_TO_64: nat := 0x1_0000_0000_0000_0000

  predicate IsSpace(c: char) {
    c == ' ' || 9 <= c as int <= 13
  }

  function SkipSpaces(s: string): string {
    if s != "" && IsSpace(s[0]) then SkipSpaces(s[1..]) else s
  }

  function DigitPrefix(s: string): (n: nat)
    ensures n <= |s| && Decimal.AllDigits(s[..n])
    ensures n < |s| ==> !Decimal.IsDigit(s[n])
  {
    if s != "" && Decimal.IsDigit(s[0]) then
      var n := 1 + DigitPrefix(s[1..]);
      assert forall i :: 0 < i < n ==> s[i] == s[1..][i - 1];
      n
    else 0
  }

  /** `std::stoul` with a 64-bit `unsigned long`: leading blanks, an optional sign and at least one digit;
      what follows the digits is ignored. None stands for the exceptions. */
  function Stoul(s: string): Option<nat> {
    var t := SkipSpaces(s);
    var negative := t != "" && t[0] == '-';
    var u := if t != "" && (t[0] == '-' || t[0] == '+') then t[1..] else t;
    var n := DigitPrefix(u);
    if n == 0 then None
    else
      var v := Decimal.Value(u[..n]);
      if v >= TWO_TO_64 then None
      else Some(if negative && v > 0 then TWO_TO_64 - v else v)
  }

  /** `static_cast<unsigned>(std::stoul(s))`. */
  function ParseUnsigned(s: string): Option<nat> {
    var v :- Stoul(s);
    Some(v % TWO_TO_32)
  }

  lemma {:induction false} DigitPrefixOfDigits(s: string)
    requires Decimal.AllDigits(s)
    ensures DigitPrefix(s) == |s|
  {
  }

  lemma StoulOfDigits(s: string)
    requires s != "" && Decimal.AllDigits(s)
    ensures Stoul(s) == if Decimal.Value(s) >= TWO_TO_64 then None else Some(Decimal.Value(s))
  {
    hide Decimal.Value;
    assert Decimal.IsDigit(s[0]);
    DigitPrefixOfDigits(s);
    assert s[..|s|] == s;
  }

  ghost predicate AllSpaces(s: string) {
    forall i :: 0 <= i < |s| ==> IsSpace(s[i])
  }

  lemma {:induction false} SkippedSpaces(spaces: string, t: string)
    requires AllSpaces(spaces) && (t == "" || !IsSpace(t[0]))
    ensures SkipSpaces(spaces + t) == t
  {
    if spaces == "" {
      assert spaces + t == t;
    } else {
      assert (spaces + t)[1..] == spaces[1..] + t;
      SkippedSpaces(spaces[1..], t);
    }
  }

  lemma {:induction false} DigitsThenRest(digits: string, rest: string)
    requires Decimal.AllDigits(digits) && (rest == "" || !Decimal.IsDigit(rest[0]))
    ensures DigitPrefix(digits + rest) == |digits|
  {
    if digits == "" {
      assert digits + rest == rest;
    } else {
      assert (digits + rest)[1..] == digits[1..] + rest;
      DigitsThenRest(digits[1..], rest);
    }
  }

  /** White space, an optional sign, digits, and anything that does not go on with a digit: a negative number wraps
      around, one that does not fit 64 bits is refused. */
  lemma StoulReads(spaces: string, sign: string, digits: string, rest: string)
    requires AllSpaces(spaces) && sign in {"", "+", "-"}
    requires digits != "" && Decimal.AllDigits(digits) && (rest == "" || !Decimal.IsDigit(rest[0]))
    ensures var v := Decimal.Value(digits);
            Stoul(spaces + sign + digits + rest)
            == if v >= TWO_TO_64 then None else if sign == "-" && v > 0 then Some(TWO_TO_64 - v) else Some(v)
  {
    hide Decimal.Value, SkipSpaces, DigitPrefix;
    var u := digits + rest;
    var t := sign + u;
    FourParts(spaces, sign, digits, rest);
    SignThenDigits(sign, digits, rest);
    SkippedSpaces(spaces, t);
    DigitsThenRest(digits, rest);
    assert u[..|digits|] == digits;
  }

  lemma FourParts(a: string, b: string, c: string, d: string)
    ensures a + b + c + d == a + (b + (c + d))
  {
  }

  lemma SignThenDigits(sign: string, digits: string, rest: string)
    requires sign in {"", "+", "-"} && digits != "" && Decimal.AllDigits(digits)
    ensures var t := sign + (digits + rest);
            && t != "" && !IsSpace(t[0]) && (t[0] == '-' <==> sign == "-")
            && (if t[0] == '-' || t[0] == '+' then t[1..] else t) == digits + rest
  {
    assert Decimal.IsDigit(digits[0]);
    assert (digits + rest)[0] == digits[0];
    if sign != "" {
      assert (sign + (digits + rest))[0] == sign[0];
    }
  }

  lemma {:induction false} SpacesSplit(s: string)
    ensures |SkipSpaces(s)| <= |s|
    ensures var spaces := s[..|s| - |SkipSpaces(s)|]; AllSpaces(spaces) && s == spaces + SkipSpaces(s)
  {
    if s != "" && IsSpace(s[0]) {
      SpacesSplit(s[1..]);
      var spaces := s[1..][..|s| - 1 - |SkipSpaces(s)|];
      assert s[..|s| - |SkipSpaces(s)|] == [s[0]] + spaces;
    }
  }

  /** Nothing else is read. */
  lemma StoulReadsNothingElse(s: string) returns (spaces: string, sign: string, digits: string, rest: string)
    requires Stoul(s).Some?
    ensures s == spaces + sign + digits + rest && AllSpaces(spaces) && sign in {"", "+", "-"}
    ensures digits != "" && Decimal.AllDigits(digits) && (rest == "" || !Decimal.IsDigit(rest[0]))
  {
    hide Decimal.Value;
    SpacesSplit(s);
    var t := SkipSpaces(s);
    spaces := s[..|s| - |t|];
    sign := if t != "" && (t[0] == '-' || t[0] == '+') then t[..1] else "";
    var u := t[|sign|..];
    digits, rest := u[..DigitPrefix(u)], u[DigitPrefix(u)..];
    assert DigitPrefix(u) > 0;
    SplitAfter(t, |sign|);
    SplitAfter(u, DigitPrefix(u));
    hide Stoul, SkipSpaces, DigitPrefix, AllSpaces;
    assert sign != "" ==> sign == [t[0]];
    FourParts(spaces, sign, digits, rest);
  }

  lemma SplitAfter(s: string, n: nat)
    requires n <= |s|
    ensures s == s[..n] + s[n..]
  {
  }

  lemma ParseUnsignedOfPrint(v: nat)
    requires v < TWO_TO_32
    ensures ParseUnsigned(Decimal.Print(v)) == Some(v)
  {
    hide Decimal.Value, Decimal.Print, Stoul;
    StoulOfDigits(Decimal.Print(v));
    Decimal.ValueOfPrint(v);
  }

  // ---------- comma-separated lists ----------

  /** Where `c` first occurs, or the length. */
  function IndexOf(s: string, c: char): (k: nat)
    ensures k <= |s| && c !in s[..k] && (k < |s| ==> s[k] == c)
  {
    if s == "" || s[0] == c then 0
    else
      var k := 1 + IndexOf(s[1..], c);
      assert s[..k] == [s[0]] + s[1..][..k - 1];
      k
  }

  /** The values of the non-empty tokens. */
  function ListValues(s: string): Option<seq<nat>>
    decreases |s|
  {
    if s == "" then Some([])
    else
      var k := IndexOf(s, ',');
      var rest := if k < |s| then s[k + 1..] else "";
      if k == 0 then ListValues(rest)
      else
        var v :- ParseUnsigned(s[..k]);
        var vs :- ListValues(rest);
        Some([v] + vs)
  }

  /** `ListValues` for a text whose first token ends at `k`. */
  lemma ListValuesAt(s: string, k: nat)
    requires s != "" && k <= |s| && ',' !in s[..k] && (k < |s| ==> s[k] == ',')
    ensures var rest := if k < |s| then s[k + 1..] else "";
            ListValues(s)
            == if k == 0 then ListValues(rest)
               else match ParseUnsigned(s[..k])
                    case None => None
                    case Some(v) => match ListValues(rest) case None => None case Some(vs) => Some([v] + vs)
  {
    hide ParseUnsigned;
    IndexIs(s, ',', k);
  }

  function UnsignedList(s: string): Result<seq<nat>> {
    match ListValues(s)
    case None => Failure("stoul")
    case Some(vs) => if vs == [] then Failure("Expected a non-empty comma-separated unsigned list") else Success(vs)
  }

  /** The `getline` loop. */
  method ParseUnsignedList(value: string) returns (r: Result<seq<nat>>)
    ensures r == UnsignedList(value)
  {
    hide ParseUnsigned, ListValues;
    var out: seq<nat> := [];
    var rest := value;
    assert ListValues(value).Some? ==> out + ListValues(value).value == ListValues(value).value;
    while rest != ""
      invariant match ListValues(rest)
                case None => ListValues(value).None?
                case Some(vs) => ListValues(value) == Some(out + vs)
      decreases |rest|
    {
      var k := 0;
      while k < |rest| && rest[k] != ','
        invariant k <= |rest| && ',' !in rest[..k]
      {
        k := k + 1;
      }
      ListValuesAt(rest, k);
      ghost var before := out;
      var token := rest[..k];
      rest := if k < |rest| then rest[k + 1..] else "";
      if token != "" {
        var v := ParseUnsigned(token);
        if v.None? {
          return Failure("stoul");
        }
        out := out + [v.value];
        assert forall vs: seq<nat> :: before + ([v.value] + vs) == out + vs;
      }
    }
    NoListValues();
    assert out + [] == out;
    if out == [] {
      return Failure("Expected a non-empty comma-separated unsigned list");
    }
    r := Success(out);
  }

  lemma IndexIs(s: string, c: char, k: nat)
    requires k <= |s| && c !in s[..k] && (k < |s| ==> s[k] == c)
    ensures IndexOf(s, c) == k
  {
  }

  /** `",".join(str(v) for v in vs)`. */
  function Joined(vs: seq<nat>): string {
    if vs == [] then ""
    else if |vs| == 1 then Decimal.Print(vs[0])
    else Decimal.Print(vs[0]) + "," + Joined(vs[1..])
  }

  ghost predicate AllUnsigned(vs: seq<nat>) {
    forall i :: 0 <= i < |vs| ==> vs[i] < TWO_TO_32
  }

  lemma ListValuesStep(d: string, v: nat, rest: string)
    requires d != "" && ParseUnsigned(d) == Some(v) && ',' !in d
    ensures ListValues(d + "," + rest)
            == match ListValues(rest) case None => None case Some(vs) => Some([v] + vs)
  {
    hide ParseUnsigned;
    var s := d + "," + rest;
    assert s[..|d|] == d && s[|d| + 1..] == rest;
    ListValuesAt(s, |d|);
  }

  lemma LastListValue(d: string, v: nat)
    requires d != "" && ParseUnsigned(d) == Some(v) && ',' !in d
    ensures ListValues(d) == Some([v])
  {
    hide ParseUnsigned;
    ListValuesAt(d, |d|);
    assert d[..|d|] == d;
    NoListValues();
    assert [v] + [] == [v];
  }

  lemma NoCommaInPrint(v: nat)
    ensures ',' !in Decimal.Print(v)
  {
    var d := Decimal.Print(v);
    forall i | 0 <= i < |d|
      ensures d[i] != ','
    {
      assert Decimal.IsDigit(d[i]);
    }
  }

  lemma {:induction false} ValuesOfJoined(vs: seq<nat>)
    requires AllUnsigned(vs)
    ensures ListValues(Joined(vs)) == Some(vs)
  {
    hide ParseUnsigned, Decimal.Print, ListValues;
    if vs == [] {
      assert ListValues("") == Some([]) by {
        NoListValues();
      }
    } else {
      var d := Decimal.Print(vs[0]);
      ParseUnsignedOfPrint(vs[0]);
      NoCommaInPrint(vs[0]);
      if |vs| == 1 {
        LastListValue(d, vs[0]);
        assert [vs[0]] == vs;
      } else {
        ListValuesStep(d, vs[0], Joined(vs[1..]));
        ValuesOfJoined(vs[1..]);
        assert [vs[0]] + vs[1..] == vs;
      }
    }
  }

  lemma NoListValues()
    ensures ListValues("") == Some([])
  {
  }

  /** Parsing inverts the join for every non-empty list of unsigned values; the empty list is refused. */
  lemma ListRoundTrip(vs: seq<nat>)
    requires AllUnsigned(vs)
    ensures if vs == [] then UnsignedList(Joined(vs)).Failure? else UnsignedList(Joined(vs)) == Success(vs)
  {
    ValuesOfJoined(vs);
  }
}
