/** `shellQuote` and the reading of its output by a POSIX shell. */
module Shell {
  import opened Wrappers

  // ---------- quoting ----------

  function QuoteChar(c: char): string {
    if c == '\'' then "'\"'\"'" else [c]
  }

  function QuoteBody(s: string): string {
    if s == "" then "" else QuoteBody(s[..|s| - 1]) + QuoteChar(s[|s| - 1])
  }

  function Quoted(s: string): string {
    "'" + QuoteBody(s) + "'"
  }

  method ShellQuote(value: string) returns (out: string)
    ensures out == Quoted(value)
  {
    out := "'";
    for i := 0 to |value|
      invariant out == "'" + QuoteBody(value[..i])
    {
      assert value[..i + 1][..i] == value[..i];
      if value[i] == '\'' {
        out := out + "'\"'\"'";
      } else {
        out := out + [value[i]];
      }
    }
    assert value[..|value|] == value;
    out := out + "'";
  }

  /** The command line `runChildSuite` builds: the quoted words, a blank before each but the first. */
  function Command(words: seq<string>): string {
    if words == [] then ""
    else if |words| == 1 then Quoted(words[0])
    else Command(words[..|words| - 1]) + " " + Quoted(words[|words| - 1])
  }

  const NUL: char := 0 as char

  /** What `c_str()` shows to `std::system`. */
  function CString(s: string): string {
    if s == "" || s[0] == NUL then "" else [s[0]] + CString(s[1..])
  }

  // ---------- the shell's reading of a command ----------

  datatype Mode = Plain | Single | Double

  predicate IsBlank(c: char) {
    c == ' ' || c == '\t'
  }

  /** Characters that, unquoted, mean more to the shell than themselves. */
  predicate IsSpecial(c: char) {
    c in "|&;<>()$`*?[]#~=%!{}\n"
  }

  /** The words of a command by sections 2.2.1 to 2.2.3 of the Shell Command Language, IEEE Std 1003.1-2017.
      `word` is the word being read, if any. None stands for a command that is unterminated or that
      uses expansions or operators, which are not part of this model. */
  function Words(s: string, mode: Mode, word: Option<string>): Option<seq<string>>
    decreases |s|
  {
    var text := if word.Some? then word.value else "";
    match mode
    case Plain =>
      if s == "" then Some(if word.Some? then [text] else [])
      else if IsBlank(s[0]) then
        var rest :- Words(s[1..], Plain, None);
        Some((if word.Some? then [text] else []) + rest)
      else if s[0] == '\'' then Words(s[1..], Single, Some(text))
      else if s[0] == '\"' then Words(s[1..], Double, Some(text))
      else if s[0] == '\\' then
        if |s| < 2 then None
        else if s[1] == '\n' then Words(s[2..], Plain, word)
        else Words(s[2..], Plain, Some(text + [s[1]]))
      else if IsSpecial(s[0]) then None
      else Words(s[1..], Plain, Some(text + [s[0]]))
    case Single =>
      if s == "" then None
      else if s[0] == '\'' then Words(s[1..], Plain, Some(text))
      else Words(s[1..], Single, Some(text + [s[0]]))
    case Double =>
      if s == "" then None
      else if s[0] == '\"' then Words(s[1..], Plain, Some(text))
      else if s[0] in "$`\\" then None
      else Words(s[1..], Double, Some(text + [s[0]]))
  }

  // ---------- the round trip ----------

  lemma {:induction false} QuoteBodyFront(s: string)
    requires s != ""
    ensures QuoteBody(s) == QuoteChar(s[0]) + QuoteBody(s[1..])
  {
    if |s| > 1 {
      var init := s[..|s| - 1];
      QuoteBodyFront(init);
      assert init[1..] == s[1..][..|s| - 2];
    } else {
      assert s[..0] == "" && s[1..] == "";
    }
  }

  lemma WordsAfterChar(c: char, rest: string, text: string)
    ensures Words(QuoteChar(c) + rest, Single, Some(text)) == Words(rest, Single, Some(text + [c]))
  {
    var s := QuoteChar(c) + rest;
    if c == '\'' {
      assert s[0] == '\'' && s[1..][0] == '\"' && s[1..][1..][0] == '\'' && s[1..][1..][1..][0] == '\"';
      assert s[1..][1..][1..][1..][0] == '\'' && s[1..][1..][1..][1..][1..] == rest;
      calc {
        Words(s, Single, Some(text));
        Words(s[1..], Plain, Some(text));
        Words(s[1..][1..], Double, Some(text));
        Words(s[1..][1..][1..], Double, Some(text + [c]));
        Words(s[1..][1..][1..][1..], Plain, Some(text + [c]));
        Words(rest, Single, Some(text + [c]));
      }
    } else {
      assert s[0] == c && s[1..] == rest;
    }
  }

  lemma Associative(a: string, b: string, c: string)
    ensures (a + b) + c == a + (b + c)
  {
  }

  lemma FrontMoved(a: string, b: string)
    requires b != ""
    ensures (a + [b[0]]) + b[1..] == a + b
  {
  }

  lemma {:induction false} WordsAfterBody(s: string, rest: string, text: string)
    ensures Words(QuoteBody(s) + rest, Single, Some(text)) == Words(rest, Single, Some(text + s))
    decreases |s|
  {
    if s == "" {
      assert QuoteBody(s) + rest == rest && text + s == text;
    } else {
      hide Words, QuoteBody, QuoteChar;
      QuoteBodyFront(s);
      Associative(QuoteChar(s[0]), QuoteBody(s[1..]), rest);
      WordsAfterChar(s[0], QuoteBody(s[1..]) + rest, text);
      WordsAfterBody(s[1..], rest, text + [s[0]]);
      FrontMoved(text, s);
    }
  }

  /** Reading a quoted word gives the word back, whatever characters it holds. */
  lemma WordsAfterQuoted(w: string, rest: string)
    ensures Words(Quoted(w) + rest, Plain, None) == Words(rest, Plain, Some(w))
  {
    var s := Quoted(w) + rest;
    var end := "'" + rest;
    assert s[0] == '\'' && s[1..] == QuoteBody(w) + end;
    WordsAfterBody(w, end, "");
    assert "" + w == w;
    assert end[0] == '\'' && end[1..] == rest;
  }

  lemma BlankBetween(a: string, b: string, rest: string)
    ensures (a + " " + b) + rest == a + (" " + (b + rest))
  {
  }

  lemma LastMoved<T>(a: seq<T>, b: seq<T>)
    requires a != []
    ensures a[..|a| - 1] + ([a[|a| - 1]] + b) == a + b
  {
  }

  /** A blank ends the word being read. */
  lemma WordsAfterBlank(w: string, rest: string)
    ensures Words(" " + rest, Plain, Some(w))
            == match Words(rest, Plain, None) case None => None case Some(ws) => Some([w] + ws)
  {
    assert (" " + rest)[1..] == rest;
  }

  lemma {:induction false} WordsAfterCommand(words: seq<string>, rest: string)
    requires words != []
    ensures Words(Command(words) + rest, Plain, None)
            == match Words(rest, Plain, Some(words[|words| - 1]))
               case None => None
               case Some(ws) => Some(words[..|words| - 1] + ws)
    decreases |words|
  {
    var init, last := words[..|words| - 1], words[|words| - 1];
    WordsAfterQuoted(last, rest);
    hide Words, Quoted;
    var read := Words(rest, Plain, Some(last));
    if init == [] {
      if read.Some? {
        assert init + read.value == read.value;
      }
    } else {
      var tail := " " + (Quoted(last) + rest);
      var w := init[|init| - 1];
      assert Command(words) == Command(init) + " " + Quoted(last);
      hide Command;
      BlankBetween(Command(init), Quoted(last), rest);
      WordsAfterCommand(init, tail);
      WordsAfterBlank(w, Quoted(last) + rest);
      if read.Some? {
        LastMoved(init, read.value);
      }
    }
  }

  predicate NulFree(s: string) {
    NUL !in s
  }

  lemma {:induction false} CStringOfNulFree(a: string, b: string)
    requires NulFree(a)
    ensures CString(a + b) == a + CString(b)
  {
    if a == "" {
      assert a + b == b;
    } else {
      assert (a + b)[1..] == a[1..] + b;
      CStringOfNulFree(a[1..], b);
    }
  }

  lemma {:induction false} QuoteBodyNulFree(s: string)
    requires NulFree(s)
    ensures NulFree(QuoteBody(s))
  {
    if s != "" {
      QuoteBodyNulFree(s[..|s| - 1]);
    }
  }

  lemma {:induction false} CommandNulFree(words: seq<string>)
    requires forall i :: 0 <= i < |words| ==> NulFree(words[i])
    ensures NulFree(Command(words))
  {
    if words != [] {
      QuoteBodyNulFree(words[|words| - 1]);
      CommandNulFree(words[..|words| - 1]);
    }
  }

  /** A quoted word cut off at a NUL inside it leaves the quotation open. */
  lemma CutWordIsUnterminated(w: string, rest: string)
    requires !NulFree(w)
    ensures Words(CString(Quoted(w) + rest), Plain, None) == None
  {
    var seen, tail := CutAtNul(w, rest);
    hide CString, QuoteBody, NulFree, Quoted;
    var head := "'" + QuoteBody(seen);
    assert NulFree(head) by {
      QuoteBodyNulFree(seen);
      QuoteIsNulFree(QuoteBody(seen));
    }
    CStringOfNulFree(head, tail);
    assert head + "" == head;
    OpenQuotation(seen);
  }

  lemma QuoteIsNulFree(s: string)
    requires NulFree(s)
    ensures NulFree("'" + s)
  {
  }

  lemma OpenQuotation(s: string)
    ensures Words("'" + QuoteBody(s), Plain, None) == None
  {
    var head := "'" + QuoteBody(s);
    assert head[1..] == QuoteBody(s) + "";
    WordsAfterBody(s, "", "");
  }

  /** What precedes the first NUL of a word, and what the shell does not see. */
  lemma CutAtNul(w: string, rest: string) returns (seen: string, tail: string)
    requires !NulFree(w)
    ensures NulFree(seen) && CString(tail) == "" && Quoted(w) + rest == ("'" + QuoteBody(seen)) + tail
  {
    var k := FirstNul(w);
    seen := w[..k];
    var unseen := w[k..];
    assert w == seen + unseen;
    assert unseen[0] == NUL;
    tail := QuoteBody(unseen) + ("'" + rest);
    hide QuoteBody, CString, NulFree;
    QuoteBodySplit(seen, unseen);
    StartsWithNul(unseen, "'" + rest);
    Regrouped("'", QuoteBody(seen), QuoteBody(unseen), "'", rest);
  }

  lemma StartsWithNul(w: string, rest: string)
    requires w != "" && w[0] == NUL
    ensures CString(QuoteBody(w) + rest) == ""
  {
    QuoteBodyFront(w);
    assert QuoteChar(NUL) == [NUL];
  }

  lemma Regrouped(a: string, b: string, c: string, d: string, e: string)
    ensures (a + (b + c) + d) + e == (a + b) + (c + (d + e))
    ensures (a + (b + c)) + d + e == a + (b + (c + d + e))
  {
  }

  lemma FirstNul(w: string) returns (k: nat)
    requires !NulFree(w)
    ensures k < |w| && w[k] == NUL && NulFree(w[..k])
  {
    if w[0] == NUL {
      k := 0;
    } else {
      assert w == [w[0]] + w[1..];
      var j := FirstNul(w[1..]);
      k := j + 1;
      assert w[..k] == [w[0]] + w[1..][..j];
    }
  }

  lemma {:induction false} QuoteBodySplit(a: string, b: string)
    ensures QuoteBody(a + b) == QuoteBody(a) + QuoteBody(b)
  {
    if b == "" {
      assert a + b == a;
    } else {
      assert (a + b)[..|a + b| - 1] == a + b[..|b| - 1];
      QuoteBodySplit(a, b[..|b| - 1]);
    }
  }

  /** The shell reads the command as exactly the words it was built from if and only if
      no word holds a NUL character. */
  lemma {:induction false} ShellReadsWordsIff(words: seq<string>)
    requires words != []
    ensures Words(CString(Command(words)), Plain, None) == Some(words)
            <==> forall i :: 0 <= i < |words| ==> NulFree(words[i])
  {
    hide Words, Command, CString, NulFree;
    if forall i :: 0 <= i < |words| ==> NulFree(words[i]) {
      CommandNulFree(words);
      CStringOfWhole(Command(words));
      WordsAfterCommand(words, "");
      EndOfWord(words[|words| - 1]);
      assert Command(words) + "" == Command(words);
      assert words[..|words| - 1] + [words[|words| - 1]] == words;
    } else {
      var k :| 0 <= k < |words| && !NulFree(words[k]);
      CutCommandIsUnterminated(words, k);
    }
  }

  lemma EndOfWord(w: string)
    ensures Words("", Plain, Some(w)) == Some([w])
  {
  }

  lemma CStringOfWhole(s: string)
    requires NulFree(s)
    ensures CString(s) == s
  {
    CStringOfNulFree(s, "");
    assert s + "" == s;
  }

  lemma BlankEndsWord(w: string, rest: string)
    requires Words(rest, Plain, None) == None
    ensures Words(" " + rest, Plain, Some(w)) == None
  {
    assert (" " + rest)[1..] == rest;
  }

  lemma BlankIsNulFree(s: string)
    requires NulFree(s)
    ensures NulFree(s + " ")
  {
  }

  lemma {:induction false} CutCommandIsUnterminated(words: seq<string>, k: nat)
    requires k < |words| && !NulFree(words[k])
    ensures Words(CString(Command(words)), Plain, None) == None
    decreases k
  {
    hide Words, Command, CString, NulFree, Quoted;
    if j :| 0 <= j < k && !NulFree(words[j]) {
      CutCommandIsUnterminated(words, j);
    } else {
      var rest := CommandSplit(words, k);
      var cut := Quoted(words[k]) + rest;
      CutWordIsUnterminated(words[k], rest);
      if k == 0 {
        assert "" + cut == cut;
      } else {
        var head := words[..k];
        CommandNulFree(head);
        BlankIsNulFree(Command(head));
        CStringOfNulFree(Command(head) + " ", cut);
        assert Command(head) + " " + CString(cut) == Command(head) + (" " + CString(cut));
        BlankEndsWord(head[|head| - 1], CString(cut));
        WordsAfterCommand(head, " " + CString(cut));
      }
    }
  }

  /** Everything that follows word `k` in the command. */
  lemma {:induction false} CommandSplit(words: seq<string>, k: nat) returns (rest: string)
    requires k < |words|
    ensures Command(words) == (if k == 0 then "" else Command(words[..k]) + " ") + (Quoted(words[k]) + rest)
    decreases |words|
  {
    if k == |words| - 1 {
      rest := "";
    } else {
      var init, last := words[..|words| - 1], words[|words| - 1];
      var r := CommandSplit(init, k);
      rest := r + " " + Quoted(last);
      assert Command(words) == Command(init) + " " + Quoted(last);
      assert init[..k] == words[..k];
      hide Command, Quoted;
      Regrouped(if k == 0 then "" else Command(words[..k]) + " ", Quoted(words[k]), r, " ", Quoted(last));
    }
  }
}
