/** Quote-aware text handling: the splitter of shell scripts at top-level semicolons, and
    the quoting of a value as one shell word. */
module ShellText {
  import opened Common

  // ------------------------------------------------------------ the scanner's state

  datatype Scan = Scan(inSingle: bool, inDouble: bool, escaped: bool, parenDepth: nat)

  const TOP_LEVEL := Scan(false, false, false, 0)

  /** A semicolon that separates statements. */
  predicate Cuts(st: Scan, ch: char) {
    ch == ';' && !st.escaped && !st.inSingle && !st.inDouble && st.parenDepth == 0
  }

  function Advance(st: Scan, ch: char): Scan {
    if st.escaped then st.(escaped := false)
    else if ch == '\\' && !st.inSingle then st.(escaped := true)
    else if ch == '\'' && !st.inDouble then st.(inSingle := !st.inSingle)
    else if ch == '"' && !st.inSingle then st.(inDouble := !st.inDouble)
    else if st.inSingle || st.inDouble then st
    else if ch == '(' then st.(parenDepth := st.parenDepth + 1)
    else if ch == ')' && st.parenDepth > 0 then st.(parenDepth := st.parenDepth - 1)
    else st
  }

  function After(st: Scan, s: string): Scan
    decreases s
  {
    if s == "" then st else After(Advance(st, s[0]), s[1..])
  }

  /** The pieces of a text between the semicolons that cut. */
  function Split(st: Scan, s: string): (parts: seq<string>)
    ensures |parts| > 0
    decreases s
  {
    if s == "" then [""]
    else
      var rest := Split(Advance(st, s[0]), s[1..]);
      if Cuts(st, s[0]) then [""] + rest else [[s[0]] + rest[0]] + rest[1..]
  }

  // ------------------------------------------------------------ the splitter

  /** The statements found, the open one, and the split of what is left. */
  function Resume(found: seq<string>, open: string, rest: seq<string>): seq<string>
    requires |rest| > 0
  {
    found + [open + rest[0]] + rest[1..]
  }

  lemma ResumeChar(found: seq<string>, open: string, c: char, rest: seq<string>)
    requires |rest| > 0
    ensures Resume(found, open, [[c] + rest[0]] + rest[1..]) == Resume(found, open + [c], rest)
  {
    assert open + ([c] + rest[0]) == (open + [c]) + rest[0];
    assert ([[c] + rest[0]] + rest[1..])[1..] == rest[1..];
  }

  lemma ResumeCut(found: seq<string>, open: string, rest: seq<string>)
    requires |rest| > 0
    ensures Resume(found, open, [""] + rest) == Resume(found + [open], "", rest)
  {
    assert open + "" == open && "" + rest[0] == rest[0];
    assert ([""] + rest)[1..] == rest == [rest[0]] + rest[1..];
  }

  lemma ResumeStep(found: seq<string>, open: string, st: Scan, s: string)
    requires s != ""
    ensures var rest := Split(Advance(st, s[0]), s[1..]);
            Resume(found, open, Split(st, s)) ==
              if Cuts(st, s[0]) then Resume(found + [open], "", rest) else Resume(found, open + [s[0]], rest)
  {
    var rest := Split(Advance(st, s[0]), s[1..]);
    if Cuts(st, s[0]) {
      ResumeCut(found, open, rest);
    } else {
      ResumeChar(found, open, s[0], rest);
    }
  }

  lemma ResumeStart(rest: seq<string>)
    requires |rest| > 0
    ensures Resume([], "", rest) == rest
  {
    assert "" + rest[0] == rest[0];
  }

  /** The scan has come to `i`: `statements` are complete, the open one began at `start`. */
  ghost predicate Scanned(script: string, statements: seq<string>, start: int, i: int, st: Scan) {
    && 0 <= start <= i <= |script|
    && Split(TOP_LEVEL, script) == Resume(statements, script[start..i], Split(st, script[i..]))
  }

  lemma ScannedStart(script: string)
    ensures Scanned(script, [], 0, 0, TOP_LEVEL)
  {
    assert script[0..] == script;
    ResumeStart(Split(TOP_LEVEL, script));
  }

  lemma ScannedStep(script: string, statements: seq<string>, start: int, i: int, st: Scan)
    requires Scanned(script, statements, start, i, st) && i < |script|
    ensures if Cuts(st, script[i])
            then Scanned(script, statements + [script[start..i]], i + 1, i + 1, Advance(st, script[i]))
            else Scanned(script, statements, start, i + 1, Advance(st, script[i]))
  {
    var ch, tail := script[i], script[i..];
    assert tail[0] == ch && tail[1..] == script[i + 1..];
    assert script[start..i + 1] == script[start..i] + [ch] && script[i + 1..i + 1] == "";
    ResumeStep(statements, script[start..i], st, tail);
  }

  lemma ScannedEnd(script: string, statements: seq<string>, start: int, st: Scan)
    requires Scanned(script, statements, start, |script|, st)
    ensures Split(TOP_LEVEL, script) == statements + [script[start..]]
  {
    assert script[|script|..] == "" && script[start..|script|] == script[start..];
    assert script[start..] + "" == script[start..];
  }

  method SplitShellStatementsTopLevel(script: string) returns (statements: seq<string>)
    ensures statements == Split(TOP_LEVEL, script)
  {
    statements := [];
    var start, i := 0, 0;
    var inSingle, inDouble, escaped, parenDepth: nat := false, false, false, 0;
    ScannedStart(script);
    while i < |script|
      invariant Scanned(script, statements, start, i, Scan(inSingle, inDouble, escaped, parenDepth))
    {
      var ch := script[i];
      ScannedStep(script, statements, start, i, Scan(inSingle, inDouble, escaped, parenDepth));
      i := i + 1;
      if escaped {
        escaped := false;
        continue;
      }
      if ch == '\\' && !inSingle {
        escaped := true;
        continue;
      }
      if ch == '\'' && !inDouble {
        inSingle := !inSingle;
        continue;
      }
      if ch == '"' && !inSingle {
        inDouble := !inDouble;
        continue;
      }
      if inSingle || inDouble {
        continue;
      }
      match ch {
        case '(' =>
          parenDepth := parenDepth + 1;
        case ')' =>
          if parenDepth > 0 {
            parenDepth := parenDepth - 1;
          }
        case ';' =>
          if parenDepth == 0 {
            statements := statements + [script[start..i - 1]];
            start := i;
          }
        case _ =>
      }
    }
    ScannedEnd(script, statements, start, Scan(inSingle, inDouble, escaped, parenDepth));
    statements := statements + [script[start..]];
  }

  /** Splitting loses nothing: joining the statements with semicolons is the script. */
  lemma {:induction false} JoinOfSplit(st: Scan, s: string)
    ensures Join(Split(st, s), ";") == s
    decreases s
  {
    if s == "" {
    } else {
      JoinOfSplit(Advance(st, s[0]), s[1..]);
      var rest := Split(Advance(st, s[0]), s[1..]);
      assert s == [s[0]] + s[1..];
      if Cuts(st, s[0]) {
        assert ([""] + rest)[1..] == rest;
      } else {
        assert ([[s[0]] + rest[0]] + rest[1..])[1..] == rest[1..];
      }
    }
  }

  /** No semicolon of `s` cuts when the scan enters it in this state. */
  predicate Uncut(st: Scan, s: string)
    decreases s
  {
    s == "" || (!Cuts(st, s[0]) && Uncut(Advance(st, s[0]), s[1..]))
  }

  /** A statement that closes what it opens and has no semicolon of its own. */
  predicate Balanced(s: string) {
    After(TOP_LEVEL, s) == TOP_LEVEL && Uncut(TOP_LEVEL, s)
  }

  lemma {:induction false} SplitConcat(st: Scan, a: string, b: string)
    requires Uncut(st, a)
    ensures After(st, a + b) == After(After(st, a), b)
    ensures Uncut(st, a + b) <==> Uncut(After(st, a), b)
    ensures var rest := Split(After(st, a), b);
            Split(st, a + b) == [a + rest[0]] + rest[1..]
    decreases a
  {
    var rest := Split(After(st, a), b);
    if a == "" {
      assert a + b == b && a + rest[0] == rest[0];
    } else {
      var s := a + b;
      assert s[0] == a[0] && s[1..] == a[1..] + b;
      SplitConcat(Advance(st, a[0]), a[1..], b);
      assert [a[0]] + (a[1..] + rest[0]) == a + rest[0];
    }
  }

  lemma UncutSplits(st: Scan, s: string)
    requires Uncut(st, s)
    ensures Split(st, s) == [s]
  {
    SplitConcat(st, s, "");
    assert s + "" == s;
  }

  lemma SplitAfterFirst(first: string, rest: string)
    requires Balanced(first)
    ensures Split(TOP_LEVEL, first + ";" + rest) == [first] + Split(TOP_LEVEL, rest)
  {
    var tail, parts := ";" + rest, Split(TOP_LEVEL, rest);
    assert first + ";" + rest == first + tail;
    SplitConcat(TOP_LEVEL, first, tail);
    assert tail[0] == ';' && tail[1..] == rest;
    assert Split(TOP_LEVEL, tail) == [""] + parts;
    assert first + "" == first && ([""] + parts)[1..] == parts;
  }

  /** Pieces as a splitter should find them: all but the last are whole statements, and no
      semicolon separates anything in the last. */
  predicate Pieces(parts: seq<string>) {
    && parts != []
    && (forall i :: 0 <= i < |parts| - 1 ==> Balanced(parts[i]))
    && Uncut(TOP_LEVEL, parts[|parts| - 1])
  }

  /** Splitting finds the statements again, however they quote and nest. */
  lemma {:induction false} SplitOfJoin(parts: seq<string>)
    requires Pieces(parts)
    ensures Split(TOP_LEVEL, Join(parts, ";")) == parts
  {
    if |parts| == 1 {
      UncutSplits(TOP_LEVEL, parts[0]);
    } else {
      assert Balanced(parts[0]);
      assert forall i :: 0 <= i < |parts| - 2 ==> parts[1..][i] == parts[i + 1];
      SplitOfJoin(parts[1..]);
      SplitAfterFirst(parts[0], Join(parts[1..], ";"));
    }
  }

  lemma {:induction false} SplitPieces(st: Scan, s: string)
    ensures var parts := Split(st, s);
            && Uncut(st, parts[0])
            && (|parts| > 1 ==> After(st, parts[0]) == TOP_LEVEL && Pieces(parts[1..]))
    decreases s
  {
    if s == "" {
    } else {
      var rest := Split(Advance(st, s[0]), s[1..]);
      SplitPieces(Advance(st, s[0]), s[1..]);
      if Cuts(st, s[0]) {
        assert Split(st, s)[1..] == rest;
        assert |rest| > 1 ==> forall i :: 0 < i < |rest| - 1 ==> rest[i] == rest[1..][i - 1];
      } else {
        assert Split(st, s)[1..] == rest[1..];
        assert ([s[0]] + rest[0])[1..] == rest[0];
      }
    }
  }

  /** What the splitter finds, without reference to how it does: the one way to cut the script
      at semicolons into whole statements and a last piece with no separator in it. */
  lemma SplitIff(script: string, parts: seq<string>)
    ensures parts == Split(TOP_LEVEL, script) <==> Join(parts, ";") == script && Pieces(parts)
  {
    JoinOfSplit(TOP_LEVEL, script);
    SplitPieces(TOP_LEVEL, script);
    var found := Split(TOP_LEVEL, script);
    if |found| > 1 {
      assert forall i :: 0 < i < |found| - 1 ==> found[i] == found[1..][i - 1];
    }
    if Pieces(parts) {
      SplitOfJoin(parts);
    }
  }

  /** Text put together from balanced pieces is balanced. */
  lemma BalancedConcat(a: string, b: string)
    requires Balanced(a) && Balanced(b)
    ensures Balanced(a + b)
  {
    SplitConcat(TOP_LEVEL, a, b);
  }

  // ------------------------------------------------------------ quoting

  const QUOTED_QUOTE := "'\"'\"'"

  function ShellQuote(value: string): string {
    "'" + ReplaceAll(value, "'", QUOTED_QUOTE) + "'"
  }

  lemma ReplaceQuoteStep(value: string)
    requires value != ""
    ensures ReplaceAll(value, "'", QUOTED_QUOTE) ==
              (if value[0] == '\'' then QUOTED_QUOTE else [value[0]]) + ReplaceAll(value[1..], "'", QUOTED_QUOTE)
  {
  }

  datatype Mode = Plain | Single | Double

  /** Characters that are not themselves outside quotes: they end the word, start an
      expansion or a pattern, or quote (sections 2.2, 2.3 and 2.6 of the POSIX.1-2017
      Shell Command Language). */
  predicate SpecialUnquoted(c: char) {
    c in "|&;<>()$`\\\"' \t\n*?[#~=%"
  }

  /** What a shell makes of one word: quote removal by sections 2.2.1 to 2.2.3.  None if
      the word ends early, is not closed, or contains an expansion. */
  function ReadWord(s: string, mode: Mode): Option<string> {
    if s == "" then (if mode == Plain then Some("") else None)
    else
      var c := s[0];
      match mode
      case Single => if c == '\'' then ReadWord(s[1..], Plain) else Literal(c, ReadWord(s[1..], Single))
      case Double =>
        if c == '"' then ReadWord(s[1..], Plain)
        else if c == '$' || c == '`' then None
        else if c == '\\' && |s| > 1 && s[1] in "$`\"\\" then Literal(s[1], ReadWord(s[2..], Double))
        else if c == '\\' && |s| > 1 && s[1] == '\n' then ReadWord(s[2..], Double)
        else Literal(c, ReadWord(s[1..], Double))
      case Plain =>
        if c == '\'' then ReadWord(s[1..], Single)
        else if c == '"' then ReadWord(s[1..], Double)
        else if c == '\\' && |s| > 1 && s[1] == '\n' then ReadWord(s[2..], Plain)
        else if c == '\\' && |s| > 1 then Literal(s[1], ReadWord(s[2..], Plain))
        else if SpecialUnquoted(c) then None
        else Literal(c, ReadWord(s[1..], Plain))
  }

  function Literal(c: char, rest: Option<string>): Option<string> {
    match rest case None => None case Some(r) => Some([c] + r)
  }

  /** The characters that need quoting end a word or make it something else. */
  lemma SpecialsNeedQuoting(c: char, rest: string)
    requires c in "|&;<>()$` \t\n*?[#~=%"
    ensures ReadWord([c] + rest, Plain) == None
    ensures ReadWord(['\\', c] + rest, Plain) == if c == '\n' then ReadWord(rest, Plain) else Literal(c, ReadWord(rest, Plain))
  {
    assert (['\\', c] + rest)[2..] == rest;
  }

  /** Between double quotes a backslash is itself unless it stands before one of the four characters
      that are special there, or before a newline; a dollar sign or a backquote starts an expansion. */
  lemma BackslashInDoubleQuotes(c: char, rest: string)
    ensures ReadWord(['\\', c] + rest, Double) ==
              if c in "$`\"\\" then Literal(c, ReadWord(rest, Double))
              else if c == '\n' then ReadWord(rest, Double)
              else Literal('\\', Literal(c, ReadWord(rest, Double)))
    ensures c in "$`" ==> ReadWord([c] + rest, Double) == None
  {
    var s := ['\\', c] + rest;
    assert s[2..] == rest && s[1..] == [c] + rest && s[1..][1..] == rest;
    assert ([c] + rest)[1..] == rest;
  }

  lemma ReadQuotedQuote(rest: string)
    ensures ReadWord(QUOTED_QUOTE + rest, Single) == Literal('\'', ReadWord(rest, Single))
  {
    var s0 := QUOTED_QUOTE + rest;
    var s1 := "\"'\"'" + rest;
    var s2 := "'\"'" + rest;
    var s3 := "\"'" + rest;
    var s4 := "'" + rest;
    assert s0[1..] == s1 && s1[1..] == s2 && s2[1..] == s3 && s3[1..] == s4 && s4[1..] == rest;
    assert ReadWord(s0, Single) == ReadWord(s1, Plain);
    assert ReadWord(s1, Plain) == ReadWord(s2, Double);
    assert ReadWord(s2, Double) == Literal('\'', ReadWord(s3, Double));
    assert ReadWord(s3, Double) == ReadWord(s4, Plain);
  }

  /** Reading the rest of a quoted value, from inside the first single quote. */
  lemma {:induction false} ReadQuoted(value: string)
    ensures ReadWord(ReplaceAll(value, "'", QUOTED_QUOTE) + "'", Single) == Some(value)
  {
    if value == "" {
      assert ("" + "'")[1..] == "";
    } else {
      ReplaceQuoteStep(value);
      ReadQuoted(value[1..]);
      var rest := ReplaceAll(value[1..], "'", QUOTED_QUOTE) + "'";
      var s := ReplaceAll(value, "'", QUOTED_QUOTE) + "'";
      assert value == [value[0]] + value[1..];
      if value[0] == '\'' {
        assert s == QUOTED_QUOTE + rest;
        ReadQuotedQuote(rest);
      } else {
        assert s == [value[0]] + rest && s[1..] == rest;
      }
    }
  }

  /** Scanning a quoted value: from inside the quotes back to the top level, uncut. */
  lemma {:induction false} ScanQuoted(value: string)
    ensures var s := ReplaceAll(value, "'", QUOTED_QUOTE) + "'";
            var inside := TOP_LEVEL.(inSingle := true);
            After(inside, s) == TOP_LEVEL && Uncut(inside, s)
  {
    var inside := TOP_LEVEL.(inSingle := true);
    if value == "" {
      assert "" + "'" == "'";
    } else {
      ReplaceQuoteStep(value);
      ScanQuoted(value[1..]);
      var rest := ReplaceAll(value[1..], "'", QUOTED_QUOTE) + "'";
      var s := ReplaceAll(value, "'", QUOTED_QUOTE) + "'";
      if value[0] == '\'' {
        assert s == QUOTED_QUOTE + rest;
        ScanQuotedQuote();
        SplitConcat(inside, QUOTED_QUOTE, rest);
      } else {
        assert s == [value[0]] + rest && s[1..] == rest;
      }
    }
  }

  lemma ScanQuotedQuote()
    ensures var inside := TOP_LEVEL.(inSingle := true);
            After(inside, QUOTED_QUOTE) == inside && Uncut(inside, QUOTED_QUOTE)
  {
    var inside, both := TOP_LEVEL.(inSingle := true), TOP_LEVEL.(inDouble := true);
    var s1, s2, s3, s4 := "\"'\"'", "'\"'", "\"'", "'";
    assert QUOTED_QUOTE[1..] == s1 && s1[1..] == s2 && s2[1..] == s3 && s3[1..] == s4 && s4[1..] == "";
  }

  /** A quoted value is one balanced piece of any script, whatever it contains. */
  lemma QuoteIsOneStatement(value: string)
    ensures Balanced(ShellQuote(value))
  {
    ScanQuoted(value);
    var s := ShellQuote(value);
    var body := ReplaceAll(value, "'", QUOTED_QUOTE) + "'";
    assert s[1..] == body && s == ['\''] + body;
  }

  /** A shell reads a quoted value back as the value itself, whatever it contains. */
  lemma QuoteRoundTrip(value: string)
    ensures ReadWord(ShellQuote(value), Plain) == Some(value)
  {
    ReadQuoted(value);
    var s := ShellQuote(value);
    assert s[1..] == ReplaceAll(value, "'", QUOTED_QUOTE) + "'";
  }
}
