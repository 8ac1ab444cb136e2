/** Shell text as its author writes it, without reference to the scanner: what protects a
    semicolon, and that every other one separates statements. */
module ShellGrammar {
  import opened Common
  import opened ShellText

  datatype Piece =
    | Bare(c: char)                       // stands for itself, and separates nothing
    | Escaped(c: char)                    // a backslash and any character
    | SingleQuoted(s: string)
    | DoubleQuoted(items: seq<Item>)
    | Group(statements: seq<Statement>)  // a subshell

  datatype Statement = Statement(pieces: seq<Piece>)

  /** Inside double quotes: a character, or a backslash and any character. */
  datatype Item = Char(c: char) | EscapedChar(c: char)

  predicate ItemOk(i: Item) {
    i.Char? ==> i.c != '"' && i.c != '\\'
  }

  predicate PieceOk(p: Piece) {
    match p
    case Bare(c) => c !in "\\'\"();"
    case Escaped(_) => true
    case SingleQuoted(s) => '\'' !in s
    case DoubleQuoted(items) => forall i <- items :: ItemOk(i)
    case Group(statements) => statements != [] && forall st <- statements :: StatementOk(st)
  }

  predicate StatementOk(st: Statement) {
    forall p <- st.pieces :: PieceOk(p)
  }

  function ShowItems(items: seq<Item>): string {
    if items == [] then ""
    else (if items[0].Char? then [items[0].c] else ['\\', items[0].c]) + ShowItems(items[1..])
  }

  function ShowPiece(p: Piece): string {
    match p
    case Bare(c) => [c]
    case Escaped(c) => ['\\', c]
    case SingleQuoted(s) => "'" + s + "'"
    case DoubleQuoted(items) => "\"" + ShowItems(items) + "\""
    case Group(statements) => "(" + ShowAll(statements) + ")"
  }

  function ShowPieces(pieces: seq<Piece>): string {
    if pieces == [] then "" else ShowPiece(pieces[0]) + ShowPieces(pieces[1..])
  }

  function Show(st: Statement): string {
    ShowPieces(st.pieces)
  }

  /** Statements separated by semicolons. */
  function ShowAll(statements: seq<Statement>): string {
    if statements == [] then ""
    else if |statements| == 1 then Show(statements[0])
    else Show(statements[0]) + ";" + ShowAll(statements[1..])
  }

  function AtDepth(d: nat): Scan {
    Scan(false, false, false, d)
  }

  /** `s` is passed over in state `st` without a cut, and leads to `end`. */
  predicate Passes(st: Scan, s: string, end: Scan) {
    Uncut(st, s) && After(st, s) == end
  }

  lemma PassesConcat(st: Scan, a: string, mid: Scan, b: string, end: Scan)
    requires Passes(st, a, mid) && Passes(mid, b, end)
    ensures Passes(st, a + b, end)
  {
    SplitConcat(st, a, b);
  }

  lemma PassesOne(st: Scan, c: char)
    requires !Cuts(st, c)
    ensures Passes(st, [c], Advance(st, c))
  {
    assert [c][1..] == "";
  }

  lemma PassesEscape(st: Scan, c: char)
    requires !st.escaped && !st.inSingle
    ensures Passes(st, ['\\', c], st)
  {
    var open := st.(escaped := true);
    PassesOne(st, '\\');
    PassesOne(open, c);
    PassesConcat(st, ['\\'], open, [c], st);
    assert ['\\'] + [c] == ['\\', c];
  }

  lemma {:induction false} PassesSingle(d: nat, s: string)
    requires '\'' !in s
    ensures Passes(AtDepth(d).(inSingle := true), s, AtDepth(d).(inSingle := true))
  {
    var inside := AtDepth(d).(inSingle := true);
    if s == "" {
    } else {
      PassesSingle(d, s[1..]);
      PassesOne(inside, s[0]);
      PassesConcat(inside, [s[0]], inside, s[1..], inside);
      assert [s[0]] + s[1..] == s;
    }
  }

  lemma {:induction false} PassesItems(d: nat, items: seq<Item>)
    requires forall i <- items :: ItemOk(i)
    ensures Passes(AtDepth(d).(inDouble := true), ShowItems(items), AtDepth(d).(inDouble := true))
  {
    var inside := AtDepth(d).(inDouble := true);
    if items == [] {
    } else {
      PassesItems(d, items[1..]);
      assert ItemOk(items[0]);
      if items[0].Char? {
        PassesOne(inside, items[0].c);
        PassesConcat(inside, [items[0].c], inside, ShowItems(items[1..]), inside);
      } else {
        PassesEscape(inside, items[0].c);
        PassesConcat(inside, ['\\', items[0].c], inside, ShowItems(items[1..]), inside);
      }
    }
  }

  /** Text between a character that opens and one that closes. */
  lemma PassesEnclosed(st: Scan, open: char, inside: Scan, text: string, close: char)
    requires !Cuts(st, open) && Advance(st, open) == inside && Passes(inside, text, inside)
    requires !Cuts(inside, close) && Advance(inside, close) == st
    ensures Passes(st, [open] + text + [close], st)
  {
    PassesOne(st, open);
    PassesOne(inside, close);
    PassesConcat(st, [open], inside, text, inside);
    PassesConcat(st, [open] + text, inside, [close], st);
  }

  lemma {:induction false} PassesPiece(d: nat, p: Piece)
    requires PieceOk(p)
    ensures Passes(AtDepth(d), ShowPiece(p), AtDepth(d))
    decreases p
  {
    match p
    case Bare(c) => PassesOne(AtDepth(d), c);
    case Escaped(c) => PassesEscape(AtDepth(d), c);
    case SingleQuoted(s) =>
      PassesSingle(d, s);
      PassesEnclosed(AtDepth(d), '\'', AtDepth(d).(inSingle := true), s, '\'');
    case DoubleQuoted(items) =>
      PassesItems(d, items);
      PassesEnclosed(AtDepth(d), '"', AtDepth(d).(inDouble := true), ShowItems(items), '"');
    case Group(statements) =>
      PassesAll(d + 1, statements);
      PassesEnclosed(AtDepth(d), '(', AtDepth(d + 1), ShowAll(statements), ')');
  }

  lemma {:induction false} PassesPieces(d: nat, pieces: seq<Piece>)
    requires forall p <- pieces :: PieceOk(p)
    ensures Passes(AtDepth(d), ShowPieces(pieces), AtDepth(d))
    decreases pieces
  {
    if pieces == [] {
    } else {
      PassesPiece(d, pieces[0]);
      PassesPieces(d, pieces[1..]);
      PassesConcat(AtDepth(d), ShowPiece(pieces[0]), AtDepth(d), ShowPieces(pieces[1..]), AtDepth(d));
    }
  }

  lemma {:induction false} PassesAll(d: nat, statements: seq<Statement>)
    requires d > 0 && forall st <- statements :: StatementOk(st)
    ensures Passes(AtDepth(d), ShowAll(statements), AtDepth(d))
    decreases statements
  {
    if statements == [] {
    } else {
      assert statements[0] in statements;
      PassesPieces(d, statements[0].pieces);
      if |statements| > 1 {
        PassesAll(d, statements[1..]);
        PassesOne(AtDepth(d), ';');
        PassesConcat(AtDepth(d), Show(statements[0]), AtDepth(d), ";", AtDepth(d));
        PassesConcat(AtDepth(d), Show(statements[0]) + ";", AtDepth(d), ShowAll(statements[1..]), AtDepth(d));
      }
    }
  }

  /** A list of statements, joined by semicolons, is a list of texts joined by semicolons. */
  lemma {:induction false} ShowAllIsJoin(statements: seq<Statement>)
    ensures ShowAll(statements) == Join(Shown(statements), ";")
  {
    if |statements| > 1 {
      ShowAllIsJoin(statements[1..]);
      assert Shown(statements)[1..] == Shown(statements[1..]);
    }
  }

  function Shown(statements: seq<Statement>): (parts: seq<string>)
    ensures |parts| == |statements|
  {
    seq(|statements|, i requires 0 <= i < |statements| => Show(statements[i]))
  }

  /** The law of the splitter, on texts: a script is cut exactly at the semicolons between its
      statements, and at none inside quotes, after a backslash or in a subshell, however nested. */
  lemma SplitsAtStatements(statements: seq<Statement>)
    requires statements != [] && forall st <- statements :: StatementOk(st)
    ensures Split(TOP_LEVEL, ShowAll(statements)) == Shown(statements)
  {
    forall i | 0 <= i < |statements| ensures Balanced(Show(statements[i])) {
      assert statements[i] in statements;
      PassesPieces(0, statements[i].pieces);
    }
    ShowAllIsJoin(statements);
    SplitOfJoin(Shown(statements));
  }

  /** What is left open at the end of a script protects the rest of it. */
  lemma UnclosedProtects(statements: seq<Statement>, s: string, items: seq<Item>)
    requires forall st <- statements :: StatementOk(st)
    requires '\'' !in s && forall i <- items :: ItemOk(i)
    ensures Split(TOP_LEVEL, "(" + ShowAll(statements)) == ["(" + ShowAll(statements)]
    ensures Split(TOP_LEVEL, "'" + s) == ["'" + s]
    ensures Split(TOP_LEVEL, "\"" + ShowItems(items)) == ["\"" + ShowItems(items)]
  {
    PassesOne(TOP_LEVEL, '(');
    PassesAll(1, statements);
    PassesConcat(TOP_LEVEL, "(", AtDepth(1), ShowAll(statements), AtDepth(1));
    UncutSplits(TOP_LEVEL, "(" + ShowAll(statements));
    PassesOne(TOP_LEVEL, '\'');
    PassesSingle(0, s);
    PassesConcat(TOP_LEVEL, "'", AtDepth(0).(inSingle := true), s, AtDepth(0).(inSingle := true));
    UncutSplits(TOP_LEVEL, "'" + s);
    PassesOne(TOP_LEVEL, '"');
    PassesItems(0, items);
    PassesConcat(TOP_LEVEL, "\"", AtDepth(0).(inDouble := true), ShowItems(items), AtDepth(0).(inDouble := true));
    UncutSplits(TOP_LEVEL, "\"" + ShowItems(items));
  }

  /** A parenthesis that closes nothing protects nothing. */
  lemma StrayParenthesis()
    ensures Balanced(")")
  {
    PassesOne(TOP_LEVEL, ')');
  }
}
