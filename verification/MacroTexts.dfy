/** Texts with ${name} references: what their author reads, and what one strings.ReplaceAll
    does to them. The author reads plain text and references. A slug may also occur where none
    of these references is, made of the end of one piece and the beginning of the next: an
    accident. The replacement rewrites it like any other, and is substitution without it. */
module MacroTexts {
  import opened Common

  function Slug(name: string): string {
    "${" + name + "}"
  }

  // ------------------------------------------------------------ templates

  /** A text as its author reads it. */
  datatype Token = Text(s: string) | Ref(name: string)

  type Template = seq<Token>

  predicate NameOk(name: string) {
    '$' !in name && '}' !in name
  }

  /** References are to proper names; plain text may be anything. */
  predicate WellFormed(t: Template) {
    forall i :: 0 <= i < |t| && t[i].Ref? ==> NameOk(t[i].name)
  }

  function Show(tok: Token): string {
    match tok case Text(s) => s case Ref(n) => Slug(n)
  }

  function Render(t: Template): string {
    if t == [] then "" else Show(t[0]) + Render(t[1..])
  }

  lemma RenderCons(tok: Token, t: Template)
    ensures Render([tok] + t) == Show(tok) + Render(t)
  {
    assert ([tok] + t)[1..] == t;
  }

  lemma RenderOne(tok: Token)
    ensures Render([tok]) == Show(tok)
  {
    assert [tok][1..] == [] && Show(tok) + "" == Show(tok);
  }

  lemma ConsConcat(a: Template, b: Template)
    requires a != []
    ensures a == [a[0]] + a[1..] && a + b == [a[0]] + (a[1..] + b)
  {
  }

  lemma {:induction false} RenderConcat(a: Template, b: Template)
    ensures Render(a + b) == Render(a) + Render(b)
  {
    if a == [] {
      assert a + b == b;
    } else {
      var first, rest := a[0], a[1..];
      var tail := rest + b;
      RenderConcat(rest, b);
      RenderCons(first, rest);
      RenderCons(first, tail);
      ConsConcat(a, b);
    }
  }

  // ------------------------------------------------------------ accidental references

  /** No occurrence of `slug` begins in `s` when `r` follows. */
  predicate StaysClear(s: string, r: string, slug: string) {
    forall i :: 0 <= i < |s| ==> !(slug <= (s + r)[i..])
  }

  /** No reference to `name` arises by accident: every occurrence of its slug in the text is
      one that the author wrote as a reference. */
  predicate Separated(t: Template, name: string) {
    t == [] ||
    (Separated(t[1..], name) && (t[0].Text? ==> StaysClear(t[0].s, Render(t[1..]), Slug(name))))
  }

  /** Only the first character of a slug is a dollar sign. */
  lemma SlugTail(name: string, i: nat)
    requires NameOk(name) && 0 < i <= |Slug(name)|
    ensures Slug(name)[0] == '$' && '$' !in Slug(name)[i..]
  {
    var slug := Slug(name);
    assert forall j :: 0 < j < |slug| ==> slug[j] != '$';
  }

  // ------------------------------------------------------------ one ReplaceAll on a template

  /** Replace the references to one macro by its body. */
  function Substitute(t: Template, name: string, body: Template): Template {
    if t == [] then []
    else (if t[0] == Ref(name) then body else [t[0]]) + Substitute(t[1..], name, body)
  }

  lemma ReplaceNone(s: string, slug: string, v: string)
    requires s != "" && slug != "" && !(slug <= s)
    ensures ReplaceAll(s, slug, v) == [s[0]] + ReplaceAll(s[1..], slug, v)
  {
    if |s| < |slug| {
      assert [s[0]] + s[1..] == s;
    }
  }

  lemma SkipOne(s: string, r: string, slug: string, v: string, rest: string)
    requires s != "" && slug != "" && !(slug <= s + r)
    requires ReplaceAll(s[1..] + r, slug, v) == s[1..] + rest
    ensures ReplaceAll(s + r, slug, v) == s + rest
  {
    ReplaceNone(s + r, slug, v);
    assert (s + r)[0] == s[0] && (s + r)[1..] == s[1..] + r;
    assert [s[0]] + (s[1..] + rest) == s + rest;
  }

  lemma ClearTail(s: string, r: string, slug: string)
    requires s != "" && StaysClear(s, r, slug)
    ensures !(slug <= s + r) && StaysClear(s[1..], r, slug)
  {
    assert (s + r)[0..] == s + r;
    forall i | 0 <= i < |s| - 1 ensures !(slug <= (s[1..] + r)[i..]) {
      assert (s[1..] + r)[i..] == (s + r)[i + 1..];
    }
  }

  /** Text in which no occurrence begins is copied. */
  lemma {:induction false} SkipText(s: string, r: string, slug: string, v: string)
    requires slug != "" && StaysClear(s, r, slug)
    ensures ReplaceAll(s + r, slug, v) == s + ReplaceAll(r, slug, v)
  {
    if s == "" {
      assert s + r == r;
    } else {
      ClearTail(s, r, slug);
      SkipText(s[1..], r, slug, v);
      SkipOne(s, r, slug, v, ReplaceAll(r, slug, v));
    }
  }

  lemma SlugPrefix(name: string, other: string, r: string)
    requires NameOk(name) && NameOk(other)
    requires Slug(name) <= Slug(other) + r
    ensures name == other
  {
    var a, b := Slug(name), Slug(other) + r;
    assert forall i :: 0 <= i < |name| ==> name[i] == a[i + 2] == b[i + 2];
    assert forall i :: 0 <= i < |other| ==> other[i] == b[i + 2];
    assert a[|name| + 2] == '}' == b[|name| + 2];
    assert b[|other| + 2] == '}';
  }

  /** A reference to another name is copied. */
  lemma SkipRef(other: string, r: string, name: string, v: string)
    requires NameOk(name) && NameOk(other) && other != name
    ensures ReplaceAll(Slug(other) + r, Slug(name), v) == Slug(other) + ReplaceAll(r, Slug(name), v)
  {
    var s, slug := Slug(other), Slug(name);
    SlugTail(other, 1);
    forall i | 0 <= i < |s| ensures !(slug <= (s + r)[i..]) {
      if i == 0 {
        assert (s + r)[0..] == s + r;
        if slug <= s + r {
          SlugPrefix(name, other, r);
        }
      } else {
        assert (s + r)[i..][0] == s[1..][i - 1];
      }
    }
    SkipText(s, r, slug, v);
  }

  lemma TakeRef(r: string, name: string, v: string)
    ensures ReplaceAll(Slug(name) + r, Slug(name), v) == v + ReplaceAll(r, Slug(name), v)
  {
    assert (Slug(name) + r)[|Slug(name)|..] == r;
  }

  /** One step of substitution, rendered. */
  lemma RenderSubstitute(t: Template, name: string, body: Template)
    requires t != []
    ensures Render(Substitute(t, name, body)) ==
              (if t[0] == Ref(name) then Render(body) else Show(t[0])) + Render(Substitute(t[1..], name, body))
  {
    var rest := Substitute(t[1..], name, body);
    if t[0] == Ref(name) {
      RenderConcat(body, rest);
    } else {
      RenderCons(t[0], rest);
    }
  }

  /** ReplaceAll on the rendered text is substitution on the template. */
  lemma {:induction false} ReplaceIsSubstitute(t: Template, name: string, body: Template)
    requires WellFormed(t) && NameOk(name) && Separated(t, name)
    ensures ReplaceAll(Render(t), Slug(name), Render(body)) == Render(Substitute(t, name, body))
  {
    if t == [] {
      assert Substitute(t, name, body) == [];
    } else {
      var rest, r, v := t[1..], Render(t[1..]), Render(body);
      ReplaceIsSubstitute(rest, name, body);
      RenderSubstitute(t, name, body);
      match t[0]
      case Text(s) => SkipText(s, r, Slug(name), v);
      case Ref(other) =>
        if other == name { TakeRef(r, name, v); } else { SkipRef(other, r, name, v); }
    }
  }

  // ------------------------------------------------------------ the converse

  lemma PlainStart(p: string, t: Template)
    requires '$' !in p && p != "" && p <= Render(t)
    ensures t != [] && t[0].Text?
  {
    assert p[0] == Render(t)[0] && p[0] in p;
    assert forall n :: Slug(n)[0] == '$';
  }

  /** A text without dollar signs that begins a template is plain text there, and stays when
      references are substituted. */
  lemma {:induction false} PrefixStays(p: string, t: Template, name: string, body: Template)
    requires '$' !in p && p <= Render(t)
    ensures p <= Render(Substitute(t, name, body))
  {
    if t == [] || p == "" {
    } else {
      PlainStart(p, t);
      var s := t[0].s;
      RenderSubstitute(t, name, body);
      if |p| <= |s| {
        assert p <= s;
      } else {
        assert p == s + p[|s|..] && p[|s|..] <= Render(t[1..]);
        PrefixStays(p[|s|..], t[1..], name, body);
      }
    }
  }

  /** How much ReplaceAll, and how much substitution, lengthens a text. */
  function Growth(s: string, slug: string, v: string): int
    requires slug != ""
  {
    |ReplaceAll(s, slug, v)| - |s|
  }

  function Wanted(t: Template, name: string, body: Template): int {
    |Render(Substitute(t, name, body))| - |Render(t)|
  }

  /** ReplaceAll changes the length of `x` at least as much as substitution that of `t`, in the
      direction in which the value differs from the slug: it misses no reference. */
  predicate MissesNone(x: string, t: Template, name: string, body: Template) {
    var slug, v := Slug(name), Render(body);
    && (|v| >= |slug| ==> Growth(x, slug, v) >= Wanted(t, name, body))
    && (|v| <= |slug| ==> Growth(x, slug, v) <= Wanted(t, name, body))
  }

  lemma TakeStep(x: string, t: Template, name: string, body: Template)
    requires Slug(name) <= x && MissesNone(x[|Slug(name)|..], t, name, body)
    ensures MissesNone(x, t, name, body)
  {
  }

  lemma SkipStep(x: string, t: Template, name: string, body: Template)
    requires x != "" && !(Slug(name) <= x) && MissesNone(x[1..], t, name, body)
    ensures MissesNone(x, t, name, body)
  {
    ReplaceNone(x, Slug(name), Render(body));
  }

  lemma TextStep(x: string, t: Template, name: string, body: Template)
    requires t != [] && t[0].Text? && MissesNone(x, t[1..], name, body)
    ensures MissesNone(x, t, name, body)
  {
    RenderSubstitute(t, name, body);
  }

  lemma RefStep(t: Template, name: string, body: Template)
    requires WellFormed(t) && NameOk(name) && t != [] && t[0].Ref?
    requires MissesNone(Render(t[1..]), t[1..], name, body)
    ensures MissesNone(Render(t), t, name, body)
  {
    var rest := Render(t[1..]);
    RenderSubstitute(t, name, body);
    if t[0].name == name {
      TakeRef(rest, name, Render(body));
    } else {
      SkipRef(t[0].name, rest, name, Render(body));
    }
  }

  /** Text before a template hides none of its references. */
  lemma {:induction false} BehindText(w: string, t: Template, name: string, body: Template)
    requires WellFormed(t) && NameOk(name)
    ensures MissesNone(w + Render(t), t, name, body)
    decreases |t|, |w|, 1
  {
    var slug, r := Slug(name), Render(t);
    var x := w + r;
    if w == "" {
      assert x == r;
      BehindNothing(t, name, body);
    } else if !(slug <= x) {
      assert x[1..] == w[1..] + r;
      BehindText(w[1..], t, name, body);
      SkipStep(x, t, name, body);
    } else if |slug| <= |w| {
      assert x[|slug|..] == w[|slug|..] + r;
      BehindText(w[|slug|..], t, name, body);
      TakeStep(x, t, name, body);
    } else {
      var p := slug[|w|..];
      SlugTail(name, |w|);
      assert p <= r && x[|slug|..] == r[|p|..];
      BehindPrefix(p, t, name, body);
      TakeStep(x, t, name, body);
    }
  }

  lemma {:induction false} BehindNothing(t: Template, name: string, body: Template)
    requires WellFormed(t) && NameOk(name)
    ensures MissesNone(Render(t), t, name, body)
    decreases |t|, 0, 0
  {
    if t == [] {
      assert Substitute(t, name, body) == [];
    } else if t[0].Text? {
      BehindText(t[0].s, t[1..], name, body);
      TextStep(Render(t), t, name, body);
    } else {
      BehindNothing(t[1..], name, body);
      RefStep(t, name, body);
    }
  }

  /** Nor does taking away a beginning without dollar signs. */
  lemma {:induction false} BehindPrefix(p: string, t: Template, name: string, body: Template)
    requires WellFormed(t) && NameOk(name) && '$' !in p && p <= Render(t)
    ensures MissesNone(Render(t)[|p|..], t, name, body)
    decreases |t|, 0, 1
  {
    var r := Render(t);
    if p == "" {
      assert r[|p|..] == r;
      BehindNothing(t, name, body);
    } else {
      PlainStart(p, t);
      var s, rest := t[0].s, Render(t[1..]);
      if |p| <= |s| {
        assert r[|p|..] == s[|p|..] + rest;
        BehindText(s[|p|..], t[1..], name, body);
      } else {
        assert r[|p|..] == rest[|p| - |s|..] && p[|s|..] <= rest;
        BehindPrefix(p[|s|..], t[1..], name, body);
      }
      TextStep(r[|p|..], t, name, body);
    }
  }

  lemma ClearCons(s: string, r: string, slug: string)
    requires s != "" && !(slug <= s + r) && StaysClear(s[1..], r, slug)
    ensures StaysClear(s, r, slug)
  {
    assert (s + r)[0..] == s + r;
    forall i | 0 < i < |s| ensures !(slug <= (s + r)[i..]) {
      assert (s[1..] + r)[i - 1..] == (s + r)[i..];
    }
  }

  lemma ClearSplit(s: string, r: string, slug: string, i: nat)
    requires s != "" && !(slug <= s + r) && i < |s| && StaysClear(s[1..][..i], s[1..][i..] + r, slug)
    ensures StaysClear(s[..i + 1], s[i + 1..] + r, slug)
  {
    var x, y := s[..i + 1], s[i + 1..] + r;
    assert x + y == s + r && x[1..] == s[1..][..i] && y == s[1..][i..] + r;
    ClearCons(x, y, slug);
  }

  /** The first place in `s` at which the slug occurs by accident. */
  lemma {:induction false} FirstAccident(s: string, r: string, slug: string) returns (i: nat)
    requires !StaysClear(s, r, slug)
    ensures i < |s| && slug <= s[i..] + r && StaysClear(s[..i], s[i..] + r, slug)
  {
    if slug <= s + r {
      i := 0;
      assert s[0..] == s;
    } else {
      if StaysClear(s[1..], r, slug) {
        ClearCons(s, r, slug);
        assert false;
      }
      i := FirstAccident(s[1..], r, slug);
      ClearSplit(s, r, slug, i);
      assert s[1..][i..] == s[i + 1..];
      i := i + 1;
    }
  }

  lemma DropFront(s: string, r: string, i: nat)
    requires i <= |s|
    ensures (s + r)[i..] == s[i..] + r
  {
  }

  /** An occurrence that begins in plain text stays when the references behind it are substituted. */
  lemma SlugStays(b: string, t: Template, n: string, name: string, body: Template)
    requires NameOk(n) && b != "" && Slug(n) <= b + Render(t)
    ensures Slug(n) <= b + Render(Substitute(t, name, body))
  {
    var slug, x := Slug(n), b + Render(t);
    if |slug| <= |b| {
      assert slug <= b;
    } else {
      var p := slug[|b|..];
      SlugTail(n, |b|);
      assert x[|b|..] == Render(t) && x[..|slug|] == slug;
      assert p == Render(t)[..|p|];
      PrefixStays(p, t, name, body);
      assert slug == b + p;
    }
  }

  /** The difference an accident makes: the value stands where substitution leaves the slug. */
  lemma AccidentShows(s: string, i: nat, t: Template, name: string, body: Template)
    requires WellFormed(t) && NameOk(name) && Render(body) != Slug(name)
    requires i < |s| && Slug(name) <= s[i..] + Render(t)
    ensures ReplaceAll(s[i..] + Render(t), Slug(name), Render(body)) != s[i..] + Render(Substitute(t, name, body))
  {
    var slug, v, b := Slug(name), Render(body), s[i..];
    var x := b + Render(t);
    SlugStays(b, t, name, name, body);
    TakeRef(x[|slug|..], name, v);
    assert x == slug + x[|slug|..];
    BehindSlug(b, t, name, body);
  }

  lemma BehindSlug(b: string, t: Template, name: string, body: Template)
    requires WellFormed(t) && NameOk(name) && b != "" && Slug(name) <= b + Render(t)
    ensures MissesNone((b + Render(t))[|Slug(name)|..], t, name, body)
  {
    var slug, x := Slug(name), b + Render(t);
    if |slug| <= |b| {
      DropFront(b, Render(t), |slug|);
      BehindText(b[|slug|..], t, name, body);
    } else {
      var p := slug[|b|..];
      SlugTail(name, |b|);
      assert x[|b|..] == Render(t) && p == Render(t)[..|p|] && x[|slug|..] == Render(t)[|p|..];
      BehindPrefix(p, t, name, body);
    }
  }

  lemma CancelPrefix(a: string, x: string, y: string)
    ensures a + x == a + y <==> x == y
  {
    assert (a + x)[|a|..] == x && (a + y)[|a|..] == y;
  }

  lemma RefExact(other: string, r: string, q: string, name: string, v: string)
    requires NameOk(name) && NameOk(other)
    ensures ReplaceAll(Slug(other) + r, Slug(name), v) == (if other == name then v else Slug(other)) + q
            <==> ReplaceAll(r, Slug(name), v) == q
  {
    var y := ReplaceAll(r, Slug(name), v);
    if other == name {
      TakeRef(r, name, v);
      CancelPrefix(v, y, q);
    } else {
      SkipRef(other, r, name, v);
      CancelPrefix(Slug(other), y, q);
    }
  }

  lemma SplitFront(s: string, i: nat, r: string)
    requires i <= |s|
    ensures s + r == s[..i] + (s[i..] + r)
  {
  }

  lemma TextExact(s: string, t: Template, name: string, body: Template)
    requires WellFormed(t) && NameOk(name) && Render(body) != Slug(name)
    ensures var q := Render(Substitute(t, name, body));
            ReplaceAll(s + Render(t), Slug(name), Render(body)) == s + q
            <==> StaysClear(s, Render(t), Slug(name)) && ReplaceAll(Render(t), Slug(name), Render(body)) == q
  {
    var r, q, slug, v := Render(t), Render(Substitute(t, name, body)), Slug(name), Render(body);
    if StaysClear(s, r, slug) {
      SkipText(s, r, slug, v);
      CancelPrefix(s, ReplaceAll(r, slug, v), q);
    } else {
      var i := FirstAccident(s, r, slug);
      var a, b := s[..i], s[i..];
      AccidentShows(s, i, t, name, body);
      SkipText(a, b + r, slug, v);
      SplitFront(s, i, r);
      SplitFront(s, i, q);
      CancelPrefix(a, ReplaceAll(b + r, slug, v), b + q);
    }
  }

  /** The exact condition: as long as the value is not the reference itself, ReplaceAll does
      what substitution means exactly when no reference arises by accident. */
  lemma {:induction false} ReplaceIsSubstituteIff(t: Template, name: string, body: Template)
    requires WellFormed(t) && NameOk(name) && Render(body) != Slug(name)
    ensures ReplaceAll(Render(t), Slug(name), Render(body)) == Render(Substitute(t, name, body)) <==> Separated(t, name)
  {
    if t == [] {
      assert Substitute(t, name, body) == [];
    } else {
      var rest := t[1..];
      ReplaceIsSubstituteIff(rest, name, body);
      RenderSubstitute(t, name, body);
      match t[0]
      case Ref(other) => RefExact(other, Render(rest), Render(Substitute(rest, name, body)), name, Render(body));
      case Text(s) => TextExact(s, rest, name, body);
    }
  }

  // ------------------------------------------------------------ occurrences

  /** strings.Contains. */
  ghost predicate Contains(s: string, sub: string) {
    exists i :: 0 <= i <= |s| && sub <= s[i..]
  }

  /** Deleting an occurring substring shortens the text. */
  lemma {:induction false} DeletionShrinks(s: string, sub: string)
    requires sub != ""
    ensures |ReplaceAll(s, sub, "")| <= |s|
    ensures Contains(s, sub) ==> |ReplaceAll(s, sub, "")| < |s|
  {
    if |s| >= |sub| {
      if sub <= s {
        DeletionShrinks(s[|sub|..], sub);
      } else {
        DeletionShrinks(s[1..], sub);
        if i :| 0 <= i <= |s| && sub <= s[i..] {
          assert i > 0 && s[1..][i - 1..] == s[i..];
        }
      }
    }
  }

  lemma {:induction false} AbsentSubstitute(t: Template, name: string, body: Template)
    requires Ref(name) !in t
    ensures Substitute(t, name, body) == t
  {
    if t == [] {
    } else {
      AbsentSubstitute(t[1..], name, body);
      assert t == [t[0]] + t[1..];
    }
  }

  lemma ContainsBehind(a: string, s: string, sub: string)
    requires Contains(s, sub)
    ensures Contains(a + s, sub)
  {
    var i :| 0 <= i <= |s| && sub <= s[i..];
    var whole := a + s;
    assert whole[|a| + i..] == s[i..];
  }

  lemma ContainsAt(s: string, i: nat, sub: string)
    requires i <= |s| && sub <= s[i..]
    ensures Contains(s, sub)
  {
  }

  lemma {:induction false} PresentOccurs(t: Template, name: string)
    requires Ref(name) in t || !Separated(t, name)
    ensures Contains(Render(t), Slug(name))
  {
    var slug, rest := Slug(name), Render(t[1..]);
    if t[0] == Ref(name) {
      assert (slug + rest)[0..] == slug + rest;
      ContainsAt(slug + rest, 0, slug);
    } else if Ref(name) in t[1..] || !Separated(t[1..], name) {
      PresentOccurs(t[1..], name);
      ContainsBehind(Show(t[0]), rest, slug);
    } else {
      var i :| 0 <= i < |t[0].s| && slug <= (t[0].s + rest)[i..];
      ContainsAt(t[0].s + rest, i, slug);
    }
  }

  /** In a rendered template a slug occurs exactly where its author refers to it, and where a
      reference arises by accident. */
  lemma OccursIff(t: Template, name: string)
    requires WellFormed(t) && NameOk(name)
    ensures Contains(Render(t), Slug(name)) <==> Ref(name) in t || !Separated(t, name)
  {
    if Ref(name) in t || !Separated(t, name) {
      PresentOccurs(t, name);
    } else {
      AbsentSubstitute(t, name, []);
      ReplaceIsSubstitute(t, name, []);
      DeletionShrinks(Render(t), Slug(name));
    }
  }

  // ------------------------------------------------------------ accidents persist

  lemma {:induction false} SeparatedTail(a: Template, b: Template, name: string)
    requires Separated(a + b, name)
    ensures Separated(b, name)
  {
    if a == [] {
      assert a + b == b;
    } else {
      assert (a + b)[1..] == a[1..] + b;
      SeparatedTail(a[1..], b, name);
    }
  }

  lemma AccidentKept(s: string, t: Template, n: string, name: string, body: Template)
    requires NameOk(n) && !StaysClear(s, Render(t), Slug(n))
    ensures !StaysClear(s, Render(Substitute(t, name, body)), Slug(n))
  {
    var slug, r, q := Slug(n), Render(t), Render(Substitute(t, name, body));
    var i :| 0 <= i < |s| && slug <= (s + r)[i..];
    DropFront(s, r, i);
    DropFront(s, q, i);
    SlugStays(s[i..], t, n, name, body);
  }

  /** Substituting references undoes no accident: a text that joins into a reference still
      does so afterwards. */
  lemma {:induction false} AccidentStays(t: Template, n: string, name: string, body: Template)
    requires NameOk(n) && !Separated(t, n)
    ensures !Separated(Substitute(t, name, body), n)
  {
    var rest := Substitute(t[1..], name, body);
    if Separated(t[1..], n) {
      AccidentKept(t[0].s, t[1..], n, name, body);
      assert ([t[0]] + rest)[1..] == rest;
    } else {
      AccidentStays(t[1..], n, name, body);
      if Separated(Substitute(t, name, body), n) {
        SeparatedTail(if t[0] == Ref(name) then body else [t[0]], rest, n);
      }
    }
  }

  // ------------------------------------------------------------ every string is a template

  predicate NameChar(c: char) {
    'a' <= c <= 'z' || 'A' <= c <= 'Z' || '0' <= c <= '9' || c == '_' || c == '-'
  }

  /** The characters of the name pattern, by their ASCII codes: digits, capital and small letters,
      hyphen and underscore. */
  lemma NameCharIs(c: char)
    ensures NameChar(c) <==> var u := c as int; 48 <= u <= 57 || 65 <= u <= 90 || 97 <= u <= 122 || u in {45, 95}
  {
  }

  predicate MatchesNameRegex(name: string) {
    name != "" && forall c <- name :: NameChar(c)
  }

  function NameRun(s: string): (n: nat)
    ensures n <= |s| && (forall i :: 0 <= i < n ==> NameChar(s[i])) && (n < |s| ==> !NameChar(s[n]))
  {
    if s == "" || !NameChar(s[0]) then 0 else 1 + NameRun(s[1..])
  }

  /** The name referred to at the beginning of `s`, if a reference begins there. */
  function LeadingRef(s: string): (name: Option<string>)
    ensures name.Some? ==> Slug(name.value) <= s && MatchesNameRegex(name.value)
  {
    if !("${" <= s) then None
    else
      var n := NameRun(s[2..]);
      if n > 0 && n + 2 < |s| && s[n + 2] == '}' then
        assert s[..n + 3] == "${" + s[2..][..n] + "}";
        Some(s[2..][..n])
      else None
  }

  /** How a text is read: every ${name} is a reference. */
  function Parse(s: string): Template {
    if s == "" then []
    else
      match LeadingRef(s)
      case Some(name) => [Ref(name)] + Parse(s[|Slug(name)|..])
      case None => [Text([s[0]])] + Parse(s[1..])
  }

  lemma {:induction false} RunEnds(s: string, n: nat)
    requires n < |s| && !NameChar(s[n]) && forall i :: 0 <= i < n ==> NameChar(s[i])
    ensures NameRun(s) == n
  {
    if n == 0 {
    } else {
      RunEnds(s[1..], n - 1);
    }
  }

  lemma RefBegins(s: string, name: string)
    requires MatchesNameRegex(name) && Slug(name) <= s
    ensures LeadingRef(s) == Some(name)
  {
    var slug := Slug(name);
    assert "${" <= s && forall i :: 0 <= i < |name| ==> s[2..][i] == slug[i + 2] == name[i];
    assert s[2..][|name|] == slug[|name| + 2] == '}';
    RunEnds(s[2..], |name|);
    assert s[2..][..|name|] == name;
  }

  /** Every string is the rendering of what is read in it, and as a macro name is a proper
      name, no reference in it is an accident. */
  lemma {:induction false} ParseReads(s: string, n: string)
    requires MatchesNameRegex(n)
    ensures Render(Parse(s)) == s && WellFormed(Parse(s)) && Separated(Parse(s), n)
  {
    if s == "" {
    } else {
      match LeadingRef(s)
      case Some(name) =>
        var rest := s[|Slug(name)|..];
        ParseReads(rest, n);
        RenderCons(Ref(name), Parse(rest));
        assert ([Ref(name)] + Parse(rest))[1..] == Parse(rest);
      case None =>
        var rest := s[1..];
        ParseReads(rest, n);
        RenderCons(Text([s[0]]), Parse(rest));
        assert ([Text([s[0]])] + Parse(rest))[1..] == Parse(rest);
        assert [s[0]] + rest == s && s[0..] == s;
        if Slug(n) <= s {
          RefBegins(s, n);
        }
    }
  }
}
