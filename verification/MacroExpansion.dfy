/** The macro language of the configuration: a list of macros, expanded by one ReplaceAll per
    macro, last macro first, against the recursive reading of its references. */
module MacroExpansion {
  import opened Common
  import opened MacroTexts

  /** A macro with its value as fmt prints it; `scalar`: the value is a number or a boolean. */
  datatype Macro = Macro(name: string, value: string, scalar: bool)

  // ------------------------------------------------------------ the whole expansion

  /** The loop of the loader over macros[..k], last first. */
  function Lifo(s: string, macros: seq<Macro>, k: nat): string
    requires k <= |macros|
    decreases k
  {
    if k == 0 then s
    else Lifo(ReplaceAll(s, Slug(macros[k - 1].name), macros[k - 1].value), macros, k - 1)
  }

  /** Macros together with the templates their values render. */
  ghost predicate Denotes(macros: seq<Macro>, bodies: seq<Template>) {
    && |macros| == |bodies|
    && forall i :: 0 <= i < |macros| ==>
         NameOk(macros[i].name) && WellFormed(bodies[i]) && macros[i].value == Render(bodies[i])
  }

  /** The last macro before `k` with this name. */
  function Binding(macros: seq<Macro>, name: string, k: nat): (j: Option<nat>)
    requires k <= |macros|
    ensures j.Some? ==> j.value < k && macros[j.value].name == name
  {
    if k == 0 then None
    else if macros[k - 1].name == name then Some(k - 1)
    else Binding(macros, name, k - 1)
  }

  /** The meaning of a text at level `k`: a reference stands for the expansion of the last
      macro of that name before `k`, whose body sees only the macros before itself. */
  function Expand(t: Template, macros: seq<Macro>, bodies: seq<Template>, k: nat): Template
    requires k <= |macros| == |bodies|
    decreases k, |t|
  {
    if t == [] then []
    else ExpandToken(t[0], macros, bodies, k) + Expand(t[1..], macros, bodies, k)
  }

  function ExpandToken(tok: Token, macros: seq<Macro>, bodies: seq<Template>, k: nat): Template
    requires k <= |macros| == |bodies|
    decreases k, 0
  {
    match tok
    case Text(_) => [tok]
    case Ref(name) =>
      var j := Binding(macros, name, k);
      if j.None? then [tok] else Expand(bodies[j.value], macros, bodies, j.value)
  }

  lemma {:induction false} ExpandConcat(a: Template, b: Template, macros: seq<Macro>, bodies: seq<Template>, k: nat)
    requires k <= |macros| == |bodies|
    ensures Expand(a + b, macros, bodies, k) == Expand(a, macros, bodies, k) + Expand(b, macros, bodies, k)
  {
    if a == [] {
      assert a + b == b;
    } else {
      ExpandConcat(a[1..], b, macros, bodies, k);
      assert (a + b)[0] == a[0] && (a + b)[1..] == a[1..] + b;
      var first, x, y := ExpandToken(a[0], macros, bodies, k), Expand(a[1..], macros, bodies, k), Expand(b, macros, bodies, k);
      assert first + (x + y) == (first + x) + y;
    }
  }

  /** Substituting the last macro and expanding the rest is expanding everything. */
  lemma {:induction false} PeelLast(t: Template, macros: seq<Macro>, bodies: seq<Template>, k: nat)
    requires 0 < k <= |macros| == |bodies|
    ensures Expand(Substitute(t, macros[k - 1].name, bodies[k - 1]), macros, bodies, k - 1) == Expand(t, macros, bodies, k)
  {
    if t == [] {
    } else {
      var name, body := macros[k - 1].name, bodies[k - 1];
      PeelLast(t[1..], macros, bodies, k);
      var first := if t[0] == Ref(name) then body else [t[0]];
      ExpandConcat(first, Substitute(t[1..], name, body), macros, bodies, k - 1);
      if t[0] != Ref(name) {
        assert Expand([t[0]], macros, bodies, k - 1) == ExpandToken(t[0], macros, bodies, k - 1) + [];
      }
    }
  }

  lemma {:induction false} SubstituteWellFormed(t: Template, name: string, body: Template)
    requires WellFormed(t) && WellFormed(body)
    ensures WellFormed(Substitute(t, name, body))
  {
    if t == [] {
    } else {
      SubstituteWellFormed(t[1..], name, body);
    }
  }

  /** In none of the replacements a reference to the macro being replaced arises by accident. */
  predicate Faithful(t: Template, macros: seq<Macro>, bodies: seq<Template>, k: nat)
    requires k <= |macros| == |bodies|
    decreases k
  {
    k == 0 ||
    (Separated(t, macros[k - 1].name) && Faithful(Substitute(t, macros[k - 1].name, bodies[k - 1]), macros, bodies, k - 1))
  }

  /** Every one of the replacements does to the text what substituting its macro means. */
  predicate StepsAsMeant(t: Template, macros: seq<Macro>, bodies: seq<Template>, k: nat)
    requires k <= |macros| == |bodies|
    decreases k
  {
    k == 0 ||
    var m, next := macros[k - 1], Substitute(t, macros[k - 1].name, bodies[k - 1]);
    ReplaceAll(Render(t), Slug(m.name), m.value) == Render(next) && StepsAsMeant(next, macros, bodies, k - 1)
  }

  lemma StepIff(t: Template, m: Macro, body: Template)
    requires WellFormed(t) && NameOk(m.name) && m.value == Render(body) && m.value != Slug(m.name)
    ensures ReplaceAll(Render(t), Slug(m.name), m.value) == Render(Substitute(t, m.name, body)) <==> Separated(t, m.name)
  {
    ReplaceIsSubstituteIff(t, m.name, body);
  }

  /** No value is the reference to its own macro. */
  predicate NoSelfValue(macros: seq<Macro>) {
    forall i :: 0 <= i < |macros| ==> macros[i].value != Slug(macros[i].name)
  }

  /** The exact condition for that, as accepted macros do not refer to themselves. */
  lemma {:induction false} StepsAsMeantIff(t: Template, macros: seq<Macro>, bodies: seq<Template>, k: nat)
    requires Denotes(macros, bodies) && WellFormed(t) && k <= |macros| && NoSelfValue(macros)
    ensures StepsAsMeant(t, macros, bodies, k) <==> Faithful(t, macros, bodies, k)
    decreases k
  {
    if k == 0 {
    } else {
      var next := Substitute(t, macros[k - 1].name, bodies[k - 1]);
      StepIff(t, macros[k - 1], bodies[k - 1]);
      SubstituteWellFormed(t, macros[k - 1].name, bodies[k - 1]);
      StepsAsMeantIff(next, macros, bodies, k - 1);
    }
  }

  /** String replacement, last macro first, implements the recursive macro language. */
  lemma {:induction false} LifoIsExpand(t: Template, macros: seq<Macro>, bodies: seq<Template>, k: nat)
    requires Denotes(macros, bodies) && WellFormed(t) && k <= |macros| && Faithful(t, macros, bodies, k)
    ensures Lifo(Render(t), macros, k) == Render(Expand(t, macros, bodies, k))
    decreases k
  {
    if k == 0 {
      ExpandNone(t, macros, bodies);
    } else {
      var name, body := macros[k - 1].name, bodies[k - 1];
      ReplaceIsSubstitute(t, name, body);
      SubstituteWellFormed(t, name, body);
      LifoIsExpand(Substitute(t, name, body), macros, bodies, k - 1);
      PeelLast(t, macros, bodies, k);
    }
  }

  lemma {:induction false} ExpandNone(t: Template, macros: seq<Macro>, bodies: seq<Template>)
    requires |macros| == |bodies|
    ensures Expand(t, macros, bodies, 0) == t
  {
    if t == [] {
    } else {
      ExpandNone(t[1..], macros, bodies);
    }
  }

  // ------------------------------------------------------------ accidents are visible in the end

  lemma {:induction false} AccidentInTheEnd(t: Template, macros: seq<Macro>, bodies: seq<Template>, k: nat, n: string)
    requires k <= |macros| == |bodies| && NameOk(n) && !Separated(t, n)
    ensures !Separated(Expand(t, macros, bodies, k), n)
    decreases k
  {
    if k == 0 {
      ExpandNone(t, macros, bodies);
    } else {
      var name, body := macros[k - 1].name, bodies[k - 1];
      AccidentStays(t, n, name, body);
      AccidentInTheEnd(Substitute(t, name, body), macros, bodies, k - 1, n);
      PeelLast(t, macros, bodies, k);
    }
  }

  /** No reference to a macro arises by accident in the expanded text. */
  ghost predicate CleanEnd(t: Template, macros: seq<Macro>, bodies: seq<Template>)
    requires |macros| == |bodies|
  {
    forall i :: 0 <= i < |macros| ==> Separated(Expand(t, macros, bodies, |macros|), macros[i].name)
  }

  /** A join that would disturb a replacement is still there in the expanded text, so it is
      enough to look for one there. */
  lemma {:induction false} CleanIsFaithful(t: Template, macros: seq<Macro>, bodies: seq<Template>, k: nat)
    requires k <= |macros| == |bodies| && forall i :: 0 <= i < k ==> NameOk(macros[i].name)
    requires forall i :: 0 <= i < k ==> Separated(Expand(t, macros, bodies, k), macros[i].name)
    ensures Faithful(t, macros, bodies, k)
    decreases k
  {
    if k == 0 {
    } else {
      var name, body := macros[k - 1].name, bodies[k - 1];
      if !Separated(t, name) {
        AccidentInTheEnd(t, macros, bodies, k, name);
      }
      PeelLast(t, macros, bodies, k);
      CleanIsFaithful(Substitute(t, name, body), macros, bodies, k - 1);
    }
  }

  // ------------------------------------------------------------ what survives

  /** Following the references of a text at level `k` meets a reference to `name` that
      has no macro of that name before it. */
  ghost predicate Dangles(t: Template, macros: seq<Macro>, bodies: seq<Template>, k: nat, name: string)
    requires k <= |macros| == |bodies|
    decreases k
  {
    exists x :: Ref(x) in t &&
      match Binding(macros, x, k)
      case None => x == name
      case Some(j) => Dangles(bodies[j], macros, bodies, j, name)
  }

  lemma {:induction false} ExpandLeaves(t: Template, macros: seq<Macro>, bodies: seq<Template>, k: nat, name: string)
    requires k <= |macros| == |bodies|
    ensures Ref(name) in Expand(t, macros, bodies, k) <==> Dangles(t, macros, bodies, k, name)
    decreases k, |t|
  {
    if t == [] {
    } else {
      ExpandLeaves(t[1..], macros, bodies, k, name);
      assert forall tok :: tok in t <==> tok == t[0] || tok in t[1..];
      if t[0].Ref? {
        var j := Binding(macros, t[0].name, k);
        if j.Some? {
          ExpandLeaves(bodies[j.value], macros, bodies, j.value, name);
        }
      }
    }
  }

  lemma {:induction false} ExpandWellFormed(t: Template, macros: seq<Macro>, bodies: seq<Template>, k: nat)
    requires Denotes(macros, bodies) && WellFormed(t) && k <= |macros|
    ensures WellFormed(Expand(t, macros, bodies, k))
    decreases k
  {
    if k == 0 {
      ExpandNone(t, macros, bodies);
    } else {
      SubstituteWellFormed(t, macros[k - 1].name, bodies[k - 1]);
      ExpandWellFormed(Substitute(t, macros[k - 1].name, bodies[k - 1]), macros, bodies, k - 1);
      PeelLast(t, macros, bodies, k);
    }
  }

  /** A slug is left in the expanded text exactly when the references lead to it, or it arises
      there by accident. */
  lemma {:induction false} SlugSurvivesIff(t: Template, macros: seq<Macro>, bodies: seq<Template>, name: string)
    requires Denotes(macros, bodies) && WellFormed(t) && NameOk(name)
    ensures var end := Expand(t, macros, bodies, |macros|);
            && (Contains(Render(end), Slug(name)) <==> Dangles(t, macros, bodies, |macros|, name) || !Separated(end, name))
            && (Faithful(t, macros, bodies, |macros|) ==> Lifo(Render(t), macros, |macros|) == Render(end))
  {
    ExpandWellFormed(t, macros, bodies, |macros|);
    OccursIff(Expand(t, macros, bodies, |macros|), name);
    ExpandLeaves(t, macros, bodies, |macros|, name);
    if Faithful(t, macros, bodies, |macros|) {
      LifoIsExpand(t, macros, bodies, |macros|);
    }
  }

  /** The replacements give the recursive expansion, and it holds none of `names`. */
  ghost predicate ExpandsFully(t: Template, macros: seq<Macro>, bodies: seq<Template>, names: iset<string>)
    requires |macros| == |bodies|
  {
    && Lifo(Render(t), macros, |macros|) == Render(Expand(t, macros, bodies, |macros|))
    && forall n <- names :: !Contains(Lifo(Render(t), macros, |macros|), Slug(n))
  }

  /** The exact condition for the result, whatever happens on the way: the expansion is right and
      leaves no reference to one of `names` exactly when the references that are met lead to none
      and none arises by accident.  (What is left counts, as one accident may undo another in
      texts that the loader rejects: AccidentUndone below.) */
  lemma {:induction false} ExpandsFullyIff(t: Template, macros: seq<Macro>, bodies: seq<Template>, names: iset<string>)
    requires Denotes(macros, bodies) && WellFormed(t)
    requires (forall n <- names :: NameOk(n)) && forall i :: 0 <= i < |macros| ==> macros[i].name in names
    ensures ExpandsFully(t, macros, bodies, names) <==>
              forall n <- names :: !Dangles(t, macros, bodies, |macros|, n) && Separated(Expand(t, macros, bodies, |macros|), n)
  {
    forall n <- names
      ensures Contains(Render(Expand(t, macros, bodies, |macros|)), Slug(n)) <==>
                Dangles(t, macros, bodies, |macros|, n) || !Separated(Expand(t, macros, bodies, |macros|), n)
    {
      SlugSurvivesIff(t, macros, bodies, n);
    }
    if CleanEnd(t, macros, bodies) {
      CleanIsFaithful(t, macros, bodies, |macros|);
      LifoIsExpand(t, macros, bodies, |macros|);
    }
  }

  ghost predicate Known(macros: seq<Macro>, name: string) {
    exists i :: 0 <= i < |macros| && macros[i].name == name
  }

  /** Every reference met to a macro name is to a macro before the one that makes it. */
  ghost predicate Backward(t: Template, macros: seq<Macro>, bodies: seq<Template>, k: nat)
    requires k <= |macros| == |bodies|
    decreases k
  {
    forall x :: Ref(x) in t ==>
      match Binding(macros, x, k)
      case None => !Known(macros, x)
      case Some(j) => Backward(bodies[j], macros, bodies, j)
  }

  lemma {:induction false} BackwardIff(t: Template, macros: seq<Macro>, bodies: seq<Template>, k: nat)
    requires k <= |macros| == |bodies|
    ensures Backward(t, macros, bodies, k) <==> forall n :: Known(macros, n) ==> !Dangles(t, macros, bodies, k, n)
    decreases k
  {
    forall x | Ref(x) in t && Binding(macros, x, k).Some?
      ensures var j := Binding(macros, x, k).value;
              Backward(bodies[j], macros, bodies, j) <==> forall n :: Known(macros, n) ==> !Dangles(bodies[j], macros, bodies, j, n)
    {
      var j := Binding(macros, x, k).value;
      BackwardIff(bodies[j], macros, bodies, j);
    }
  }

  ghost function MacroNames(macros: seq<Macro>): iset<string> {
    iset n | Known(macros, n)
  }

  /** The expansion is right and no macro's slug survives exactly when all references that are
      met point backward and none arises by accident. */
  lemma {:induction false} NoKnownSlugIffBackward(t: Template, macros: seq<Macro>, bodies: seq<Template>)
    requires Denotes(macros, bodies) && WellFormed(t)
    ensures ExpandsFully(t, macros, bodies, MacroNames(macros)) <==>
              Backward(t, macros, bodies, |macros|) && CleanEnd(t, macros, bodies)
  {
    assert forall i :: 0 <= i < |macros| ==> Known(macros, macros[i].name);
    ExpandsFullyIff(t, macros, bodies, MacroNames(macros));
    BackwardIff(t, macros, bodies, |macros|);
  }

  /** What a user can see at a glance: no plain text holds a dollar sign. */
  predicate NoDollar(t: Template) {
    forall tok <- t :: tok.Text? ==> '$' !in tok.s
  }

  lemma {:induction false} NoDollarSeparated(t: Template, name: string)
    requires NoDollar(t)
    ensures Separated(t, name)
  {
    if t == [] {
    } else {
      NoDollarSeparated(t[1..], name);
      if t[0].Text? {
        var s, r := t[0].s, Render(t[1..]);
        forall i | 0 <= i < |s| ensures !(Slug(name) <= (s + r)[i..]) {
          assert t[0] in t && (s + r)[i..][0] == s[i];
        }
      }
    }
  }

  lemma {:induction false} NoDollarSubstitute(t: Template, name: string, body: Template)
    requires NoDollar(t) && NoDollar(body)
    ensures NoDollar(Substitute(t, name, body))
  {
    if t == [] {
    } else {
      NoDollarSubstitute(t[1..], name, body);
    }
  }

  lemma {:induction false} NoDollarExpand(t: Template, macros: seq<Macro>, bodies: seq<Template>, k: nat)
    requires k <= |macros| == |bodies| && NoDollar(t) && forall b <- bodies :: NoDollar(b)
    ensures NoDollar(Expand(t, macros, bodies, k))
    decreases k
  {
    if k == 0 {
      ExpandNone(t, macros, bodies);
    } else {
      NoDollarSubstitute(t, macros[k - 1].name, bodies[k - 1]);
      NoDollarExpand(Substitute(t, macros[k - 1].name, bodies[k - 1]), macros, bodies, k - 1);
      PeelLast(t, macros, bodies, k);
    }
  }

  /** Then nothing arises by accident, and only the direction of the references counts. */
  lemma {:induction false} NoDollarIff(t: Template, macros: seq<Macro>, bodies: seq<Template>)
    requires Denotes(macros, bodies) && WellFormed(t) && NoDollar(t) && forall b <- bodies :: NoDollar(b)
    ensures Lifo(Render(t), macros, |macros|) == Render(Expand(t, macros, bodies, |macros|))
    ensures (forall n <- MacroNames(macros) :: !Contains(Lifo(Render(t), macros, |macros|), Slug(n)))
            <==> Backward(t, macros, bodies, |macros|)
  {
    NoDollarExpand(t, macros, bodies, |macros|);
    forall i | 0 <= i < |macros| ensures Separated(Expand(t, macros, bodies, |macros|), macros[i].name) {
      NoDollarSeparated(Expand(t, macros, bodies, |macros|), macros[i].name);
    }
    CleanIsFaithful(t, macros, bodies, |macros|);
    LifoIsExpand(t, macros, bodies, |macros|);
    NoKnownSlugIffBackward(t, macros, bodies);
  }

  // ------------------------------------------------------------ every string

  function Bodies(macros: seq<Macro>): seq<Template> {
    seq(|macros|, i requires 0 <= i < |macros| => Parse(macros[i].value))
  }

  ghost predicate ProperNames(macros: seq<Macro>) {
    forall i :: 0 <= i < |macros| ==> MatchesNameRegex(macros[i].name)
  }

  lemma {:induction false} BodiesDenote(macros: seq<Macro>)
    requires ProperNames(macros)
    ensures Denotes(macros, Bodies(macros))
  {
    forall i | 0 <= i < |macros|
      ensures NameOk(macros[i].name) && WellFormed(Bodies(macros)[i]) && macros[i].value == Render(Bodies(macros)[i])
    {
      ParseReads(macros[i].value, "PORT");
    }
  }

  /** The theorem for strings as they stand in the configuration, whatever the text and the
      values: if no replacement meets an accidental reference to its macro, the replacements
      produce the text read and expanded recursively. */
  lemma {:induction false} EveryTextExpands(s: string, macros: seq<Macro>)
    requires ProperNames(macros) && Faithful(Parse(s), macros, Bodies(macros), |macros|)
    ensures Lifo(s, macros, |macros|) == Render(Expand(Parse(s), macros, Bodies(macros), |macros|))
  {
    BodiesDenote(macros);
    ParseReads(s, "PORT");
    LifoIsExpand(Parse(s), macros, Bodies(macros), |macros|);
  }

  /** The check that the loader makes afterwards: no ${name} is left, except ${PID} in cmdStop. */
  ghost predicate NoReferenceLeft(s: string, exempt: set<string>) {
    forall n :: MatchesNameRegex(n) && n !in exempt ==> !Contains(s, Slug(n))
  }

  /** For every string: the replacements give what the text means and leave no reference to a
      macro exactly when all references met point backward and the expanded text holds no
      accidental reference to a macro. */
  lemma {:induction false} EveryTextExpandsIff(s: string, macros: seq<Macro>)
    requires ProperNames(macros)
    ensures var t, bodies, result := Parse(s), Bodies(macros), Lifo(s, macros, |macros|);
            (result == Render(Expand(t, macros, bodies, |macros|)) && forall i :: 0 <= i < |macros| ==> !Contains(result, Slug(macros[i].name)))
            <==> CleanEnd(t, macros, bodies) && Backward(t, macros, bodies, |macros|)
  {
    BodiesDenote(macros);
    ParseReads(s, "PORT");
    NoKnownSlugIffBackward(Parse(s), macros, Bodies(macros));
    assert forall i :: 0 <= i < |macros| ==> macros[i].name in MacroNames(macros);
  }

  /** A text that the loader accepts has got the value it means exactly when the references in
      it lead to macros only, or to names that may be left, and no other reference arises by
      accident. */
  lemma {:induction false} AcceptedTextIff(s: string, macros: seq<Macro>, exempt: set<string>)
    requires ProperNames(macros) && NoReferenceLeft(Lifo(s, macros, |macros|), exempt)
    requires forall i :: 0 <= i < |macros| ==> macros[i].name !in exempt
    ensures var t, bodies := Parse(s), Bodies(macros);
            Lifo(s, macros, |macros|) == Render(Expand(t, macros, bodies, |macros|)) <==>
              forall n :: MatchesNameRegex(n) && n !in exempt ==>
                !Dangles(t, macros, bodies, |macros|, n) && Separated(Expand(t, macros, bodies, |macros|), n)
  {
    var names := iset n | MatchesNameRegex(n) && n !in exempt;
    assert forall n <- names :: NameOk(n);
    BodiesDenote(macros);
    ParseReads(s, "PORT");
    ExpandsFullyIff(Parse(s), macros, Bodies(macros), names);
  }

  /** The condition is needed: a text ending in `$` can join with the value put after it into a
      reference that neither contains. */
  lemma AccidentalReference()
    ensures var macros := [Macro("b", "B", false), Macro("a", "{b}", false)];
            Lifo("$${a}", macros, 2) == "B"
  {
    var macros := [Macro("b", "B", false), Macro("a", "{b}", false)];
    assert Slug("a") == "${a}" && Slug("b") == "${b}";
    assert "$${a}"[1..] == "${a}" && "${a}"[4..] == "";
    assert ReplaceAll("${a}", "${a}", "{b}") == "{b}" + ReplaceAll("", "${a}", "{b}") == "{b}";
    assert ReplaceAll("$${a}", "${a}", "{b}") == ['$'] + "{b}" == "${b}";
    assert "${b}"[4..] == "" && ReplaceAll("${b}", "${b}", "B") == "B" + ReplaceAll("", "${b}", "B") == "B";
    assert Lifo("$${a}", macros, 2) == Lifo("${b}", macros, 1) == Lifo("B", macros, 0);
  }

  /** With a macro left over the result may be right all the same: here the replacement of b
      undoes what that of a did to a text whose author meant no reference. */
  lemma AccidentUndone()
    ensures var macros, bodies, t := [Macro("b", "${a}", false), Macro("a", "${b}", false)], [[Ref("a")], [Ref("b")]], [Text("${a}")];
            && Denotes(macros, bodies) && WellFormed(t) && !Faithful(t, macros, bodies, 2)
            && Lifo(Render(t), macros, 2) == Render(Expand(t, macros, bodies, 2))
  {
    var macros, bodies, t := [Macro("b", "${a}", false), Macro("a", "${b}", false)], [[Ref("a")], [Ref("b")]], [Text("${a}")];
    var x, y := "${a}", "${b}";
    assert Slug("a") == x && Slug("b") == y;
    RenderOne(Ref("a"));
    RenderOne(Ref("b"));
    RenderOne(Text(x));
    assert (x + "")[0..] == x && x <= (x + "")[0..] && !StaysClear(x, "", x);
    assert t[1..] == [] && !Separated(t, "a");
    TakeRef("", "a", y);
    TakeRef("", "b", x);
    assert x + "" == x && y + "" == y;
    assert Lifo(x, macros, 2) == Lifo(y, macros, 1) == Lifo(x, macros, 0) == x;
    assert Expand(t, macros, bodies, 2) == ExpandToken(t[0], macros, bodies, 2) + [] == t;
  }

  // ------------------------------------------------------------ metadata

  /** A value of the metadata: text, another scalar as fmt prints it, or a structure. */
  datatype Meta =
    | Str(s: string)
    | Scalar(printed: string)
    | Object(fields: map<string, Meta>)
    | List(items: seq<Meta>)

  /** substituteMacroInValue: text that is exactly the reference takes the macro's value with
      its type. */
  function SubstituteInValue(v: Meta, m: Macro): Meta {
    match v
    case Str(s) =>
      if s == Slug(m.name) then (if m.scalar then Scalar(m.value) else Str(m.value))
      else Str(ReplaceAll(s, Slug(m.name), m.value))
    case Scalar(_) => v
    case Object(fields) => Object(map k | k in fields :: SubstituteInValue(fields[k], m))
    case List(items) => List(seq(|items|, i requires 0 <= i < |items| => SubstituteInValue(items[i], m)))
  }

  function MetaLifo(v: Meta, macros: seq<Macro>, k: nat): Meta
    requires k <= |macros|
    decreases k
  {
    if k == 0 then v else MetaLifo(SubstituteInValue(v, macros[k - 1]), macros, k - 1)
  }

  /** The text of a value, with the types forgotten and every text expanded. */
  function Flat(v: Meta, macros: seq<Macro>, k: nat): Meta
    requires k <= |macros|
  {
    match v
    case Str(s) => Str(Lifo(s, macros, k))
    case Scalar(printed) => Str(printed)
    case Object(fields) => Object(map key | key in fields :: Flat(fields[key], macros, k))
    case List(items) => List(seq(|items|, i requires 0 <= i < |items| => Flat(items[i], macros, k)))
  }

  /** Numbers and booleans print without a dollar sign. */
  ghost predicate ScalarsPlain(macros: seq<Macro>) {
    forall m <- macros :: m.scalar ==> '$' !in m.value
  }

  lemma {:induction false} PlainExpandsToItself(s: string, macros: seq<Macro>, k: nat)
    requires '$' !in s && k <= |macros|
    ensures Lifo(s, macros, k) == s
    decreases k
  {
    if k == 0 {
    } else {
      PlainReplaced(s, Slug(macros[k - 1].name), macros[k - 1].value);
      PlainExpandsToItself(s, macros, k - 1);
    }
  }

  lemma {:induction false} PlainReplaced(s: string, slug: string, v: string)
    requires '$' !in s && slug != "" && slug[0] == '$'
    ensures ReplaceAll(s, slug, v) == s
  {
    if s == "" {
    } else {
      assert !(slug <= s);
      ReplaceNone(s, slug, v);
      PlainReplaced(s[1..], slug, v);
      assert [s[0]] + s[1..] == s;
    }
  }

  lemma FlatText(s: string, macros: seq<Macro>, k: nat)
    requires 0 < k <= |macros| && ScalarsPlain(macros)
    ensures Flat(SubstituteInValue(Str(s), macros[k - 1]), macros, k - 1) == Flat(Str(s), macros, k)
  {
    var m := macros[k - 1];
    if s == Slug(m.name) {
      TakeRef("", m.name, m.value);
      assert s + "" == s && m.value + "" == m.value;
      if m.scalar {
        PlainExpandsToItself(m.value, macros, k - 1);
      }
    }
  }

  lemma {:induction false} FlatStep(v: Meta, macros: seq<Macro>, k: nat)
    requires 0 < k <= |macros| && ScalarsPlain(macros)
    ensures Flat(SubstituteInValue(v, macros[k - 1]), macros, k - 1) == Flat(v, macros, k)
  {
    var m := macros[k - 1];
    match v
    case Str(s) => FlatText(s, macros, k);
    case Scalar(_) =>
    case Object(fields) =>
      forall key | key in fields
        ensures Flat(SubstituteInValue(fields[key], m), macros, k - 1) == Flat(fields[key], macros, k)
      {
        FlatStep(fields[key], macros, k);
      }
      assert Flat(SubstituteInValue(v, m), macros, k - 1).fields == Flat(v, macros, k).fields;
    case List(items) =>
      forall i | 0 <= i < |items|
        ensures Flat(SubstituteInValue(items[i], m), macros, k - 1) == Flat(items[i], macros, k)
      {
        FlatStep(items[i], macros, k);
      }
      assert Flat(SubstituteInValue(v, m), macros, k - 1).items == Flat(v, macros, k).items;
  }

  /** The type-preserving substitution agrees with the one on text: the metadata, printed, is
      what the replacements make of its texts. */
  lemma {:induction false} MetadataExpands(v: Meta, macros: seq<Macro>, k: nat)
    requires k <= |macros| && ScalarsPlain(macros)
    ensures Flat(MetaLifo(v, macros, k), macros, 0) == Flat(v, macros, k)
    decreases k
  {
    if k == 0 {
    } else {
      MetadataExpands(SubstituteInValue(v, macros[k - 1]), macros, k - 1);
      FlatStep(v, macros, k);
    }
  }

  // ---- types

  /** The text when the replacements of macros[lo..k] are done. */
  function Partial(s: string, macros: seq<Macro>, k: nat, lo: nat): string
    requires k <= |macros|
    decreases k
  {
    if k <= lo then s else Partial(ReplaceAll(s, Slug(macros[k - 1].name), macros[k - 1].value), macros, k - 1, lo)
  }

  /** When the turn of macro `j` comes the text is exactly the reference to it, and its value is
      a number or a boolean. */
  predicate ExactAt(s: string, macros: seq<Macro>, k: nat, j: nat)
    requires k <= |macros|
  {
    j < k && macros[j].scalar && Partial(s, macros, k, j + 1) == Slug(macros[j].name)
  }

  lemma {:induction false} ScalarStays(printed: string, macros: seq<Macro>, k: nat)
    requires k <= |macros|
    ensures MetaLifo(Scalar(printed), macros, k) == Scalar(printed)
    decreases k
  {
    if k == 0 {
    } else {
      ScalarStays(printed, macros, k - 1);
    }
  }

  function Replaced(s: string, m: Macro): string {
    ReplaceAll(s, Slug(m.name), m.value)
  }

  lemma TextStep(s: string, macros: seq<Macro>, k: nat)
    requires 0 < k <= |macros|
    ensures ExactAt(s, macros, k, k - 1) <==> macros[k - 1].scalar && s == Slug(macros[k - 1].name)
    ensures MetaLifo(Str(s), macros, k) ==
              if ExactAt(s, macros, k, k - 1) then Scalar(macros[k - 1].value) else MetaLifo(Str(Replaced(s, macros[k - 1])), macros, k - 1)
  {
    var m := macros[k - 1];
    ScalarStays(m.value, macros, k - 1);
    if s == Slug(m.name) {
      TakeRef("", m.name, m.value);
      assert s + "" == s && m.value + "" == m.value;
    }
  }

  /** The last macro whose turn finds just the reference to it, if there is one. */
  function LastExact(s: string, macros: seq<Macro>, k: nat): (j: Option<nat>)
    requires k <= |macros|
    ensures if j.None? then forall i: nat :: !ExactAt(s, macros, k, i)
            else ExactAt(s, macros, k, j.value) && forall i: nat :: j.value < i ==> !ExactAt(s, macros, k, i)
    decreases k
  {
    LastBelow(s, macros, k, k)
  }

  function LastBelow(s: string, macros: seq<Macro>, k: nat, n: nat): (j: Option<nat>)
    requires n <= k <= |macros|
    ensures if j.None? then forall i: nat :: i < n ==> !ExactAt(s, macros, k, i)
            else j.value < n && ExactAt(s, macros, k, j.value) && forall i: nat :: j.value < i < n ==> !ExactAt(s, macros, k, i)
  {
    if n == 0 then None else if ExactAt(s, macros, k, n - 1) then Some(n - 1) else LastBelow(s, macros, k, n - 1)
  }

  lemma LastEarlier(s: string, macros: seq<Macro>, k: nat)
    requires 0 < k <= |macros| && !ExactAt(s, macros, k, k - 1)
    ensures LastExact(s, macros, k) == LastExact(Replaced(s, macros[k - 1]), macros, k - 1)
  {
    var next := Replaced(s, macros[k - 1]);
    assert forall j: nat :: ExactAt(s, macros, k, j) <==> ExactAt(next, macros, k - 1, j);
    var a, b := LastExact(s, macros, k), LastExact(next, macros, k - 1);
    assert a.Some? ==> ExactAt(next, macros, k - 1, a.value);
    assert b.Some? ==> ExactAt(s, macros, k, b.value);
  }

  /** Text becomes a number or a boolean exactly if it is just the reference to one when the turn
      of that macro comes (the last such macro decides, as it is the first replaced); otherwise it
      stays text, with all macros replaced. */
  lemma {:induction false} TextKeepsItsType(s: string, macros: seq<Macro>, k: nat)
    requires k <= |macros|
    ensures MetaLifo(Str(s), macros, k) ==
              match LastExact(s, macros, k)
              case None => Str(Lifo(s, macros, k))
              case Some(j) => Scalar(macros[j].value)
    decreases k
  {
    if k == 0 {
    } else {
      TextStep(s, macros, k);
      if !ExactAt(s, macros, k, k - 1) {
        LastEarlier(s, macros, k);
        TextKeepsItsType(Replaced(s, macros[k - 1]), macros, k - 1);
      }
    }
  }

  /** Objects keep their keys and lists their length; each value is substituted by itself. */
  lemma {:induction false} StructureStays(v: Meta, macros: seq<Macro>, k: nat)
    requires k <= |macros|
    ensures var r := MetaLifo(v, macros, k);
            match v
            case Object(fields) =>
              r.Object? && r.fields.Keys == fields.Keys && forall key <- fields :: r.fields[key] == MetaLifo(fields[key], macros, k)
            case List(items) =>
              r.List? && |r.items| == |items| && forall i :: 0 <= i < |items| ==> r.items[i] == MetaLifo(items[i], macros, k)
            case Scalar(_) => r == v
            case Str(_) => r.Str? || r.Scalar?
    decreases k
  {
    if k == 0 {
    } else {
      StructureStays(SubstituteInValue(v, macros[k - 1]), macros, k - 1);
    }
  }

  // ------------------------------------------------------------ the loader's loop

  class ModelConfig {
    var cmd: string
    var cmdStop: string
    var proxy: string
    var checkEndpoint: string
    var stripParams: string
    var metadata: Meta

    /** Substitute the merged macros in every field, last macro first. */
    method SubstituteMacros(merged: seq<Macro>)
      modifies this
      ensures cmd == Lifo(old(cmd), merged, |merged|)
      ensures cmdStop == Lifo(old(cmdStop), merged, |merged|)
      ensures proxy == Lifo(old(proxy), merged, |merged|)
      ensures checkEndpoint == Lifo(old(checkEndpoint), merged, |merged|)
      ensures stripParams == Lifo(old(stripParams), merged, |merged|)
      ensures metadata == MetaLifo(old(metadata), merged, |merged|)
    {
      var i := |merged|;
      while i > 0
        invariant 0 <= i <= |merged|
        invariant Lifo(cmd, merged, i) == Lifo(old(cmd), merged, |merged|)
        invariant Lifo(cmdStop, merged, i) == Lifo(old(cmdStop), merged, |merged|)
        invariant Lifo(proxy, merged, i) == Lifo(old(proxy), merged, |merged|)
        invariant Lifo(checkEndpoint, merged, i) == Lifo(old(checkEndpoint), merged, |merged|)
        invariant Lifo(stripParams, merged, i) == Lifo(old(stripParams), merged, |merged|)
        invariant MetaLifo(metadata, merged, i) == MetaLifo(old(metadata), merged, |merged|)
      {
        i := i - 1;
        var macroSlug, macroStr := Slug(merged[i].name), merged[i].value;
        cmd := ReplaceAll(cmd, macroSlug, macroStr);
        cmdStop := ReplaceAll(cmdStop, macroSlug, macroStr);
        proxy := ReplaceAll(proxy, macroSlug, macroStr);
        checkEndpoint := ReplaceAll(checkEndpoint, macroSlug, macroStr);
        stripParams := ReplaceAll(stripParams, macroSlug, macroStr);
        metadata := SubstituteInValue(metadata, merged[i]);
      }
    }
  }

  /** The ${PORT} pass that follows is one macro more, before all the others. */
  lemma {:induction false} PortIsEarliest(s: string, merged: seq<Macro>, k: nat, port: string)
    requires k <= |merged|
    ensures ReplaceAll(Lifo(s, merged, k), Slug("PORT"), port) == Lifo(s, [Macro("PORT", port, true)] + merged, k + 1)
    decreases k
  {
    var all := [Macro("PORT", port, true)] + merged;
    if k == 0 {
      assert Lifo(ReplaceAll(s, Slug("PORT"), port), all, 0) == ReplaceAll(s, Slug("PORT"), port);
    } else {
      assert all[k] == merged[k - 1];
      PortIsEarliest(ReplaceAll(s, Slug(merged[k - 1].name), merged[k - 1].value), merged, k - 1, port);
    }
  }
}
