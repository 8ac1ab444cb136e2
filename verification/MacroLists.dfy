/** Which macros a configuration may define, and how a model's macros override the global ones. */
module MacroLists {
  import opened Common
  import opened MacroExpansion
  import opened MacroTexts

  /** A macro value: text, another scalar (as fmt prints it), or a structure. */
  datatype Value = StringValue(s: string) | ScalarValue(printed: string) | Structure

  datatype MacroError = NameTooLong | BadName | ValueTooLong | SelfReference | NotScalar | ReservedName

  ghost function ValidateMacro(name: string, value: Value): (error: Option<MacroError>)
  {
    if |name| >= 64 then Some(NameTooLong)
    else if !MatchesNameRegex(name) then Some(BadName)
    else if value.StringValue? && |value.s| >= 1024 then Some(ValueTooLong)
    else if value.StringValue? && Contains(value.s, Slug(name)) then Some(SelfReference)
    else if value.Structure? then Some(NotScalar)
    else if name in {"PORT", "MODEL_ID"} then Some(ReservedName)
    else None
  }

  /** Exactly the macros that the check accepts. */
  lemma AcceptedIff(name: string, value: Value)
    ensures ValidateMacro(name, value) == None <==>
              && 0 < |name| < 64 && (forall c <- name :: NameChar(c)) && name != "PORT" && name != "MODEL_ID"
              && match value
                 case StringValue(s) => |s| < 1024 && Ref(name) !in Parse(s)
                 case ScalarValue(_) => true
                 case Structure => false
  {
    if value.StringValue? && MatchesNameRegex(name) {
      ParseReads(value.s, name);
      OccursIff(Parse(value.s), name);
    }
  }

  /** And what it says of the others: the first fault in this order. */
  lemma FirstFault(name: string, value: Value)
    ensures var error, named := ValidateMacro(name, value), |name| < 64 && MatchesNameRegex(name);
            && (error == Some(NameTooLong) <==> |name| >= 64)
            && (error == Some(BadName) <==> |name| < 64 && !MatchesNameRegex(name))
            && (error == Some(ValueTooLong) <==> named && value.StringValue? && |value.s| >= 1024)
            && (error == Some(SelfReference) <==> named && value.StringValue? && |value.s| < 1024 && Ref(name) in Parse(value.s))
            && (error == Some(NotScalar) <==> named && value.Structure?)
            && (error == Some(ReservedName) ==> name in {"PORT", "MODEL_ID"})
  {
    if value.StringValue? && MatchesNameRegex(name) {
      ParseReads(value.s, name);
      OccursIff(Parse(value.s), name);
    }
  }

  /** What the check buys: names fit the expansion theorem, and no text refers to itself. */
  lemma AcceptedMacro(name: string, value: Value)
    requires ValidateMacro(name, value) == None
    ensures MatchesNameRegex(name) && NameOk(name) && name != "PORT" && name != "MODEL_ID" && !value.Structure?
    ensures value.StringValue? ==> Ref(name) !in Parse(value.s) && value.s != Slug(name)
  {
    if value.StringValue? {
      ParseReads(value.s, name);
      OccursIff(Parse(value.s), name);
      assert Slug(name) <= Slug(name)[0..];
    }
  }

  /** Model macros replace a macro of the same name in place, or go to the end. */
  function Override(list: seq<Macro>, e: Macro): seq<Macro> {
    if list == [] then [e]
    else if list[0].name == e.name then [e] + list[1..]
    else [list[0]] + Override(list[1..], e)
  }

  function OverrideAll(list: seq<Macro>, entries: seq<Macro>): seq<Macro> {
    if entries == [] then list
    else Override(OverrideAll(list, entries[..|entries| - 1]), entries[|entries| - 1])
  }

  lemma {:induction false} OverrideAt(list: seq<Macro>, e: Macro, i: nat)
    requires i <= |list| && forall j :: 0 <= j < i ==> list[j].name != e.name
    requires i < |list| ==> list[i].name == e.name
    ensures Override(list, e) == if i < |list| then list[i := e] else list + [e]
  {
    if list != [] && list[0].name != e.name {
      OverrideAt(list[1..], e, i - 1);
    }
  }

  /** The value a reference in a model's field stands for. */
  function Lookup(list: seq<Macro>, name: string): Option<string> {
    var j := Binding(list, name, |list|);
    if j.None? then None else Some(list[j.value].value)
  }

  predicate IsLast(list: seq<Macro>, name: string, j: Option<nat>) {
    && (j.Some? ==> j.value < |list| && list[j.value].name == name)
    && forall i :: (if j.Some? then j.value + 1 else 0) <= i < |list| ==> list[i].name != name
  }

  lemma {:induction false} BindingIsLast(list: seq<Macro>, name: string, k: nat, j: Option<nat>)
    requires k <= |list|
    ensures IsLast(list[..k], name, Binding(list, name, k))
    ensures IsLast(list[..k], name, j) ==> Binding(list, name, k) == j
  {
    if k > 0 && list[k - 1].name != name {
      BindingIsLast(list, name, k - 1, j);
      assert list[..k][..k - 1] == list[..k - 1];
      assert forall i :: 0 <= i < k - 1 ==> list[..k][i] == list[..k - 1][i];
    }
  }

  lemma LookupIs(list: seq<Macro>, name: string, j: Option<nat>)
    requires IsLast(list, name, j)
    ensures Binding(list, name, |list|) == j
  {
    assert list[..|list|] == list;
    BindingIsLast(list, name, |list|, j);
  }

  lemma LastExists(list: seq<Macro>, name: string)
    ensures IsLast(list, name, Binding(list, name, |list|))
  {
    assert list[..|list|] == list;
    BindingIsLast(list, name, |list|, None);
  }

  lemma {:induction false} FirstIndex(list: seq<Macro>, name: string) returns (i: nat)
    ensures i <= |list| && (forall j :: 0 <= j < i ==> list[j].name != name)
    ensures i < |list| ==> list[i].name == name
  {
    if list == [] || list[0].name == name {
      i := 0;
    } else {
      i := FirstIndex(list[1..], name);
      i := i + 1;
    }
  }

  ghost predicate Repeated(list: seq<Macro>, name: string) {
    exists i, j :: 0 <= i < j < |list| && list[i].name == name && list[j].name == name
  }

  lemma OverrideRepeats(list: seq<Macro>, e: Macro, n: string)
    ensures Repeated(Override(list, e), n) <==> Repeated(list, n)
  {
    var i := FirstIndex(list, e.name);
    var over := Override(list, e);
    OverrideAt(list, e, i);
    assert forall j :: 0 <= j < |list| ==> over[j].name == list[j].name;
  }

  /** What a name means after one override. The override goes in at the FIRST place of its name,
      the expansion reads the LAST: it decides the meaning unless the list repeats the name. */
  lemma OverrideMeans(list: seq<Macro>, e: Macro, n: string)
    ensures Lookup(Override(list, e), n) ==
              if n == e.name && !Repeated(list, n) then Some(e.value) else Lookup(list, n)
  {
    var i := FirstIndex(list, e.name);
    OverrideAt(list, e, i);
    LastExists(list, n);
    var last := Binding(list, n, |list|);
    if n != e.name || (last.Some? && last.value > i) {
      assert last.Some? && last.value > i && n == e.name ==> list[i].name == list[last.value].name == n;
      LookupIs(Override(list, e), n, last);
    } else {
      LookupIs(Override(list, e), n, Some(i));
    }
  }

  /** The other names keep their meaning. */
  lemma OverrideKeepsOthers(list: seq<Macro>, e: Macro, n: string)
    requires n != e.name
    ensures Lookup(Override(list, e), n) == Lookup(list, n)
  {
    OverrideMeans(list, e, n);
  }

  /** An override decides what its name stands for exactly when the name is not repeated in the
      list, or its last value is the same anyway. */
  lemma OverrideWinsIff(list: seq<Macro>, e: Macro)
    ensures Lookup(Override(list, e), e.name) == Some(e.value) <==>
              (!Repeated(list, e.name) || Lookup(list, e.name) == Some(e.value))
  {
    OverrideMeans(list, e, e.name);
  }

  /** An override without effect: a=1 and a=2 among the global macros, a=3 in the model. */
  lemma OverrideIgnored()
    ensures var globals, own := [Macro("a", "1", true), Macro("a", "2", true)], Macro("a", "3", true);
            Lookup(Override(globals, own), "a") == Some("2")
  {
    var globals, own := [Macro("a", "1", true), Macro("a", "2", true)], Macro("a", "3", true);
    assert globals[0].name == globals[1].name == "a";
    OverrideMeans(globals, own, "a");
    LookupIs(globals, "a", Some(1));
  }

  /** The whole merged list: a name stands for the last value the model gives it if the list
      does not repeat the name, and else for what it stood for in the list. */
  lemma {:induction false} MergedMeans(list: seq<Macro>, entries: seq<Macro>, n: string)
    ensures Lookup(OverrideAll(list, entries), n) ==
              if Lookup(entries, n).Some? && !Repeated(list, n) then Lookup(entries, n) else Lookup(list, n)
    ensures Repeated(OverrideAll(list, entries), n) <==> Repeated(list, n)
  {
    if entries == [] {
      assert Lookup(entries, n) == None;
    } else {
      var init, e := entries[..|entries| - 1], entries[|entries| - 1];
      MergedMeans(list, init, n);
      MergedMore(list, init, e, n);
      assert entries == init + [e] && entries[..|entries| - 1] == init;
    }
  }

  lemma MergedMore(list: seq<Macro>, init: seq<Macro>, e: Macro, n: string)
    requires Lookup(OverrideAll(list, init), n) ==
               if Lookup(init, n).Some? && !Repeated(list, n) then Lookup(init, n) else Lookup(list, n)
    requires Repeated(OverrideAll(list, init), n) <==> Repeated(list, n)
    ensures var merged := Override(OverrideAll(list, init), e);
            && Lookup(merged, n) ==
                 (if Lookup(init + [e], n).Some? && !Repeated(list, n) then Lookup(init + [e], n) else Lookup(list, n))
            && (Repeated(merged, n) <==> Repeated(list, n))
  {
    var base := OverrideAll(list, init);
    OverrideMeans(base, e, n);
    OverrideRepeats(base, e, n);
    LastOfMore(init, e, n);
  }

  lemma LastOfMore(init: seq<Macro>, e: Macro, n: string)
    ensures Lookup(init + [e], n) == if e.name == n then Some(e.value) else Lookup(init, n)
  {
    if e.name == n {
      LookupIs(init + [e], n, Some(|init|));
    } else {
      LastExists(init, n);
      LookupIs(init + [e], n, Binding(init, n, |init|));
    }
  }

  method MergeMacros(modelId: string, globals: seq<Macro>, modelMacros: seq<Macro>) returns (merged: seq<Macro>)
    ensures merged == OverrideAll([Macro("MODEL_ID", modelId, false)] + globals, modelMacros)
    ensures var list := [Macro("MODEL_ID", modelId, false)] + globals;
            forall n :: Lookup(merged, n) ==
              if Lookup(modelMacros, n).Some? && !Repeated(list, n) then Lookup(modelMacros, n) else Lookup(list, n)
  {
    merged := [Macro("MODEL_ID", modelId, false)] + globals;
    var k := 0;
    while k < |modelMacros|
      invariant 0 <= k <= |modelMacros|
      invariant merged == OverrideAll([Macro("MODEL_ID", modelId, false)] + globals, modelMacros[..k])
    {
      var entry := modelMacros[k];
      ghost var before := merged;
      var found := false;
      var i := 0;
      while i < |merged|
        invariant 0 <= i <= |merged| && merged == before && !found
        invariant forall j :: 0 <= j < i ==> merged[j].name != entry.name
      {
        if merged[i].name == entry.name {
          merged := merged[i := entry];
          found := true;
          break;
        }
        i := i + 1;
      }
      if !found {
        merged := merged + [entry];
      }
      OverrideAt(before, entry, i);
      assert modelMacros[..k + 1][..k] == modelMacros[..k];
      k := k + 1;
    }
    assert modelMacros[..k] == modelMacros;
    forall n {
      MergedMeans([Macro("MODEL_ID", modelId, false)] + globals, modelMacros, n);
    }
  }
}
