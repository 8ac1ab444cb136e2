/** Allocation of models to groups when a configuration is loaded. */
module ModelGroups {
  import opened Common

  const DEFAULT_GROUP_ID := "(default)"

  datatype GroupConfig = GroupConfig(members: seq<string>, swap: bool, exclusive: bool, persistent: bool)

  type Groups = map<string, GroupConfig>

  predicate InGroup(groups: Groups, g: string, m: string) {
    g in groups && m in groups[g].members
  }

  ghost predicate Grouped(groups: Groups, m: string) {
    exists g :: InGroup(groups, g, m)
  }

  ghost predicate Distinct(s: seq<string>) {
    forall i, j :: 0 <= i < j < |s| ==> s[i] != s[j]
  }

  /** The groups after the default group was added: it holds each model once that no
      user group lists, and replaces a user group of the same name. */
  ghost predicate DefaultAdded(models: set<string>, groups: Groups, result: Groups) {
    && result.Keys == groups.Keys + {DEFAULT_GROUP_ID}
    && (forall g <- groups :: g != DEFAULT_GROUP_ID ==> result[g] == groups[g])
    && var d := result[DEFAULT_GROUP_ID];
       && d.swap && d.exclusive && !d.persistent && Distinct(d.members)
       && forall m :: m in d.members <==> m in models && !Grouped(groups, m)
  }

  /** Is the model listed by some group: the labelled search loops. */
  method InSomeGroup(groups: Groups, model: string) returns (found: bool)
    ensures found == Grouped(groups, model)
  {
    found := false;
    var todo := groups.Keys;
    while todo != {}
      invariant todo <= groups.Keys && !found
      invariant forall g :: InGroup(groups, g, model) ==> g in todo
    {
      var g :| g in todo;
      todo := todo - {g};
      var members := groups[g].members;
      var i := 0;
      while i < |members|
        invariant 0 <= i <= |members| && model !in members[..i]
      {
        if members[i] == model {
          assert InGroup(groups, g, model);
          return true;
        }
        i := i + 1;
      }
    }
  }

  method AddDefaultGroup(models: set<string>, groups: Groups) returns (result: Groups)
    ensures DefaultAdded(models, groups, result)
  {
    var members: seq<string> := [];
    var todo := models;
    while todo != {}
      invariant todo <= models && Distinct(members)
      invariant forall m :: m in members <==> m in models && m !in todo && !Grouped(groups, m)
    {
      var m :| m in todo;
      todo := todo - {m};
      if groups == map[] {
        members := members + [m];
      } else {
        var found := InSomeGroup(groups, m);
        if !found {
          members := members + [m];
        }
      }
    }
    result := groups[DEFAULT_GROUP_ID := GroupConfig(members, true, true, false)];
  }

  datatype Verdict = Accepted | DuplicateMember(member: string, group: string) | SharedMember(member: string)

  ghost predicate MembersUnique(groups: Groups) {
    && (forall g <- groups :: Distinct(groups[g].members))
    && (forall g, h, m :: InGroup(groups, g, m) && InGroup(groups, h, m) ==> g == h)
  }

  ghost predicate Entered(members: seq<string>, g: string, before: map<string, string>, after: map<string, string>) {
    && (forall m :: m in after <==> m in members || m in before)
    && (forall m <- after :: after[m] == if m in members then g else before[m])
  }

  /** The inner loop of the member check: enter one group's members into memberUsage. */
  method EnterMembers(members: seq<string>, g: string, memberUsage: map<string, string>)
    returns (verdict: Verdict, usage: map<string, string>)
    requires g !in memberUsage.Values
    ensures verdict == Accepted <==> Distinct(members) && forall m <- members :: m !in memberUsage
    ensures verdict == Accepted ==> Entered(members, g, memberUsage, usage)
    ensures verdict.DuplicateMember? ==> verdict.group == g && verdict.member in members && !Distinct(members)
    ensures verdict.SharedMember? ==> verdict.member in members && verdict.member in memberUsage
  {
    usage := memberUsage;
    var prevSet: set<string> := {};
    var i := 0;
    while i < |members|
      invariant 0 <= i <= |members|
      invariant prevSet == set k | 0 <= k < i :: members[k]
      invariant Distinct(members[..i])
      invariant forall k :: 0 <= k < i ==> members[k] !in memberUsage
      invariant Entered(members[..i], g, memberUsage, usage)
    {
      var member := members[i];
      if member in prevSet {
        var k :| 0 <= k < i && members[k] == member;
        return DuplicateMember(member, g), usage;
      }
      if member in usage {
        return SharedMember(member), usage;
      }
      prevSet := prevSet + {member};
      usage := usage[member := g];
      i := i + 1;
    }
    assert members[..i] == members;
    verdict := Accepted;
  }

  /** Every member seen so far is booked to the group that lists it. */
  ghost predicate Booked(groups: Groups, todo: set<string>, usage: map<string, string>) {
    && (forall g :: g in groups && g !in todo ==> Distinct(groups[g].members))
    && (forall g, m :: InGroup(groups, g, m) && g !in todo ==> m in usage && usage[m] == g)
    && (forall m <- usage :: usage[m] !in todo && InGroup(groups, usage[m], m))
  }

  /** The member check of the loader, with its two error returns. */
  method ValidateMembers(groups: Groups) returns (verdict: Verdict)
    ensures verdict == Accepted <==> MembersUnique(groups)
    ensures verdict.DuplicateMember? ==> verdict.group in groups && !Distinct(groups[verdict.group].members)
    ensures verdict.SharedMember? ==>
              exists g, h :: g != h && InGroup(groups, g, verdict.member) && InGroup(groups, h, verdict.member)
  {
    var memberUsage: map<string, string> := map[];
    var todo := groups.Keys;
    while todo != {}
      invariant todo <= groups.Keys && Booked(groups, todo, memberUsage)
    {
      var g :| g in todo;
      var usage;
      verdict, usage := EnterMembers(groups[g].members, g, memberUsage);
      if verdict != Accepted {
        if verdict.SharedMember? {
          assert InGroup(groups, g, verdict.member) && InGroup(groups, memberUsage[verdict.member], verdict.member);
        }
        return;
      }
      assert forall m :: InGroup(groups, g, m) ==> m !in memberUsage;
      todo, memberUsage := todo - {g}, usage;
    }
    forall g, h, m | InGroup(groups, g, m) && InGroup(groups, h, m)
      ensures g == h
    {
      assert memberUsage[m] == g && memberUsage[m] == h;
    }
    verdict := Accepted;
  }

  // ------------------------------------------------------------ one group per model

  ghost predicate ExactlyOneGroup(groups: Groups, model: string) {
    exists g :: InGroup(groups, g, model) && forall h :: InGroup(groups, h, model) ==> h == g
  }

  /** A model listed only by a user group called "(default)" is dropped by the overwrite. */
  ghost predicate NoneDropped(models: set<string>, groups: Groups) {
    DEFAULT_GROUP_ID in groups ==>
      forall m <- groups[DEFAULT_GROUP_ID].members :: m in models ==>
        exists g :: g != DEFAULT_GROUP_ID && InGroup(groups, g, m)
  }

  /** In an accepted configuration the groups partition the models exactly when the user
      has no group named "(default)" that is the only one to list some model. */
  lemma PartitionIff(models: set<string>, groups: Groups, result: Groups)
    requires DefaultAdded(models, groups, result) && MembersUnique(result)
    ensures (forall m <- models :: ExactlyOneGroup(result, m)) <==> NoneDropped(models, groups)
  {
    if NoneDropped(models, groups) {
      forall m | m in models ensures ExactlyOneGroup(result, m) {
        if Grouped(groups, m) {
          var g :| InGroup(groups, g, m);
          var h := if g != DEFAULT_GROUP_ID then g else var x :| x != DEFAULT_GROUP_ID && InGroup(groups, x, m); x;
          assert InGroup(result, h, m);
        } else {
          assert InGroup(result, DEFAULT_GROUP_ID, m);
        }
      }
    } else {
      var m :| m in groups[DEFAULT_GROUP_ID].members && m in models
               && !exists g :: g != DEFAULT_GROUP_ID && InGroup(groups, g, m);
      assert InGroup(groups, DEFAULT_GROUP_ID, m);
      assert m !in result[DEFAULT_GROUP_ID].members;
      assert forall h :: InGroup(result, h, m) ==> h == DEFAULT_GROUP_ID || InGroup(groups, h, m);
    }
  }

  /** findGroupByModelName walks a map in any order: it returns SOME group that lists the
      model, hence THE group when the groups partition the models. */
  method FindGroupByModelName(groups: Groups, model: string) returns (id: Option<string>)
    ensures id.None? <==> !Grouped(groups, model)
    ensures id.Some? ==> InGroup(groups, id.value, model)
    ensures ExactlyOneGroup(groups, model) ==> id.Some? && forall g :: InGroup(groups, g, model) ==> g == id.value
  {
    var todo := groups.Keys;
    while todo != {}
      invariant todo <= groups.Keys
      invariant forall g :: InGroup(groups, g, model) ==> g in todo
    {
      var g :| g in todo;
      todo := todo - {g};
      if model in groups[g].members {
        assert InGroup(groups, g, model);
        return Some(g);
      }
    }
    id := None;
  }

  /** The dropped model: the only group is a user group named "(default)". */
  lemma DroppedModel()
    ensures var groups := map["(default)" := GroupConfig(["a"], true, true, false)];
            forall result :: DefaultAdded({"a"}, groups, result) ==> MembersUnique(result) && !Grouped(result, "a")
  {
    var groups := map[DEFAULT_GROUP_ID := GroupConfig(["a"], true, true, false)];
    assert InGroup(groups, DEFAULT_GROUP_ID, "a");
  }
}
