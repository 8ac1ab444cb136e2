/** Which models are loaded after a trace of requests, across all process groups.

    Requests are handled one at a time; a request may fail to start its process.
    Processes are keyed by model name, which the group check makes unique. */
module ModelLoading {
  import opened Common
  import opened ModelGroups
  import opened ProcessStates

  /** A request and whether the process start it may need succeeds. */
  datatype Request = Request(model: string, startOk: bool)

  /** The loaded models, and lastUsedProcess of every group ("" when unset). */
  datatype Loads = Loads(up: set<string>, last: map<string, string>)

  ghost predicate ValidGroups(groups: Groups) {
    MembersUnique(groups) && forall g <- groups :: "" !in groups[g].members
  }

  ghost function GroupOf(groups: Groups, m: string): (g: string)
    requires Grouped(groups, m)
    ensures InGroup(groups, g, m)
  {
    var g :| InGroup(groups, g, m);
    g
  }

  /** A request for the (exclusive) group `id` stops `m`, a model of another group. */
  ghost predicate CrossStops(groups: Groups, id: string, m: string)
    requires id in groups && Grouped(groups, m)
  {
    GroupOf(groups, m) != id && groups[id].exclusive && !groups[GroupOf(groups, m)].persistent
  }

  // ------------------------------------------------------------ one request

  ghost function Models(groups: Groups): set<string> {
    set g, i | g in groups && 0 <= i < |groups[g].members| :: groups[g].members[i]
  }

  /** Every process is created stopped. */
  ghost function InitialStates(groups: Groups): (m: map<string, ProcessState>)
    ensures forall x :: x in m <==> Grouped(groups, x)
    ensures forall x <- m :: m[x] == Stopped
  {
    assert forall x :: x in Models(groups) <==> Grouped(groups, x) by {
      forall x | Grouped(groups, x) ensures x in Models(groups) {
        var g :| InGroup(groups, g, x);
        var i :| 0 <= i < |groups[g].members| && groups[g].members[i] == x;
      }
      forall x | x in Models(groups) ensures Grouped(groups, x) {
        var g, i :| g in groups && 0 <= i < |groups[g].members| && x == groups[g].members[i];
        assert InGroup(groups, g, x);
      }
    }
    map x | x in Models(groups) :: Stopped
  }

  class ProxyManager {
    const groups: Groups
    var state: map<string, ProcessState>
    var last: map<string, string>

    ghost predicate Valid()
      reads this
    {
      && ValidGroups(groups)
      && (forall m :: m in state <==> Grouped(groups, m))
      && (forall m <- state :: state[m] == Stopped || state[m] == Ready)
      && last.Keys == groups.Keys
      && (forall g <- groups :: last[g] == "" || last[g] in groups[g].members)
    }

    ghost function Current(): Loads
      reads this
    {
      Loads((set m | m in state && state[m] == Ready), last)
    }

    ghost constructor (groups: Groups)
      requires ValidGroups(groups)
      ensures Valid() && this.groups == groups
      ensures Current() == After(groups, [])
    {
      this.groups := groups;
      state := InitialStates(groups);
      last := map g | g in groups :: "";
    }

    /** StopProcesses on one group (no request is in flight between requests). */
    method StopProcesses(id: string)
      requires Valid() && id in groups
      modifies this`state
      ensures Valid()
      ensures forall m :: m in Current().up <==> (m in old(Current().up) && GroupOf(groups, m) != id)
    {
      var members := groups[id].members;
      var i := 0;
      while i < |members|
        invariant 0 <= i <= |members| && state.Keys == old(state).Keys
        invariant forall m <- state :: state[m] == (if m in members[..i] then Stopped else old(state)[m])
      {
        assert InGroup(groups, id, members[i]);
        if Running(state[members[i]]) {
          state := state[members[i] := Stopped];
        }
        i := i + 1;
      }
      assert members[..i] == members;
      assert forall m :: m in members <==> InGroup(groups, id, m);
    }

    /** swapProcessGroup: an exclusive group stops every other non-persistent group. */
    method SwapProcessGroup(model: string) returns (id: Option<string>)
      requires Valid()
      modifies this`state
      ensures Valid()
      ensures id.None? <==> !Grouped(groups, model)
      ensures id.None? ==> Current() == old(Current())
      ensures id.Some? ==> id.value == GroupOf(groups, model)
      ensures id.Some? ==> forall m :: m in Current().up <==> (m in old(Current().up) && !CrossStops(groups, id.value, m))
    {
      id := FindGroupByModelName(groups, model);
      if id.None? {
        return;
      }
      if groups[id.value].exclusive {
        var todo := groups.Keys;
        while todo != {}
          invariant todo <= groups.Keys && Valid()
          invariant forall m :: m in Current().up <==>
                      (m in old(Current().up) && (GroupOf(groups, m) in todo || !CrossStops(groups, id.value, m)))
        {
          var g :| g in todo;
          todo := todo - {g};
          if g != id.value && !groups[g].persistent {
            StopProcesses(g);
          }
        }
      }
    }

    /** Swap mode: remember the new model and stop the previous one. */
    method StopPrevious(id: string, model: string)
      requires Valid() && InGroup(groups, id, model)
      modifies this`state, this`last
      ensures Valid() && last == old(last)[id := model]
      ensures Current().up == old(Current().up) - (if old(last)[id] != model then {old(last)[id]} else {})
    {
      var previous := "";
      if last[id] != model {
        previous := last[id];
        last := last[id := model];
      }
      if previous != "" {
        assert InGroup(groups, id, previous);
        if Running(state[previous]) {
          state := state[previous := Stopped];
        }
      }
    }

    /** ProxyRequest of the group: in swap mode stop the previous model; start on demand. */
    method ProxyInGroup(id: string, r: Request)
      requires Valid() && InGroup(groups, id, r.model)
      modifies this`state, this`last
      ensures Valid()
      ensures last == if groups[id].swap then old(last)[id := r.model] else old(last)
      ensures var swapped := if groups[id].swap && old(last)[id] != r.model
                             then old(Current().up) - {old(last)[id]} else old(Current().up);
              Current().up == if r.startOk then swapped + {r.model} else swapped
    {
      if groups[id].swap {
        StopPrevious(id, r.model);
      }
      ghost var swapped := Current().up;
      if state[r.model] != Ready && r.startOk {
        state := state[r.model := Ready];
      }
      assert Current().up == if r.startOk then swapped + {r.model} else swapped;
    }

    /** A request routed through the manager: swap groups, then proxy in the group. */
    method Handle(r: Request) returns (routed: bool)
      requires Valid()
      modifies this`state, this`last
      ensures Valid()
      ensures routed == Grouped(groups, r.model)
      ensures Current() == Next(groups, old(Current()), r)
    {
      var id := SwapProcessGroup(r.model);
      routed := id.Some?;
      if routed {
        ghost var kept := Current().up;
        assert kept == Kept(groups, old(Current()), id.value);
        ProxyInGroup(id.value, r);
        assert Current().up == Next(groups, old(Current()), r).up;
      }
    }
  }

  /** What a request for group `id` leaves loaded in the groups around it. */
  ghost function Kept(groups: Groups, s: Loads, id: string): set<string>
    requires id in groups
  {
    set m | m in s.up && Grouped(groups, m) && !CrossStops(groups, id, m)
  }

  /** The effect of a request on what is loaded. */
  ghost function Next(groups: Groups, s: Loads, r: Request): Loads
    requires s.last.Keys == groups.Keys
  {
    if !Grouped(groups, r.model) then s
    else
      var id := GroupOf(groups, r.model);
      var kept := Kept(groups, s, id);
      var swapped := if groups[id].swap && s.last[id] != r.model then kept - {s.last[id]} else kept;
      Loads(if r.startOk then swapped + {r.model} else swapped,
            if groups[id].swap then s.last[id := r.model] else s.last)
  }

  // ------------------------------------------------------------ traces

  ghost function After(groups: Groups, trace: seq<Request>): (s: Loads)
    ensures s.last.Keys == groups.Keys
  {
    if trace == [] then Loads({}, map g | g in groups :: "")
    else Next(groups, After(groups, trace[..|trace| - 1]), trace[|trace| - 1])
  }

  /** A request for `r` takes `m` out of memory. */
  ghost predicate Evicts(groups: Groups, r: string, m: string) {
    Grouped(groups, r) && Grouped(groups, m) &&
    var g, h := GroupOf(groups, r), GroupOf(groups, m);
    if g == h then groups[g].swap && r != m else groups[g].exclusive && !groups[h].persistent
  }

  /** Inside a swap group only the last used model can be loaded. */
  ghost predicate SwapInv(groups: Groups, s: Loads) {
    && s.last.Keys == groups.Keys
    && (forall g <- groups :: s.last[g] == "" || InGroup(groups, g, s.last[g]))
    && (forall m <- s.up :: Grouped(groups, m))
    && (forall g, m :: InGroup(groups, g, m) && groups[g].swap && m in s.up ==> m == s.last[g])
  }

  lemma NextLoads(groups: Groups, s: Loads, r: Request, m: string)
    requires ValidGroups(groups) && SwapInv(groups, s)
    ensures m in Next(groups, s, r).up <==>
              ((m in s.up && !Evicts(groups, r.model, m)) || (r.model == m && r.startOk && Grouped(groups, m)))
  {
    if Grouped(groups, r.model) && m in s.up {
      var id := GroupOf(groups, r.model);
      assert InGroup(groups, id, m) <==> GroupOf(groups, m) == id;
    }
  }

  lemma NextKeepsSwapInv(groups: Groups, s: Loads, r: Request)
    requires ValidGroups(groups) && SwapInv(groups, s)
    ensures SwapInv(groups, Next(groups, s, r))
  {
    forall g, m | InGroup(groups, g, m) && groups[g].swap && m in Next(groups, s, r).up
      ensures m == Next(groups, s, r).last[g]
    {
      NextLoads(groups, s, r, m);
      assert GroupOf(groups, m) == g;
    }
  }

  lemma {:induction false} AfterSwapInv(groups: Groups, trace: seq<Request>)
    requires ValidGroups(groups)
    ensures SwapInv(groups, After(groups, trace))
  {
    if trace == [] {
    } else {
      AfterSwapInv(groups, trace[..|trace| - 1]);
      NextKeepsSwapInv(groups, After(groups, trace[..|trace| - 1]), trace[|trace| - 1]);
    }
  }

  /** The request at `i` loaded `m` and nothing after it evicted `m`. */
  ghost predicate LoadedAt(groups: Groups, trace: seq<Request>, m: string, i: int) {
    && 0 <= i < |trace| && trace[i].model == m && trace[i].startOk
    && forall j :: i < j < |trace| ==> !Evicts(groups, trace[j].model, m)
  }

  /** The meaning of a trace: a model is loaded exactly when some request for it could
      start it and no later request was for a different model of its swap group, or for
      a model of another, exclusive group while its own group is not persistent. */
  lemma {:induction false} LoadedIff(groups: Groups, trace: seq<Request>, m: string)
    requires ValidGroups(groups) && Grouped(groups, m)
    ensures m in After(groups, trace).up <==> exists i :: LoadedAt(groups, trace, m, i)
  {
    if trace == [] {
    } else {
      var n := |trace| - 1;
      var init, r := trace[..n], trace[n];
      LoadedIff(groups, init, m);
      AfterSwapInv(groups, init);
      NextLoads(groups, After(groups, init), r, m);
      LoadedAtStep(groups, init, r, m);
      assert trace == init + [r];
    }
  }

  /** One more request: what loaded before it stays unless it evicts, and it may load. */
  lemma LoadedAtStep(groups: Groups, init: seq<Request>, r: Request, m: string)
    ensures (exists i :: LoadedAt(groups, init + [r], m, i)) <==>
              (((exists i :: LoadedAt(groups, init, m, i)) && !Evicts(groups, r.model, m)) || (r.model == m && r.startOk))
  {
    var trace, n := init + [r], |init|;
    assert trace[n] == r && forall j :: 0 <= j < n ==> trace[j] == init[j];
    if i :| LoadedAt(groups, init, m, i) && !Evicts(groups, r.model, m) {
      assert LoadedAt(groups, trace, m, i);
    }
    if r.model == m && r.startOk {
      assert LoadedAt(groups, trace, m, n);
    }
    if i :| LoadedAt(groups, trace, m, i) && i < n {
      assert LoadedAt(groups, init, m, i);
    }
  }
}
