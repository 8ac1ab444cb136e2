/** Live reload of the configuration: process objects move from the old groups to the
    new ones.  One reload is one step over a snapshot of the process states. Processes that
    lose their place, and the groups that are gone, are shut down afterwards. */
module ConfigReload {
  import opened Common
  import opened ModelGroups
  import opened ProcessStates

  class Process {
    const id: string
    var state: ProcessState

    constructor (id: string)
      ensures this.id == id && state == Stopped
    {
      this.id, state := id, Stopped;
    }

    /** Shutdown acts on a process that is starting or ready. */
    method Shutdown()
      modifies this
      ensures state == if Running(old(state)) then ProcessState.Shutdown else old(state)
    {
      if !Running(state) {
        return;
      }
      state := ProcessState.Shutdown;
    }
  }

  /** A process that holds resources or is about to: it must not be forgotten. */
  ghost predicate Active(p: Process)
    reads p
  {
    p.state != Stopped && p.state != ProcessState.Shutdown
  }

  datatype Config = Config(models: set<string>, aliases: map<string, string>, groups: Groups) {
    function RealModelName(search: string): Option<string> {
      if search in models then Some(search)
      else if search in aliases then Some(aliases[search])
      else None
    }

    /** The process keys a synchronised group ends up with. */
    function Resolved(members: seq<string>): set<string> {
      set m | m in members && RealModelName(m).Some? :: RealModelName(m).value
    }
  }

  /** A model's own name stands for itself, an alias for its model, and every other name for
      nothing, so a group's processes are those of its members and of the models its aliases
      stand for. */
  lemma ResolvedIs(c: Config, members: seq<string>)
    ensures c.Resolved(members) ==
              (set m | m in members && m in c.models)
              + (set a | a in members && a in c.aliases && a !in c.models :: c.aliases[a])
    ensures forall a <- c.aliases :: a !in c.models && a in members ==> c.aliases[a] in c.Resolved(members)
  {
    forall r | r in c.Resolved(members)
      ensures (r in members && r in c.models) || exists a :: a in members && a in c.aliases && a !in c.models && c.aliases[a] == r
    {
      var m :| m in members && c.RealModelName(m) == Some(r);
    }
    forall m | m in members && m in c.models ensures m in c.Resolved(members) {
      assert c.RealModelName(m) == Some(m);
    }
    forall a | a in members && a in c.aliases && a !in c.models ensures c.aliases[a] in c.Resolved(members) {
      assert c.RealModelName(a) == Some(c.aliases[a]);
    }
  }

  /** The keys NewProcessGroup makes are the resolved members exactly when every member
      resolves (or "" is itself the name of a member's model). */
  lemma NewGroupKeysIff(c: Config, members: seq<string>)
    ensures (set m | m in members :: c.RealModelName(m).GetOr("")) == c.Resolved(members)
            <==> ((forall m <- members :: c.RealModelName(m).Some?) || "" in c.Resolved(members))
  {
    var keys := set m | m in members :: c.RealModelName(m).GetOr("");
    assert c.Resolved(members) <= keys by {
      forall r | r in c.Resolved(members) ensures r in keys {
        var m :| m in members && c.RealModelName(m) == Some(r);
        assert c.RealModelName(m).GetOr("") in keys;
      }
    }
    if m :| m in members && c.RealModelName(m).None? {
      assert c.RealModelName(m).GetOr("") in keys;
    }
  }

  /** A group with one misspelt member gets a process that the synchronised group would not have. */
  lemma UnresolvedMember(groups: Groups)
    ensures var c, members := Config({"llama"}, map[], groups), ["llama", "lama"];
            && (set m | m in members :: c.RealModelName(m).GetOr("")) == {"llama", ""}
            && c.Resolved(members) == {"llama"}
  {
    var c, members := Config({"llama"}, map[], groups), ["llama", "lama"];
    assert "llama" in members && "lama" in members;
    assert "llama" != "lama" by {
      assert |"llama"| != |"lama"|;
    }
    assert c.RealModelName("llama") == Some("llama") && c.RealModelName("lama").GetOr("") == "";
  }

  class ProcessGroup {
    var config: GroupConfig
    var processes: map<string, Process>
    var lastUsedProcess: string

    /** NewProcessGroup makes a process for every member, an unresolved one included:
        FindConfig's "not found" goes unnoticed and yields the name "". */
    constructor (cfg: GroupConfig, newConfig: Config)
      ensures config == cfg && lastUsedProcess == ""
      ensures processes.Keys == set m | m in cfg.members :: newConfig.RealModelName(m).GetOr("")
      ensures forall k <- processes :: fresh(processes[k]) && processes[k].state == Stopped && processes[k].id == k
    {
      config, lastUsedProcess, processes := cfg, "", map[];
      new;
      var i := 0;
      while i < |cfg.members|
        invariant 0 <= i <= |cfg.members| && config == cfg && lastUsedProcess == ""
        invariant processes.Keys == set m | m in cfg.members[..i] :: newConfig.RealModelName(m).GetOr("")
        invariant forall k <- processes :: fresh(processes[k]) && processes[k].state == Stopped && processes[k].id == k
      {
        var name := newConfig.RealModelName(cfg.members[i]).GetOr("");
        var process := new Process(name);
        processes := processes[name := process];
        i := i + 1;
      }
      assert cfg.members[..i] == cfg.members;
    }

    /** The running process kept for a resolved member: its own, or the one that ran under
        the member's name as written (an alias). */
    ghost predicate KeptFor(was: map<string, Process>, members: seq<string>, newConfig: Config, r: string, p: Process)
      reads p
    {
      && p.state != Stopped
      && ( || (r in was && p == was[r])
           || (r !in was && exists m :: m in members && m in was && newConfig.RealModelName(m) == Some(r) && p == was[m]))
    }

    /** The process for `r` as its member `member` calls for: the one under its own name if that is
        not stopped; without one, the one under the member's name if that is not stopped; and a
        new one otherwise. */
    ghost predicate Chosen(was: map<string, Process>, member: string, r: string, p: Process)
      reads was.Values, p
    {
      if r in was then (if was[r].state != Stopped then p == was[r] else p.state == Stopped && p.id == r)
      else if member in was && was[member].state != Stopped then p == was[member]
      else p.state == Stopped && p.id == r
    }

    /** Member number `i` is the last that resolves to its name. */
    predicate LastFor(members: seq<string>, newConfig: Config, i: nat) {
      && i < |members| && newConfig.RealModelName(members[i]).Some?
      && forall j :: i < j < |members| ==> newConfig.RealModelName(members[j]) != newConfig.RealModelName(members[i])
    }

    ghost predicate Carried(was: map<string, Process>, members: seq<string>, newConfig: Config, next: map<string, Process>)
      reads was.Values, next.Values
    {
      && next.Keys == newConfig.Resolved(members)
      && (forall r <- next :: r in was && was[r].state != Stopped ==> next[r] == was[r])
      && (forall r <- next :: KeptFor(was, members, newConfig, r, next[r]) || next[r].state == Stopped)
      && (forall i: nat :: LastFor(members, newConfig, i) ==>
            var r := newConfig.RealModelName(members[i]).value;
            r in next && Chosen(was, members[i], r, next[r]))
    }

    lemma LastForMore(before: seq<string>, member: string, newConfig: Config, i: nat)
      ensures LastFor(before + [member], newConfig, i) <==>
                if i == |before| then newConfig.RealModelName(member).Some?
                else LastFor(before, newConfig, i) && newConfig.RealModelName(member) != newConfig.RealModelName(before[i])
    {
      var members := before + [member];
      assert members[|before|] == member && forall j :: 0 <= j < |before| ==> members[j] == before[j];
    }

    lemma KeptForMore(was: map<string, Process>, before: seq<string>, member: string, newConfig: Config, r: string, p: Process)
      requires KeptFor(was, before, newConfig, r, p)
        || (newConfig.RealModelName(member) == Some(r) && p.state != Stopped && Chosen(was, member, r, p))
      ensures KeptFor(was, before + [member], newConfig, r, p)
    {
      assert forall m <- before :: m in before + [member];
      assert member in before + [member];
    }

    lemma ResolvedMore(before: seq<string>, member: string, newConfig: Config)
      ensures newConfig.Resolved(before + [member]) == newConfig.Resolved(before) +
                (if newConfig.RealModelName(member).Some? then {newConfig.RealModelName(member).value} else {})
    {
      assert forall m :: m in before + [member] <==> m in before || m == member;
    }

    /** One member more, with its process. */
    lemma CarriedMore(was: map<string, Process>, before: seq<string>, member: string, newConfig: Config,
                      next: map<string, Process>, after: map<string, Process>)
      requires Carried(was, before, newConfig, next)
      requires match newConfig.RealModelName(member)
               case None => after == next
               case Some(r) => r in after && after == next[r := after[r]] && Chosen(was, member, r, after[r])
      ensures Carried(was, before + [member], newConfig, after)
    {
      ResolvedMore(before, member, newConfig);
      forall r | r in after ensures KeptFor(was, before + [member], newConfig, r, after[r]) || after[r].state == Stopped {
        if after[r].state != Stopped {
          KeptForMore(was, before, member, newConfig, r, after[r]);
        }
      }
      forall i: nat | LastFor(before + [member], newConfig, i)
        ensures var r := newConfig.RealModelName((before + [member])[i]).value;
                r in after && Chosen(was, (before + [member])[i], r, after[r])
      {
        LastForMore(before, member, newConfig, i);
      }
    }

    /** The process that the first loop takes for a member. */
    method Choose(member: string, r: string) returns (p: Process)
      ensures Chosen(processes, member, r, p) && (p.state == Stopped ==> fresh(p))
    {
      if r in processes && processes[r].state != Stopped {
        p := processes[r];
      } else if r !in processes && member in processes && processes[member].state != Stopped {
        p := processes[member];
      } else {
        p := new Process(r);
      }
    }

    /** One round of the first loop. */
    method CarryNext(ghost before: seq<string>, member: string, newConfig: Config, next: map<string, Process>)
      returns (after: map<string, Process>)
      requires Carried(processes, before, newConfig, next)
      ensures Carried(processes, before + [member], newConfig, after)
      ensures forall r <- after :: after[r].state == Stopped ==> fresh(after[r]) || (r in next && after[r] == next[r])
    {
      after := next;
      var resolved := newConfig.RealModelName(member);
      if resolved.Some? {
        var process := Choose(member, resolved.value);
        after := next[resolved.value := process];
      }
      CarriedMore(processes, before, member, newConfig, next, after);
    }

    /** The first loop: the next process map. */
    method CarryOver(members: seq<string>, newConfig: Config) returns (next: map<string, Process>)
      ensures Carried(processes, members, newConfig, next)
      ensures forall r <- next :: next[r].state == Stopped ==> fresh(next[r])
    {
      next := map[];
      var i := 0;
      while i < |members|
        invariant 0 <= i <= |members|
        invariant Carried(processes, members[..i], newConfig, next)
        invariant forall r <- next :: next[r].state == Stopped ==> fresh(next[r])
      {
        next := CarryNext(members[..i], members[i], newConfig, next);
        assert members[..i + 1] == members[..i] + [members[i]];
        i := i + 1;
      }
      assert members[..i] == members;
    }

    /** The second loop: active processes whose key is no longer a resolved member. */
    method Removed(nextMembers: set<string>) returns (removed: seq<Process>)
      ensures forall p :: p in removed <==>
                exists k :: k in processes && k !in nextMembers && processes[k] == p && Active(p)
    {
      removed := [];
      var todo := processes.Keys;
      while todo != {}
        invariant todo <= processes.Keys
        invariant forall p :: p in removed <==>
                    exists k :: k in processes && k !in todo && k !in nextMembers && processes[k] == p && Active(p)
      {
        var id :| id in todo;
        todo := todo - {id};
        if id !in nextMembers {
          var process := processes[id];
          if process.state != Stopped && process.state != ProcessState.Shutdown {
            removed := removed + [process];
          }
        }
      }
    }

    /** Both loops: the next processes, and the ones that are displaced. */
    method Displace(members: seq<string>, newConfig: Config) returns (next: map<string, Process>, removed: seq<Process>)
      ensures Carried(processes, members, newConfig, next)
      ensures forall r <- next :: next[r].state == Stopped ==> fresh(next[r])
      ensures forall k <- processes :: Active(processes[k]) ==>
                (if k in next then next[k] == processes[k] else processes[k] in removed)
      ensures forall p <- removed :: Active(p) && exists k :: k in processes && k !in next && processes[k] == p
    {
      next := CarryOver(members, newConfig);
      removed := Removed(next.Keys);
    }

    /** syncExistingGroupRuntime.  Every active process of the group is afterwards
        registered under its key or handed back for shutdown; the keys are exactly the
        resolved members; the last used process is registered or forgotten. */
    method Sync(nextCfg: GroupConfig, newConfig: Config) returns (removed: seq<Process>)
      modifies this
      ensures config == nextCfg
      ensures Carried(old(processes), nextCfg.members, newConfig, processes)
      ensures forall r <- processes :: processes[r].state == Stopped ==> fresh(processes[r])
      ensures forall k <- old(processes) :: Active(old(processes)[k]) ==>
                (if k in processes then processes[k] == old(processes)[k] else old(processes)[k] in removed)
      ensures forall p <- removed :: Active(p) && exists k :: k in old(processes) && k !in processes && old(processes)[k] == p
      ensures lastUsedProcess == if old(lastUsedProcess) in processes then old(lastUsedProcess) else ""
    {
      var next;
      next, removed := Displace(nextCfg.members, newConfig);
      config, processes := nextCfg, next;
      if lastUsedProcess !in processes {
        lastUsedProcess := "";
      }
    }

    /** group.Shutdown: every process of the group. */
    method Shutdown()
      modifies processes.Values
      ensures forall k <- processes :: !Running(processes[k].state)
      ensures forall p <- processes.Values :: p.state == (if Running(old(p.state)) then ProcessState.Shutdown else old(p.state))
    {
      var todo := processes.Keys;
      while todo != {}
        invariant todo <= processes.Keys
        invariant forall k :: k in processes && k !in todo ==> !Running(processes[k].state)
        invariant forall p <- processes.Values :: p.state == old(p.state) || (Running(old(p.state)) && p.state == ProcessState.Shutdown)
      {
        var id :| id in todo;
        todo := todo - {id};
        processes[id].Shutdown();
      }
      forall p | p in processes.Values
        ensures p.state == (if Running(old(p.state)) then ProcessState.Shutdown else old(p.state))
      {
        var k :| k in processes && processes[k] == p;
      }
    }
  }

  /** A process as the reload finds it. */
  datatype Seen = Seen(process: Process, state: ProcessState) {
    predicate Active() {
      state != Stopped && state != ProcessState.Shutdown
    }
  }

  /** The groups as the reload finds them. */
  type Snapshot = map<string, map<string, Seen>>

  ghost predicate Holds(grp: ProcessGroup, seen: map<string, Seen>)
    reads grp
  {
    grp.processes.Keys == seen.Keys && forall k <- seen :: grp.processes[k] == seen[k].process
  }

  /** The states in the snapshot are the states the processes, all among `ps`, have. */
  ghost predicate Truthful(was: Snapshot, ps: set<Process>)
    reads ps
  {
    forall g, k :: g in was && k in was[g] ==> was[g][k].process in ps && was[g][k].process.state == was[g][k].state
  }

  ghost predicate Registered(groups: map<string, ProcessGroup>, p: Process)
    reads groups.Values
  {
    exists g, k :: g in groups && k in groups[g].processes && groups[g].processes[k] == p
  }

  /** Registered in a new group, or scheduled for shutdown, by itself or with its group. */
  ghost predicate Accounted(groups: map<string, ProcessGroup>, p: Process, stop: seq<Process>, stopGroups: seq<ProcessGroup>)
    reads groups.Values, stopGroups
  {
    Registered(groups, p) || p in stop || exists grp :: grp in stopGroups && p in grp.processes.Values
  }

  ghost predicate AllAccounted(was: Snapshot, groups: map<string, ProcessGroup>, stop: seq<Process>, stopGroups: seq<ProcessGroup>)
    reads groups.Values, stopGroups
  {
    forall g, k :: g in was && k in was[g] && was[g][k].Active() ==> Accounted(groups, was[g][k].process, stop, stopGroups)
  }

  /** What a group becomes: synchronised in place, or created. */
  ghost predicate NextGroup(was: Snapshot, g: string, grp: ProcessGroup, newConfig: Config, stop: seq<Process>)
    requires g in newConfig.groups
    reads grp
  {
    var members := newConfig.groups[g].members;
    && grp.config == newConfig.groups[g]
    && (grp.lastUsedProcess == "" || grp.lastUsedProcess in grp.processes)
    && (if g in was then
          && grp.processes.Keys == newConfig.Resolved(members)
          && forall k <- was[g] :: was[g][k].Active() ==>
               (if k in grp.processes then grp.processes[k] == was[g][k].process else was[g][k].process in stop)
        else grp.processes.Keys == set m | m in members :: newConfig.RealModelName(m).GetOr(""))
  }

  /** An active process of a kept group whose key is gone there. */
  ghost predicate Displaced(was: Snapshot, next: map<string, ProcessGroup>, p: Process)
    reads next.Values
  {
    exists g, k :: g in was && g in next && k in was[g] && k !in next[g].processes
                   && was[g][k].Active() && was[g][k].process == p
  }

  ghost predicate Advanced(was: Snapshot, next: map<string, ProcessGroup>, newConfig: Config, stop: seq<Process>)
    reads next.Values
  {
    && next.Keys <= newConfig.groups.Keys
    && (forall g, h :: g in next && h in next && g != h ==> next[g] != next[h])
    && (forall g <- next :: NextGroup(was, g, next[g], newConfig, stop))
    && (forall p <- stop :: Displaced(was, next, p))
  }

  lemma OneMoreAdvanced(was: Snapshot, next: map<string, ProcessGroup>, newConfig: Config, stop: seq<Process>,
                        g: string, grp: ProcessGroup, removed: seq<Process>)
    requires Advanced(was, next, newConfig, stop)
    requires g in newConfig.groups && g !in next && grp !in next.Values
    requires NextGroup(was, g, grp, newConfig, removed)
    requires forall p <- removed :: Displaced(was, map[g := grp], p)
    ensures Advanced(was, next[g := grp], newConfig, stop + removed)
  {
    forall p | p in stop + removed ensures Displaced(was, next[g := grp], p) {
      if p in stop {
        var h, k :| h in was && h in next && k in was[h] && k !in next[h].processes
                    && was[h][k].Active() && was[h][k].process == p;
        assert next[g := grp][h] == next[h];
      }
    }
  }

  /** The groups that the new configuration drops are scheduled, with the processes they had. */
  ghost predicate Dropped(was: Snapshot, groups: map<string, ProcessGroup>, next: map<string, ProcessGroup>, stopGroups: seq<ProcessGroup>)
    reads groups.Values
  {
    forall g <- was :: g !in next ==> g in groups && groups[g] in stopGroups && Holds(groups[g], was[g])
  }

  /** What is registered, displaced or dropped with its group is everything that was active. */
  lemma NothingLost(was: Snapshot, groups: map<string, ProcessGroup>, next: map<string, ProcessGroup>, newConfig: Config,
                    stop: seq<Process>, stopGroups: seq<ProcessGroup>)
    requires next.Keys == newConfig.groups.Keys && Advanced(was, next, newConfig, stop)
    requires Dropped(was, groups, next, stopGroups)
    ensures AllAccounted(was, next, stop, stopGroups)
  {
    forall g, k | g in was && k in was[g] && was[g][k].Active()
      ensures Accounted(next, was[g][k].process, stop, stopGroups)
    {
      if g in next {
        assert NextGroup(was, g, next[g], newConfig, stop);
      } else {
        assert groups[g].processes[k] == was[g][k].process;
      }
    }
  }

  class ProxyManager {
    var config: Config
    var processGroups: map<string, ProcessGroup>

    /** Distinct groups are distinct objects. */
    ghost predicate Valid()
      reads this
    {
      forall g, h :: g in processGroups && h in processGroups && g != h ==> processGroups[g] != processGroups[h]
    }

    /** `was` has the processes that the group `g` has now. */
    ghost predicate LooksLike(g: string, was: Snapshot)
      reads this, if g in processGroups then {processGroups[g]} else {}
    {
      && (g in was <==> g in processGroups)
      && (g in processGroups ==> Holds(processGroups[g], was[g]))
    }

    /** The groups not in `next` are as the snapshot has them, and are other objects. */
    ghost predicate Untouched(was: Snapshot, next: map<string, ProcessGroup>)
      reads this, processGroups.Values
    {
      forall g :: g !in next ==> LooksLike(g, was) && (g in processGroups ==> processGroups[g] !in next.Values)
    }

    method Advance(g: string, newConfig: Config, ghost was: Snapshot, ghost ps: set<Process>)
      returns (grp: ProcessGroup, removed: seq<Process>)
      requires g in newConfig.groups && Valid() && LooksLike(g, was) && Truthful(was, ps)
      modifies if g in processGroups then {processGroups[g]} else {}
      ensures NextGroup(was, g, grp, newConfig, removed) && Truthful(was, ps)
      ensures if g in processGroups then grp == processGroups[g] else fresh(grp)
      ensures forall p <- removed :: Displaced(was, map[g := grp], p)
      ensures forall h :: h != g && old(LooksLike(h, was)) ==> LooksLike(h, was)
    {
      if g in processGroups {
        grp := processGroups[g];
        removed := grp.Sync(newConfig.groups[g], newConfig);
      } else {
        grp := new ProcessGroup(newConfig.groups[g], newConfig);
        removed := [];
      }
    }

    /** One round of the first loop of applyConfigAndSyncProcessGroups. */
    method AdvanceOne(g: string, newConfig: Config, next: map<string, ProcessGroup>, stop: seq<Process>,
                      ghost was: Snapshot, ghost ps: set<Process>)
      returns (grp: ProcessGroup, removed: seq<Process>)
      requires g in newConfig.groups && g !in next
      requires Valid() && Untouched(was, next) && Truthful(was, ps)
      requires Advanced(was, next, newConfig, stop)
      modifies if g in processGroups then {processGroups[g]} else {}
      ensures Untouched(was, next[g := grp]) && Truthful(was, ps)
      ensures Advanced(was, next[g := grp], newConfig, stop + removed)
    {
      grp, removed := Advance(g, newConfig, was, ps);
      OneMoreAdvanced(was, next, newConfig, stop, g, grp, removed);
    }

    /** The first loop: every group of the new configuration. */
    method AdvanceAll(newConfig: Config, ghost was: Snapshot, ghost ps: set<Process>)
      returns (next: map<string, ProcessGroup>, stop: seq<Process>)
      requires Valid() && Truthful(was, ps) && forall g :: LooksLike(g, was)
      modifies processGroups.Values
      ensures next.Keys == newConfig.groups.Keys
      ensures Advanced(was, next, newConfig, stop)
      ensures Untouched(was, next)
    {
      next, stop := map[], [];
      var todo := newConfig.groups.Keys;
      while todo != {}
        invariant todo <= newConfig.groups.Keys
        invariant next.Keys == newConfig.groups.Keys - todo
        invariant Advanced(was, next, newConfig, stop) && Truthful(was, ps)
        invariant Untouched(was, next)
      {
        var g :| g in todo;
        var grp, removed := AdvanceOne(g, newConfig, next, stop, was, ps);
        todo, next, stop := todo - {g}, next[g := grp], stop + removed;
      }
    }

    /** The second loop: the groups that the new configuration does not have. */
    method DroppedGroups(kept: set<string>) returns (dropped: seq<ProcessGroup>)
      ensures forall grp :: grp in dropped <==> exists g :: g in processGroups && g !in kept && processGroups[g] == grp
    {
      dropped := [];
      var todo := processGroups.Keys;
      while todo != {}
        invariant todo <= processGroups.Keys
        invariant forall grp :: grp in dropped <==>
                    exists g :: g in processGroups && g !in todo && g !in kept && processGroups[g] == grp
      {
        var g :| g in todo;
        todo := todo - {g};
        if g !in kept {
          dropped := dropped + [processGroups[g]];
        }
      }
    }

    /** Both loops, under the lock. */
    method Plan(newConfig: Config, ghost was: Snapshot, ghost ps: set<Process>)
      returns (next: map<string, ProcessGroup>, stop: seq<Process>, stopGroups: seq<ProcessGroup>)
      requires Valid() && Truthful(was, ps) && forall g :: LooksLike(g, was)
      modifies processGroups.Values
      ensures next.Keys == newConfig.groups.Keys && Advanced(was, next, newConfig, stop)
      ensures AllAccounted(was, next, stop, stopGroups)
      ensures forall grp :: grp in stopGroups <==>
                exists g :: g in processGroups && g !in next && processGroups[g] == grp
    {
      next, stop := AdvanceAll(newConfig, was, ps);
      stopGroups := DroppedGroups(next.Keys);
      forall g | g in was && g !in next
        ensures g in processGroups && processGroups[g] in stopGroups && Holds(processGroups[g], was[g])
      {
        assert LooksLike(g, was);
      }
      NothingLost(was, processGroups, next, newConfig, stop, stopGroups);
    }

    /** The part of applyConfigAndSyncProcessGroups that runs under the lock. Reload loses
        nothing: every process that is active when the reload finds it is registered in a
        new group or scheduled for shutdown. And it schedules nothing else: by themselves
        the active processes whose key is gone from their group, and exactly the groups
        that the new configuration does not have. */
    method Reload(newConfig: Config, ghost was: Snapshot, ghost ps: set<Process>)
      returns (stop: seq<Process>, stopGroups: seq<ProcessGroup>)
      requires Valid() && Truthful(was, ps) && forall g :: LooksLike(g, was)
      modifies this, processGroups.Values
      ensures Valid() && config == newConfig && processGroups.Keys == newConfig.groups.Keys
      ensures Advanced(was, processGroups, newConfig, stop)
      ensures AllAccounted(was, processGroups, stop, stopGroups)
      ensures forall grp :: grp in stopGroups <==>
                exists g :: g in old(processGroups) && g !in processGroups && old(processGroups)[g] == grp
    {
      var next;
      next, stop, stopGroups := Plan(newConfig, was, ps);
      config, processGroups := newConfig, next;
    }
  }

  /** A process after Shutdown was or was not called on it. */
  twostate predicate MayBeShutDown(p: Process)
    reads p
  {
    p.state == old(p.state) || (Running(old(p.state)) && p.state == ProcessState.Shutdown)
  }

  method ShutdownEach(stop: seq<Process>)
    modifies stop
    ensures forall p <- stop :: !Running(p.state) && MayBeShutDown(p)
  {
    var i := 0;
    while i < |stop|
      invariant 0 <= i <= |stop|
      invariant forall j :: 0 <= j < i ==> !Running(stop[j].state)
      invariant forall p <- stop :: MayBeShutDown(p)
    {
      stop[i].Shutdown();
      i := i + 1;
    }
  }

  ghost function ProcessesOf(groups: seq<ProcessGroup>): set<Process>
    reads groups
  {
    set grp, p | grp in groups && p in grp.processes.Values :: p
  }

  lemma ProcessesOfMore(groups: seq<ProcessGroup>, grp: ProcessGroup)
    ensures ProcessesOf(groups + [grp]) == ProcessesOf(groups) + grp.processes.Values
  {
  }

  method ShutdownGroups(stopGroups: seq<ProcessGroup>)
    modifies ProcessesOf(stopGroups)
    ensures forall p <- ProcessesOf(stopGroups) :: !Running(p.state) && MayBeShutDown(p)
  {
    ghost var all := ProcessesOf(stopGroups);
    var i := 0;
    while i < |stopGroups|
      invariant 0 <= i <= |stopGroups|
      invariant forall p <- ProcessesOf(stopGroups[..i]) :: !Running(p.state)
      invariant forall p <- all :: MayBeShutDown(p)
    {
      var grp := stopGroups[i];
      assert grp.processes.Values <= all && stopGroups[..i + 1] == stopGroups[..i] + [grp];
      grp.Shutdown();
      ProcessesOfMore(stopGroups[..i], grp);
      i := i + 1;
    }
    assert stopGroups[..i] == stopGroups;
  }
}
