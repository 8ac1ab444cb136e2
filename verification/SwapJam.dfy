/** Stops that never return: a stop waits for the channel of the launch that it cancels, and
    nobody closes that channel if the command could not be executed, or if another channel was
    made before waitForCmd came to close one. */
module SwapJam {
  // StopProcesses holds the group's lock while its stops wait.

  import opened ProcessStates
  import opened SwapGroup

  /** A stop of StopProcesses that waits, or is about to wait, for such a channel. */
  predicate Stuck(s: State, k: Stopper) {
    && k.sweep && k.model in s.procs
    && match k.pc
       case AwaitExit(launch) => Lost(s, k.model, launch)
       case StopCommand =>
         var launches := s.procs[k.model].launches;
         launches > 0 && Lost(s, k.model, launches) && s.holder != Proxying(k.model, Launching)
       case _ => false
  }

  /** The group's lock is never released again. */
  predicate Jammed(s: State) {
    exists k :: k in s.stoppers && Stuck(s, k)
  }

  lemma LostStays(s: State, st: Step, m: Model, launch: nat)
    requires Enabled(s, st) && Lost(s, m, launch) && ProcOk(s, m)
    ensures Lost(Apply(s, st), m, launch)
  {
  }

  /** Without a launch to come the last channel stays the last. */
  lemma StuckStopStays(s: State, st: Step, i: nat)
    requires Enabled(s, st) && i < |s.stoppers| && Stuck(s, s.stoppers[i]) && s.stoppers[i].pc == StopCommand
    requires StopOk(s, s.stoppers[i]) && ProcOk(s, s.stoppers[i].model)
    ensures i < |Apply(s, st).stoppers| && Stuck(Apply(s, st), Apply(s, st).stoppers[i])
  {
    var k := s.stoppers[i];
    LostStays(s, st, k.model, s.procs[k.model].launches);
  }

  lemma StuckStays(s: State, st: Step, i: nat)
    requires Counts(s) && Enabled(s, st) && i < |s.stoppers| && Stuck(s, s.stoppers[i])
    ensures i < |Apply(s, st).stoppers| && Stuck(Apply(s, st), Apply(s, st).stoppers[i])
  {
    var k := s.stoppers[i];
    assert k in s.stoppers && StopOk(s, k) && ProcOk(s, k.model);
    match k.pc
    case StopCommand => StuckStopStays(s, st, i);
    case AwaitExit(launch) => LostStays(s, st, k.model, launch);
  }

  lemma JamStays(s: State, st: Step)
    requires Counts(s) && Enabled(s, st) && Jammed(s)
    ensures Jammed(Apply(s, st))
  {
    var k :| k in s.stoppers && Stuck(s, k);
    var i: nat :| i < |s.stoppers| && s.stoppers[i] == k;
    StuckStays(s, st, i);
    assert Apply(s, st).stoppers[i] in Apply(s, st).stoppers;
  }

  /** Then no request enters the group any more. */
  lemma {:induction false} JammedForGood(s: State, steps: seq<Step>)
    requires Counts(s) && Runs(s, steps) && Jammed(s)
    ensures Jammed(End(s, steps)) && !Enabled(End(s, steps), Enter)
    decreases |steps|
  {
    if steps == [] {
      var k :| k in s.stoppers && Stuck(s, k);
    } else {
      CountsStep(s, steps[0]);
      JamStays(s, steps[0]);
      JammedForGood(Apply(s, steps[0]), steps[1..]);
    }
  }

  // ------------------------------------------------------------ a group that is not jammed can be cleared

  lemma OnwardLosesNot(s: State, m: Model, launch: nat)
    requires Enabled(s, Onward(s)) && !s.holder.Entered? && m in s.procs && ProcOk(s, m)
    requires launch <= s.procs[m].launches && !Lost(s, m, launch)
    ensures !Lost(Apply(s, Onward(s)), m, launch)
  {
  }

  lemma OnwardMakesOpen(s: State, m: Model)
    requires Enabled(s, Onward(s)) && !s.holder.Entered? && m in s.procs && ProcOk(s, m)
    requires s.procs[m].launches != Apply(s, Onward(s)).procs[m].launches
    ensures !Lost(Apply(s, Onward(s)), m, Apply(s, Onward(s)).procs[m].launches) && s.holder == Proxying(m, Launching)
  {
  }

  lemma OnwardSticksNot(s: State, k: Stopper)
    requires Enabled(s, Onward(s)) && !s.holder.Entered? && StopOk(s, k) && ProcOk(s, k.model) && !Stuck(s, k)
    ensures !Stuck(Apply(s, Onward(s)), k)
  {
    var launches := s.procs[k.model].launches;
    match k.pc
    case AwaitExit(launch) =>
      if k.sweep {
        OnwardLosesNot(s, k.model, launch);
      }
    case StopCommand =>
      if launches != Apply(s, Onward(s)).procs[k.model].launches {
        OnwardMakesOpen(s, k.model);
      } else if !Lost(s, k.model, launches) {
        OnwardLosesNot(s, k.model, launches);
      }
    case _ =>
  }

  lemma OnwardKeepsStoppers(s: State)
    requires Enabled(s, Onward(s)) && !s.holder.Entered?
    ensures Apply(s, Onward(s)).stoppers == s.stoppers && Apply(s, Onward(s)).procs.Keys == s.procs.Keys
  {
  }

  /** The request under way does not jam the group if its launch succeeds. */
  lemma OnwardJamsNot(s: State)
    requires Counts(s) && Enabled(s, Onward(s)) && !s.holder.Entered? && !Jammed(s)
    ensures !Jammed(Apply(s, Onward(s)))
  {
    OnwardKeepsStoppers(s);
    forall k | k in s.stoppers ensures !Stuck(Apply(s, Onward(s)), k) {
      assert StopOk(s, k) && ProcOk(s, k.model);
      OnwardSticksNot(s, k);
    }
  }

  /** How many stops hold the group's lock. */
  function Sweeping(stoppers: seq<Stopper>): nat {
    if stoppers == [] then 0
    else (if stoppers[0].sweep && stoppers[0].pc != Returned then 1 else 0) + Sweeping(stoppers[1..])
  }

  lemma {:induction false} SweepingUpdate(stoppers: seq<Stopper>, j: nat, k: Stopper)
    requires j < |stoppers| && stoppers[j].sweep && stoppers[j].pc != Returned && k.sweep
    ensures Sweeping(stoppers[j := k]) == Sweeping(stoppers) - (if k.pc == Returned then 1 else 0)
  {
    if j == 0 {
      assert stoppers[j := k][1..] == stoppers[1..];
    } else {
      SweepingUpdate(stoppers[1..], j - 1, k);
      assert stoppers[j := k][1..] == stoppers[1..][j - 1 := k];
    }
  }

  /** The step that brings stop `j` on. */
  function StopOn(s: State, j: nat): Step
    requires j < |s.stoppers|
  {
    var k := s.stoppers[j];
    if k.pc.AwaitExit? && k.model in s.procs && k.pc.launch !in s.procs[k.model].closed then Exit(s, k.model)
    else StopperStep(j)
  }

  /** Stop `j` gets on with no request past the lock, unless it is stuck. */
  lemma StopGoesOn(s: State, j: nat)
    requires j < |s.stoppers| && s.stoppers[j].sweep && s.stoppers[j].pc != Returned && (s.holder.Free? || s.holder.Entered?)
    requires StopOk(s, s.stoppers[j]) && ProcOk(s, s.stoppers[j].model) && !Stuck(s, s.stoppers[j])
    ensures Enabled(s, StopOn(s, j))
    ensures var t := Apply(s, StopOn(s, j)); var k := t.stoppers[j];
            && t.holder == s.holder && t.procs.Keys == s.procs.Keys && t.stoppers == s.stoppers[j := k]
            && k.model == s.stoppers[j].model && k.sweep && !Stuck(t, k)
            && StopToGo(t.procs[k.model], k.pc) < StopToGo(s.procs[k.model], s.stoppers[j].pc)
  {
  }

  /** Nor does the step make another stuck. */
  lemma OthersNotStuck(s: State, j: nat, k: Stopper)
    requires j < |s.stoppers| && Enabled(s, StopOn(s, j)) && (s.holder.Free? || s.holder.Entered?) && !Stuck(s, k)
    ensures !Stuck(Apply(s, StopOn(s, j)), k)
  {
  }

  lemma StopOnKillsNone(s: State, j: nat, m: Model)
    requires j < |s.stoppers| && Enabled(s, StopOn(s, j)) && m in s.procs && !Dead(s, m)
    ensures !Dead(Apply(s, StopOn(s, j)), m)
  {
  }

  lemma SweepGoesOn(s: State, j: nat)
    requires Counts(s) && (s.holder.Free? || s.holder.Entered?) && !Jammed(s)
    requires j < |s.stoppers| && s.stoppers[j].sweep && s.stoppers[j].pc != Returned
    ensures Enabled(s, StopOn(s, j)) && Leads(s, Apply(s, StopOn(s, j))) && Apply(s, StopOn(s, j)).holder == s.holder
    ensures var t := Apply(s, StopOn(s, j)); var k := t.stoppers[j];
            && k.sweep && k.model == s.stoppers[j].model && k.model in s.procs
            && StopToGo(t.procs[k.model], k.pc) < StopToGo(s.procs[k.model], s.stoppers[j].pc)
            && Sweeping(t.stoppers) == Sweeping(s.stoppers) - (if k.pc == Returned then 1 else 0)
  {
    var k, st := s.stoppers[j], StopOn(s, j);
    assert k in s.stoppers && StopOk(s, k) && ProcOk(s, k.model) && !Stuck(s, k);
    StopGoesOn(s, j);
    CountsStep(s, st);
    var t := Apply(s, st);
    forall x | x in t.stoppers ensures !Stuck(t, x) {
      if x in s.stoppers {
        OthersNotStuck(s, j, x);
      }
    }
    forall m | m in s.procs && !Dead(s, m) ensures !Dead(t, m) {
      StopOnKillsNone(s, j, m);
    }
    SweepingUpdate(s.stoppers, j, t.stoppers[j]);
  }

  /** What a run to a clear state leaves alone: the stops that do not hold the lock, and every
      process that could still be started can be started. */
  ghost predicate Leads(s: State, t: State) {
    && Counts(t) && !Jammed(t) && t.procs.Keys == s.procs.Keys && |t.stoppers| == |s.stoppers|
    && (forall i :: 0 <= i < |s.stoppers| && !s.stoppers[i].sweep ==> t.stoppers[i] == s.stoppers[i])
    && (forall i :: 0 <= i < |s.stoppers| ==> t.stoppers[i].sweep == s.stoppers[i].sweep)
    && (forall m <- s.procs :: !Dead(s, m) ==> !Dead(t, m))
  }

  lemma LeadsOn(s: State, t: State, u: State)
    requires Leads(s, t) && Leads(t, u)
    ensures Leads(s, u)
  {
  }

  lemma OnwardLeads(s: State)
    requires Counts(s) && !Jammed(s) && !s.holder.Free? && !s.holder.Entered?
    ensures Enabled(s, Onward(s)) && Leads(s, Apply(s, Onward(s))) && Apply(s, Onward(s)).stoppers == s.stoppers
    ensures Remaining(Apply(s, Onward(s))) < Remaining(s) && !Apply(s, Onward(s)).holder.Entered?
  {
    OnwardGoes(s);
    OnwardJamsNot(s);
    OnwardKeepsStoppers(s);
    forall m | m in s.procs && !Dead(s, m) ensures !Dead(Apply(s, Onward(s)), m) {
      OnwardKeepsAlive(s, m);
    }
  }

  lemma QuietCons(st: Step, rest: seq<Step>)
    requires !IsStop(st) && Quiet(rest)
    ensures Quiet([st] + rest)
  {
  }

  lemma RunOn(s: State, st: Step, rest: seq<Step>)
    requires Enabled(s, st) && !IsStop(st) && Leads(s, Apply(s, st))
    requires Runs(Apply(s, st), rest) && Quiet(rest) && Leads(Apply(s, st), End(Apply(s, st), rest))
    ensures Runs(s, [st] + rest) && Quiet([st] + rest) && End(s, [st] + rest) == End(Apply(s, st), rest)
    ensures Leads(s, End(s, [st] + rest))
  {
    RunsCons(s, st, rest);
    QuietCons(st, rest);
    LeadsOn(s, Apply(s, st), End(Apply(s, st), rest));
  }

  /** The request under way comes to its end. */
  lemma {:induction false} EndRequest(s: State) returns (steps: seq<Step>)
    requires Counts(s) && !Jammed(s) && !s.holder.Entered?
    ensures Runs(s, steps) && Quiet(steps) && Leads(s, End(s, steps))
    ensures End(s, steps).holder == Free && End(s, steps).stoppers == s.stoppers
    decreases Remaining(s)
  {
    if s.holder == Free {
      steps := [];
      assert End(s, steps) == s;
    } else {
      OnwardLeads(s);
      var rest := EndRequest(Apply(s, Onward(s)));
      RunOn(s, Onward(s), rest);
      steps := [Onward(s)] + rest;
    }
  }

  /** With no request past the lock, the stops that hold it come to their end. */
  lemma {:induction false} EndSweep(s: State) returns (steps: seq<Step>)
    requires Counts(s) && !Jammed(s) && (s.holder.Free? || s.holder.Entered?)
    ensures Runs(s, steps) && Quiet(steps) && Leads(s, End(s, steps))
    ensures End(s, steps).holder == s.holder && !Swept(End(s, steps))
    decreases Sweeping(s.stoppers), 20
  {
    if k :| k in s.stoppers && k.sweep && k.pc != Returned {
      var j: nat :| j < |s.stoppers| && s.stoppers[j] == k;
      assert StopOk(s, k);
      steps := EndStop(s, j);
    } else {
      steps := [];
      assert End(s, steps) == s;
    }
  }

  lemma {:induction false} EndStop(s: State, j: nat) returns (steps: seq<Step>)
    requires Counts(s) && !Jammed(s) && (s.holder.Free? || s.holder.Entered?)
    requires j < |s.stoppers| && s.stoppers[j].sweep && s.stoppers[j].pc != Returned && s.stoppers[j].model in s.procs
    ensures Runs(s, steps) && Quiet(steps) && Leads(s, End(s, steps))
    ensures End(s, steps).holder == s.holder && !Swept(End(s, steps))
    decreases Sweeping(s.stoppers), StopToGo(s.procs[s.stoppers[j].model], s.stoppers[j].pc)
  {
    SweepGoesOn(s, j);
    var st := StopOn(s, j);
    var t := Apply(s, st);
    var rest;
    if t.stoppers[j].pc == Returned {
      rest := EndSweep(t);
    } else {
      rest := EndStop(t, j);
    }
    RunOn(s, st, rest);
    steps := [st] + rest;
  }

  lemma QuietConcat(a: seq<Step>, b: seq<Step>)
    requires Quiet(a) && Quiet(b)
    ensures Quiet(a + b)
  {
  }

  lemma RunBoth(s: State, a: seq<Step>, b: seq<Step>)
    requires Runs(s, a) && Quiet(a) && Leads(s, End(s, a))
    requires Runs(End(s, a), b) && Quiet(b) && Leads(End(s, a), End(End(s, a), b))
    ensures Runs(s, a + b) && Quiet(a + b) && End(s, a + b) == End(End(s, a), b) && Leads(s, End(s, a + b))
  {
    RunsConcat(s, a, b);
    QuietConcat(a, b);
    LeadsOn(s, End(s, a), End(End(s, a), b));
  }

  lemma UnsweptUnjammed(s: State)
    requires !Swept(s)
    ensures !Jammed(s)
  {
    if k :| k in s.stoppers && Stuck(s, k) {
      assert Swept(s);
    }
  }

  lemma EnterLeads(s: State)
    requires Counts(s) && s.holder.Entered? && !Swept(s)
    ensures Enabled(s, Enter) && Leads(s, Apply(s, Enter)) && Apply(s, Enter).stoppers == s.stoppers
    ensures !Apply(s, Enter).holder.Entered?
  {
    CountsStep(s, Enter);
    UnsweptUnjammed(Apply(s, Enter));
  }

  /** The group's lock is free: a request that waits for it enters, and ends. */
  lemma EnterAndEnd(s: State) returns (steps: seq<Step>)
    requires Counts(s) && s.holder.Entered? && !Swept(s)
    ensures Runs(s, steps) && Quiet(steps) && Leads(s, End(s, steps))
    ensures End(s, steps).holder == Free && End(s, steps).stoppers == s.stoppers
  {
    EnterLeads(s);
    var rest := EndRequest(Apply(s, Enter));
    RunOn(s, Enter, rest);
    steps := [Enter] + rest;
  }

  /** From every state that is not jammed a run without a new stop frees both locks. */
  lemma ComesClear(s: State) returns (steps: seq<Step>)
    requires Counts(s) && !Jammed(s)
    ensures Runs(s, steps) && Quiet(steps) && Leads(s, End(s, steps))
    ensures End(s, steps).holder == Free && !Swept(End(s, steps))
  {
    var first, rest;
    if s.holder.Entered? {
      first := EndSweep(s);
      rest := EnterAndEnd(End(s, first));
    } else {
      first := EndRequest(s);
      rest := EndSweep(End(s, first));
    }
    RunBoth(s, first, rest);
    steps := first + rest;
  }

  // ------------------------------------------------------------ when the group can jam

  /** Some run without a new stop jams the group. */
  ghost predicate CanJam(s: State) {
    exists steps :: Runs(s, steps) && Quiet(steps) && Jammed(End(s, steps))
  }

  /** The request under way is about to launch `m`. */
  predicate LaunchAhead(s: State, m: Model) {
    Bound(s) && s.holder.target == m && !Dead(s, m)
  }

  /** It is past the swap to Starting. */
  predicate LaunchBegun(s: State, m: Model) {
    s.holder in {Proxying(m, Launching), Proxying(m, Executing)}
  }

  /** The request under way can make a channel that is lost, or lose the one there is: either the
      last channel is still open, or the next launch can fail with nobody about to close one. */
  predicate CanLose(s: State, m: Model)
    requires m in s.procs
  {
    var p := s.procs[m];
    var open, unattended := p.launches !in p.closed, p.closing == 0;
    || (LaunchAhead(s, m) && (open || (unattended && p.command == NoCommand)))
    || (s.holder == Proxying(m, Launching) && (open || unattended))
    || (s.holder == Proxying(m, Executing) && open && unattended)
  }

  /** A stop of StopProcesses that can come to wait for a channel that is lost: it waits for the
      last one, is about to, or can still take the process down before or during its launch. */
  predicate MeetsLaunch(s: State, k: Stopper) {
    && k.sweep && k.model in s.procs && CanLose(s, k.model)
    && var p := s.procs[k.model];
       match k.pc
       case AwaitExit(launch) => launch == p.launches && launch !in p.closed
       case StopCommand => true
       case Returned => false
       case _ =>
         if LaunchBegun(s, k.model) then Committed(k.pc) && p.state == Starting
         else
           && (s.holder.Proxying? && s.holder.at in {Counted, Launch} ==> Committed(k.pc))
           && (k.pc == ReadState ==> Running(p.state))
  }

  // ---- a stop that meets no launch never gets stuck

  /** Stop `i` waits for a channel in vain, or can come to. */
  predicate Doomed(s: State, i: nat) {
    i < |s.stoppers| && (Stuck(s, s.stoppers[i]) || MeetsLaunch(s, s.stoppers[i]))
  }

  /** A step of the stop itself. */
  lemma DoomedBeforeOwn(s: State, i: nat)
    requires Enabled(s, StopperStep(i)) && Doomed(Apply(s, StopperStep(i)), i)
    requires StopOk(s, s.stoppers[i]) && ProcOk(s, s.stoppers[i].model)
    ensures Doomed(s, i)
  {
  }

  /** A step of the request under way, which no other follows while the stop holds the lock. */
  lemma DoomedBeforeLaunch(s: State, i: nat)
    requires Enabled(s, Proxy) && BeforeLaunch(s.holder.at) && Doomed(Apply(s, Proxy), i)
    requires StopOk(s, s.stoppers[i]) && ProcOk(s, s.stoppers[i].model)
    requires Dead(s, s.stoppers[i].model) ==> Dead(Apply(s, Proxy), s.stoppers[i].model)
    ensures Doomed(s, i)
  {
  }

  lemma DoomedBeforeService(s: State, i: nat)
    requires Enabled(s, Proxy) && !BeforeLaunch(s.holder.at) && Doomed(Apply(s, Proxy), i)
    requires StopOk(s, s.stoppers[i]) && ProcOk(s, s.stoppers[i].model)
    ensures Doomed(s, i)
  {
  }

  lemma DoomedBeforeFailure(s: State, i: nat)
    requires Enabled(s, LaunchFails) && Doomed(Apply(s, LaunchFails), i)
    requires StopOk(s, s.stoppers[i]) && ProcOk(s, s.stoppers[i].model)
    requires Dead(s, s.stoppers[i].model) ==> Dead(Apply(s, LaunchFails), s.stoppers[i].model)
    ensures Doomed(s, i)
  {
  }

  lemma DoomedBeforeHolder(s: State, st: Step, i: nat)
    requires Enabled(s, st) && (st.HolderStop? || st.Release? || st.Acquire?) && Doomed(Apply(s, st), i)
    requires StopOk(s, s.stoppers[i]) && ProcOk(s, s.stoppers[i].model)
    requires Dead(s, s.stoppers[i].model) ==> Dead(Apply(s, st), s.stoppers[i].model)
    ensures Doomed(s, i)
  {
  }

  /** A command exits, or a channel is closed. */
  lemma DoomedBeforeExit(s: State, st: Step, i: nat)
    requires Enabled(s, st) && (st.CommandExits? || st.CloseChannel?) && Doomed(Apply(s, st), i)
    requires StopOk(s, s.stoppers[i]) && ProcOk(s, s.stoppers[i].model)
    requires Dead(s, s.stoppers[i].model) ==> Dead(Apply(s, st), s.stoppers[i].model)
    ensures Doomed(s, i)
  {
  }

  /** A step of another stop, or a shutdown. */
  lemma DoomedBeforeOther(s: State, st: Step, i: nat)
    requires Enabled(s, st) && (st.StopperStep? || st.ForceShutdown?)
    requires Doomed(Apply(s, st), i) && st != StopperStep(i)
    requires StopOk(s, s.stoppers[i]) && ProcOk(s, s.stoppers[i].model)
    requires Dead(s, s.stoppers[i].model) ==> Dead(Apply(s, st), s.stoppers[i].model)
    ensures Doomed(s, i)
  {
  }

  lemma DoomedBefore(s: State, st: Step, i: nat)
    requires Counts(s) && Enabled(s, st) && !IsStop(st) && Doomed(Apply(s, st), i)
    ensures Doomed(s, i)
  {
    var k := s.stoppers[i];
    assert k in s.stoppers && StopOk(s, k) && ProcOk(s, k.model);
    if Dead(s, k.model) {
      DeadStays(s, st, k.model);
    }
    if st == StopperStep(i) {
      DoomedBeforeOwn(s, i);
    } else if st.StopperStep? || st.ForceShutdown? {
      DoomedBeforeOther(s, st, i);
    } else if st.CommandExits? || st.CloseChannel? {
      DoomedBeforeExit(s, st, i);
    } else if st.Enter? {
      assert false;
    } else if st.Proxy? {
      if BeforeLaunch(s.holder.at) {
        DoomedBeforeLaunch(s, i);
      } else {
        DoomedBeforeService(s, i);
      }
    } else if st.LaunchFails? {
      DoomedBeforeFailure(s, i);
    } else {
      DoomedBeforeHolder(s, st, i);
    }
  }

  lemma {:induction false} NeverJams(s: State, steps: seq<Step>)
    requires Counts(s) && Runs(s, steps) && Quiet(steps)
    requires forall i: nat :: !Doomed(s, i)
    ensures !Jammed(End(s, steps))
    decreases |steps|
  {
    if steps == [] {
      if k :| k in s.stoppers && Stuck(s, k) {
        var i: nat :| i < |s.stoppers| && s.stoppers[i] == k;
        assert Doomed(s, i);
      }
    } else {
      CountsStep(s, steps[0]);
      forall i: nat ensures !Doomed(Apply(s, steps[0]), i) {
        if Doomed(Apply(s, steps[0]), i) {
          DoomedBefore(s, steps[0], i);
        }
      }
      NeverJams(Apply(s, steps[0]), steps[1..]);
    }
  }

  // ---- one that meets a launch can get stuck

  lemma JamNow(s: State, i: nat)
    requires i < |s.stoppers| && Stuck(s, s.stoppers[i])
    ensures CanJam(s)
  {
    assert s.stoppers[i] in s.stoppers;
    assert Runs(s, []) && Quiet([]) && End(s, []) == s;
  }

  lemma BackJam(s: State, st: Step)
    requires Enabled(s, st) && !IsStop(st) && CanJam(Apply(s, st))
    ensures CanJam(s)
  {
    var rest :| Runs(Apply(s, st), rest) && Quiet(rest) && Jammed(End(Apply(s, st), rest));
    RunsCons(s, st, rest);
    QuietCons(st, rest);
  }

  /** The context of the lemmas below: stop `i` of StopProcesses has passed its wait, and if it
      waits for a channel, then for the last one, which is open. */
  ghost predicate Chasing(s: State, i: nat) {
    && Counts(s) && i < |s.stoppers| && s.stoppers[i].sweep && s.stoppers[i].model in s.procs
    && var p := s.procs[s.stoppers[i].model];
       match s.stoppers[i].pc
       case AwaitExit(launch) => launch == p.launches && launch !in p.closed
       case StopCommand => true
       case pc => Committed(pc)
  }

  /** The command cannot be executed, and nobody else closes the channel. */
  lemma {:induction false} MeetExecution(s: State, i: nat)
    requires Chasing(s, i) && s.holder == Proxying(s.stoppers[i].model, Executing) && CanLose(s, s.stoppers[i].model)
    requires Committed(s.stoppers[i].pc) ==> s.procs[s.stoppers[i].model].state == Starting
    ensures CanJam(s)
    decreases StopToGo(s.procs[s.stoppers[i].model], s.stoppers[i].pc)
  {
    assert ProcOk(s, s.stoppers[i].model);
    if Committed(s.stoppers[i].pc) {
      CountsStep(s, StopperStep(i));
      MeetExecution(Apply(s, StopperStep(i)), i);
      BackJam(s, StopperStep(i));
    } else {
      JamNow(Apply(s, LaunchFails), i);
      BackJam(s, LaunchFails);
    }
  }

  /** A stop reads the channel that is about to be replaced, or waits for the next one. */
  lemma {:induction false} MeetLaunching(s: State, i: nat)
    requires Chasing(s, i) && s.holder == Proxying(s.stoppers[i].model, Launching) && CanLose(s, s.stoppers[i].model)
    requires Committed(s.stoppers[i].pc) ==> s.procs[s.stoppers[i].model].state == Starting
    ensures CanJam(s)
    decreases StopToGo(s.procs[s.stoppers[i].model], s.stoppers[i].pc)
  {
    var k := s.stoppers[i];
    assert ProcOk(s, k.model);
    if k.pc.AwaitExit? {
      JamNow(Apply(s, Proxy), i);
      BackJam(s, Proxy);
    } else if k.pc == StopCommand && s.procs[k.model].closing == 0 {
      CountsStep(s, Proxy);
      MeetExecution(Apply(s, Proxy), i);
      BackJam(s, Proxy);
    } else {
      CountsStep(s, StopperStep(i));
      MeetLaunching(Apply(s, StopperStep(i)), i);
      BackJam(s, StopperStep(i));
    }
  }

  /** The request comes to launch the process. */
  lemma {:induction false} MeetRequest(s: State, i: nat)
    requires Chasing(s, i) && ComesUp(s, s.stoppers[i].model) && BeforeLaunch(s.holder.at) && CanLose(s, s.stoppers[i].model)
    ensures CanJam(s)
    decreases ToGo(s.holder.at)
  {
    var m := s.stoppers[i].model;
    assert ProcOk(s, m);
    ComesUpStep(s, m);
    CountsStep(s, Proxy);
    ComesUpLoses(s, m);
    if s.holder.at == Launch {
      MeetLaunching(Apply(s, Proxy), i);
    } else {
      MeetRequest(Apply(s, Proxy), i);
    }
    BackJam(s, Proxy);
  }

  lemma ComesUpLoses(s: State, m: Model)
    requires ComesUp(s, m) && BeforeLaunch(s.holder.at) && CanLose(s, m) && ProcOk(s, m)
    ensures Enabled(s, Proxy) && CanLose(Apply(s, Proxy), m)
    ensures Apply(s, Proxy).procs[m].closed == s.procs[m].closed && Apply(s, Proxy).procs[m].launches == s.procs[m].launches
    ensures if s.holder.at == Launch then Apply(s, Proxy).holder == Proxying(m, Launching)
            else BeforeLaunch(Apply(s, Proxy).holder.at)
  {
  }

  lemma {:induction false} MeetAfterSwap(s: State, i: nat)
    requires Chasing(s, i) && s.holder.StoppingPrevious? && s.holder.target == s.stoppers[i].model
    requires s.procs[s.stoppers[i].model].state == Stopped && CanLose(s, s.stoppers[i].model)
    ensures CanJam(s)
    decreases Remaining(s)
  {
    var m := s.stoppers[i].model;
    OnwardGoes(s);
    OnwardKeepsStoppers(s);
    SwapKeepsTarget(s);
    if s.holder.stop == Returned {
      MeetRequest(Apply(s, Onward(s)), i);
    } else {
      MeetAfterSwap(Apply(s, Onward(s)), i);
    }
    BackJam(s, Onward(s));
  }

  /** Stopping the previous process does nothing to the one that the request is for. */
  lemma SwapKeepsTarget(s: State)
    requires HolderOk(s) && s.holder.StoppingPrevious? && Enabled(s, Onward(s))
    ensures var t, m := Apply(s, Onward(s)), s.holder.target;
            && t.procs[m] == s.procs[m]
            && if s.holder.stop == Returned then t.holder == Proxying(m, Admit) else t.holder.StoppingPrevious? && t.holder.target == m
  {
  }

  lemma MeetStopped(s: State, i: nat)
    requires Chasing(s, i) && LaunchAhead(s, s.stoppers[i].model) && CanLose(s, s.stoppers[i].model)
    requires s.procs[s.stoppers[i].model].state == Stopped
    ensures CanJam(s)
  {
    if s.holder.Proxying? {
      MeetRequest(s, i);
    } else {
      MeetAfterSwap(s, i);
    }
  }

  /** If the process has a command, that exits first, so that the request has to start it. */
  lemma MeetAhead(s: State, i: nat)
    requires Chasing(s, i) && LaunchAhead(s, s.stoppers[i].model) && CanLose(s, s.stoppers[i].model)
    ensures CanJam(s)
  {
    var m := s.stoppers[i].model;
    assert ProcOk(s, m);
    if s.procs[m].state == Stopped {
      MeetStopped(s, i);
    } else {
      CountsStep(s, CommandExits(m));
      MeetStopped(Apply(s, CommandExits(m)), i);
      BackJam(s, CommandExits(m));
    }
  }

  /** The stop passes its wait while the request is not counted yet. */
  lemma {:induction false} MeetUndecided(s: State, i: nat)
    requires Counts(s) && i < |s.stoppers| && s.stoppers[i].sweep && Undecided(s.stoppers[i].pc)
    requires LaunchAhead(s, s.stoppers[i].model) && CanLose(s, s.stoppers[i].model)
    requires s.holder.Proxying? && s.holder.at in {Counted, Launch} ==> Committed(s.stoppers[i].pc)
    requires s.stoppers[i].pc == ReadState ==> Up(s, s.stoppers[i].model)
    ensures CanJam(s)
    decreases StopToGo(s.procs[s.stoppers[i].model], s.stoppers[i].pc)
  {
    var k := s.stoppers[i];
    if Committed(k.pc) {
      MeetAhead(s, i);
    } else {
      assert ProcOk(s, k.model);
      CountsStep(s, StopperStep(i));
      MeetUndecided(Apply(s, StopperStep(i)), i);
      BackJam(s, StopperStep(i));
    }
  }

  lemma MeetsJams(s: State, i: nat)
    requires Counts(s) && i < |s.stoppers| && MeetsLaunch(s, s.stoppers[i])
    ensures CanJam(s)
  {
    var k := s.stoppers[i];
    if s.holder == Proxying(k.model, Launching) {
      MeetLaunching(s, i);
    } else if s.holder == Proxying(k.model, Executing) {
      MeetExecution(s, i);
    } else if Undecided(k.pc) {
      MeetUndecided(s, i);
    } else {
      MeetAhead(s, i);
    }
  }

  /** Without a new stop the group's lock can be lost for good exactly when it is already, or one
      of the stops that hold it can meet a launch. */
  lemma JamIff(s: State)
    requires Counts(s)
    ensures CanJam(s) <==> exists i: nat :: Doomed(s, i)
  {
    if i: nat :| Doomed(s, i) {
      if Stuck(s, s.stoppers[i]) {
        JamNow(s, i);
      } else {
        MeetsJams(s, i);
      }
    } else {
      forall steps | Runs(s, steps) && Quiet(steps) ensures !Jammed(End(s, steps)) {
        NeverJams(s, steps);
      }
    }
  }

  /** What makes a call of StopProcesses dangerous: a request past the group's lock that is about
      to launch its model, or is launching it, and can lose a channel; for a graceful call, one
      that is not counted yet, for a model that is still up. */
  predicate Exposed(s: State, graceful: bool) {
    && s.holder != Free && s.holder.target in s.procs
    && var m := s.holder.target;
       && CanLose(s, m)
       && if graceful then LaunchAhead(s, m) && Up(s, m) && !(s.holder.Proxying? && s.holder.at in {Counted, Launch})
          else LaunchBegun(s, m) ==> s.procs[m].state == Starting
  }

  lemma NewStopMeets(s: State, t: State, m: Model, graceful: bool)
    requires t.procs == s.procs && t.holder == s.holder && m in s.procs
    ensures var k := Stopper(m, StartOf(graceful), true);
            !Stuck(t, k) && (MeetsLaunch(t, k) <==> Exposed(s, graceful) && s.holder.target == m)
  {
  }

  lemma OldStopsSpared(s: State, t: State, i: nat)
    requires i < |s.stoppers| <= |t.stoppers| && t.stoppers[i] == s.stoppers[i] && !Swept(s)
    ensures !Doomed(t, i)
  {
    assert s.stoppers[i] in s.stoppers;
  }

  lemma ExposedDooms(s: State, members: seq<Model>, graceful: bool) returns (i: nat)
    requires Counts(s) && Enabled(s, Sweep(members, graceful)) && Exposed(s, graceful)
    ensures Doomed(Apply(s, Sweep(members, graceful)), i)
  {
    var t, m := Apply(s, Sweep(members, graceful)), s.holder.target;
    var j: nat :| j < |members| && members[j] == m;
    NewStopMeets(s, t, m, graceful);
    i := |s.stoppers| + j;
    assert t.stoppers[i] == Stopper(m, StartOf(graceful), true);
  }

  lemma DoomsExposed(s: State, members: seq<Model>, graceful: bool, i: nat)
    requires Counts(s) && Enabled(s, Sweep(members, graceful)) && Doomed(Apply(s, Sweep(members, graceful)), i)
    ensures Exposed(s, graceful)
  {
    var t, n := Apply(s, Sweep(members, graceful)), |s.stoppers|;
    if i < n {
      OldStopsSpared(s, t, i);
    } else {
      assert t.stoppers[i] == Stopper(members[i - n], StartOf(graceful), true) && members[i - n] in members;
      NewStopMeets(s, t, members[i - n], graceful);
    }
  }

  /** StopProcesses can jam the group exactly then. */
  lemma SweepJamsIff(s: State, members: seq<Model>, graceful: bool)
    requires Counts(s) && Enabled(s, Sweep(members, graceful))
    ensures CanJam(Apply(s, Sweep(members, graceful))) <==> Exposed(s, graceful)
  {
    var t := Apply(s, Sweep(members, graceful));
    CountsStep(s, Sweep(members, graceful));
    JamIff(t);
    if Exposed(s, graceful) {
      var i := ExposedDooms(s, members, graceful);
    } else if i: nat :| Doomed(t, i) {
      DoomsExposed(s, members, graceful, i);
    }
  }

  /** A fresh group of one, and a request that has just entered. */
  lemma FirstRequest() returns (s0: State, steps: seq<Step>)
    ensures Init(s0) && s0.procs.Keys == {"a"} && Runs(s0, steps)
    ensures var s := End(s0, steps);
            && Counts(s) && s.procs == s0.procs && s.stoppers == []
            && s.holder == Proxying("a", Admit)
  {
    s0 := State(map["a" := Process(Stopped, 0, 1, NoCommand, 0, {}, 0)], "", Free, []);
    var s1 := Apply(s0, Acquire("a"));
    InitCounts(s0);
    CountsStep(s0, Acquire("a"));
    CountsStep(s1, Enter);
    assert Runs(Apply(s1, Enter), []);
    RunsCons(s1, Enter, []);
    RunsCons(s0, Acquire("a"), [Enter] + []);
    steps := [Acquire("a")] + ([Enter] + []);
  }

  /** A run that comes to it: all processes are stopped while that request is under way. */
  lemma SweepUnderRequest() returns (s0: State, steps: seq<Step>)
    ensures Init(s0) && Runs(s0, steps) && CanJam(End(s0, steps))
  {
    var first;
    s0, first := FirstRequest();
    var s, sweep := End(s0, first), Sweep(["a"], false);
    SweepJamsIff(s, ["a"], false);
    assert Runs(Apply(s, sweep), []);
    RunsCons(s, sweep, []);
    RunsConcat(s0, first, [sweep] + []);
    steps := first + ([sweep] + []);
  }

  /** It needs no launch that fails: while a stop waits for the command of a process to exit, a
      request in flight makes the next channel before waitForCmd comes to close one. */
  lemma OrphanedChannel(s: State, i: nat, m: Model)
    requires Counts(s) && m in s.procs && i < |s.stoppers| && s.stoppers[i] == Stopper(m, AwaitExit(s.procs[m].launches), true)
    requires s.holder == Proxying(m, Counted) && s.procs[m].command == Alive && s.procs[m].launches !in s.procs[m].closed
    ensures var steps := [CommandExits(m)] + ([Proxy] + ([Proxy] + ([Proxy] + [])));
            Runs(s, steps) && Jammed(End(s, steps))
  {
    var s1 := Apply(s, CommandExits(m));
    var s2 := Apply(s1, Proxy);
    var s3 := Apply(s2, Proxy);
    var s4 := Apply(s3, Proxy);
    assert s4.stoppers[i] in s4.stoppers && Stuck(s4, s4.stoppers[i]);
    assert Runs(s4, []);
    RunsCons(s3, Proxy, []);
    RunsCons(s2, Proxy, [Proxy] + []);
    RunsCons(s1, Proxy, [Proxy] + ([Proxy] + []));
    RunsCons(s, CommandExits(m), [Proxy] + ([Proxy] + ([Proxy] + [])));
  }
}
