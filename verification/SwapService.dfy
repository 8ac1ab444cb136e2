/** What a request and a stop do by themselves: when a request is forwarded to the upstream, and
    when a stop takes a process down. */
module SwapService {
  import opened ProcessStates
  import opened SwapGroup

  // ------------------------------------------------------------ the request

  /** The steps of Process.ProxyRequest, with a start that may fail. */
  ghost predicate Own(steps: seq<Step>) {
    forall st <- steps :: st.Proxy? || st.LaunchFails?
  }

  /** The request is forwarded at some point of the run. */
  predicate Served(s: State, steps: seq<Step>)
    requires Runs(s, steps)
    decreases |steps|
  {
    (s.holder.Proxying? && s.holder.at == Serving) || (steps != [] && Served(Apply(s, steps[0]), steps[1..]))
  }

  /** The state that the process must be in for a request that has come this far. */
  predicate CanServe(at: ProxyPc, st: ProcessState) {
    match at
    case Admit => st in {Ready, Stopped}
    case TakeSlot => st in {Ready, Stopped}
    case Counted => st in {Ready, Stopped}
    case Launch => st == Stopped
    case Serving => true
    case Finished => false
    case Left => false
    case _ => st == Starting
  }

  /** One step of the request keeps its prospects, unless the start fails. */
  lemma ProspectsStep(s: State, st: Step, m: Model)
    requires m in s.procs && ProcOk(s, m) && s.holder.Proxying? && s.holder.target == m && Enabled(s, st) && (st.Proxy? || st.LaunchFails?)
    ensures var t := Apply(s, st);
            && t.holder.Proxying? && t.holder.target == m && m in t.procs
            && ToGo(t.holder.at) < ToGo(s.holder.at)
            && (s.holder.at != Serving ==>
                  (CanServe(t.holder.at, t.procs[m].state) <==> CanServe(s.holder.at, s.procs[m].state) && st.Proxy?))
  {
  }

  lemma {:induction false} ServedPast(s: State, steps: seq<Step>, m: Model)
    requires Counts(s) && m in s.procs && s.holder.Proxying? && s.holder.target == m
    requires Runs(s, steps) && Own(steps) && End(s, steps).holder == Proxying(m, Left)
    ensures Served(s, steps) <==> CanServe(s.holder.at, s.procs[m].state) && LaunchFails !in steps
    decreases |steps|
  {
    if steps == [] {
    } else {
      assert ProcOk(s, m);
      ProspectsStep(s, steps[0], m);
      CountsStep(s, steps[0]);
      if s.holder.at == Serving {
        NothingFails(s, steps);
      } else {
        ServedPast(Apply(s, steps[0]), steps[1..], m);
        assert LaunchFails in steps <==> steps[0] == LaunchFails || LaunchFails in steps[1..];
      }
    }
  }

  /** A request that is being forwarded starts nothing any more. */
  lemma {:induction false} NothingFails(s: State, steps: seq<Step>)
    requires s.holder.Proxying? && s.holder.at in {Serving, Finished, Left} && Runs(s, steps) && Own(steps)
    ensures LaunchFails !in steps
    decreases |steps|
  {
    if steps == [] {
    } else {
      NothingFails(Apply(s, steps[0]), steps[1..]);
      assert LaunchFails in steps <==> steps[0] == LaunchFails || LaunchFails in steps[1..];
    }
  }

  /** A request that is left alone is forwarded exactly if the process is ready, or is stopped
      and can be started. */
  lemma ServedIff(s: State, steps: seq<Step>, m: Model)
    requires Counts(s) && m in s.procs && s.holder == Proxying(m, Admit)
    requires Runs(s, steps) && Own(steps) && End(s, steps).holder == Proxying(m, Left)
    ensures Served(s, steps) <==> s.procs[m].state == Ready || (s.procs[m].state == Stopped && LaunchFails !in steps)
  {
    ServedPast(s, steps, m);
    if s.procs[m].state == Ready {
      ReadyLaunchesNothing(s, steps, m);
    }
  }

  /** Forwarding to a ready process starts nothing and changes no process. */
  lemma {:induction false} ReadyLaunchesNothing(s: State, steps: seq<Step>, m: Model)
    requires Counts(s) && m in s.procs && s.holder.Proxying? && s.holder.target == m && s.procs[m].state == Ready
    requires s.holder.at in {Admit, TakeSlot, Counted, Serving, Finished, Left}
    requires Runs(s, steps) && Own(steps)
    ensures LaunchFails !in steps
    ensures var t := End(s, steps);
            && t.holder.Proxying? && t.holder.at in {Admit, TakeSlot, Counted, Serving, Finished, Left}
            && m in t.procs && t.procs == s.procs[m := s.procs[m].(inflight := t.procs[m].inflight)]
    decreases |steps|
  {
    if steps == [] {
      assert s.procs[m := s.procs[m]] == s.procs;
    } else {
      assert ProcOk(s, m);
      CountsStep(s, steps[0]);
      ReadyLaunchesNothing(Apply(s, steps[0]), steps[1..], m);
      assert LaunchFails in steps <==> steps[0] == LaunchFails || LaunchFails in steps[1..];
    }
  }

  /** Nothing keeps it from its end. */
  lemma {:induction false} RequestEnds(s: State, m: Model) returns (steps: seq<Step>)
    requires Counts(s) && m in s.procs && s.holder.Proxying? && s.holder.target == m
    ensures Runs(s, steps) && Own(steps) && LaunchFails !in steps && End(s, steps).holder == Proxying(m, Left)
    decreases ToGo(s.holder.at)
  {
    if s.holder.at == Left {
      steps := [];
    } else {
      assert ProcOk(s, m);
      ProspectsStep(s, Proxy, m);
      CountsStep(s, Proxy);
      var rest := RequestEnds(Apply(s, Proxy), m);
      RunsCons(s, Proxy, rest);
      steps := [Proxy] + rest;
    }
  }

  // ---- admission

  predicate EverCounted(s: State, steps: seq<Step>, m: Model)
    requires Runs(s, steps)
    decreases |steps|
  {
    (m in s.procs && s.procs[m].inflight > 0) || (steps != [] && EverCounted(Apply(s, steps[0]), steps[1..], m))
  }

  /** A request is counted as in flight exactly if the process is not stopping or shut down; one that
      is not leaves all processes as they are. */
  lemma {:induction false} AdmittedIff(s: State, steps: seq<Step>, m: Model)
    requires Counts(s) && m in s.procs && s.holder == Proxying(m, Admit)
    requires Runs(s, steps) && Own(steps) && End(s, steps).holder == Proxying(m, Left)
    ensures EverCounted(s, steps, m) <==> s.procs[m].state !in {Stopping, Shutdown}
    ensures s.procs[m].state in {Stopping, Shutdown} ==> End(s, steps).procs == s.procs
  {
    assert ProcOk(s, m) && steps != [];
    var t := Apply(s, steps[0]);
    CountsStep(s, steps[0]);
    assert ProcOk(t, m);
    if t.holder.at != Left {
      assert steps[1..] != [] && steps[1] in steps && steps[1..][0] == steps[1];
      assert steps[1] == Proxy && Apply(t, Proxy).procs[m].inflight == 1;
      assert EverCounted(Apply(t, Proxy), steps[1..][1..], m);
      assert EverCounted(t, steps[1..], m);
    }
  }

  /** Nobody is admitted beyond the limit, in whatever state. */
  lemma LimitKept(s: State, st: Step, m: Model)
    requires Enabled(s, st) && m in s.procs && s.procs[m].inflight <= s.procs[m].limit
    ensures m in Apply(s, st).procs && Apply(s, st).procs[m].limit == s.procs[m].limit
    ensures Apply(s, st).procs[m].inflight <= s.procs[m].limit
  {
  }

  // ---- one launch

  /** What the process is like when the request has come this far from a stopped one. */
  predicate Started(before: Process, at: ProxyPc, now: Process) {
    match at
    case Launching => now == before.(state := Starting, inflight := now.inflight)
    case Executing => now == before.(state := Starting, command := Prepared, launches := before.launches + 1, inflight := now.inflight)
    case Checking => now == before.(state := Starting, command := Alive, launches := before.launches + 1, inflight := now.inflight)
    case Serving => now == before.(state := Ready, command := Alive, launches := before.launches + 1, inflight := now.inflight)
    case Finished => now == before.(state := Ready, command := Alive, launches := before.launches + 1, inflight := now.inflight)
    case Left => now == before.(state := Ready, command := Alive, launches := before.launches + 1, inflight := now.inflight)
    case _ => now == before.(inflight := now.inflight)
  }

  lemma StartedStep(s: State, before: Process, m: Model)
    requires m in s.procs && ProcOk(s, m) && s.holder.Proxying? && s.holder.target == m && s.holder.at != Left
    requires before.state == Stopped && Started(before, s.holder.at, s.procs[m])
    ensures var t := Apply(s, Proxy);
            && t.holder.Proxying? && t.holder.target == m && m in t.procs && Started(before, t.holder.at, t.procs[m])
            && t.procs == s.procs[m := t.procs[m]] && ToGo(t.holder.at) < ToGo(s.holder.at)
  {
  }

  /** A request for a stopped process, with a start that does not fail, launches one command,
      leaves it running and the process ready and not in flight, and changes nothing else. */
  lemma {:induction false} StoppedIsStarted(s: State, steps: seq<Step>, before: Process, m: Model)
    requires Counts(s) && m in s.procs && s.holder.Proxying? && s.holder.target == m
    requires before.state == Stopped && Started(before, s.holder.at, s.procs[m])
    requires Runs(s, steps) && Own(steps) && LaunchFails !in steps && End(s, steps).holder == Proxying(m, Left)
    ensures End(s, steps).procs ==
              s.procs[m := before.(state := Ready, command := Alive, launches := before.launches + 1, inflight := 0)]
    decreases |steps|
  {
    assert ProcOk(s, m);
    if steps == [] {
    } else {
      assert steps[0] in steps;
      StartedStep(s, before, m);
      CountsStep(s, steps[0]);
      StoppedIsStarted(Apply(s, steps[0]), steps[1..], before, m);
    }
  }

  predicate LaunchingNow(s: State, m: Model) {
    s.holder in {Proxying(m, Launching), Proxying(m, Executing), Proxying(m, Checking)}
  }

  lemma EntersLaunching(s: State, st: Step, m: Model)
    requires Enabled(s, st) && LaunchingNow(Apply(s, st), m)
    ensures st != Release
    ensures LaunchingNow(s, m) || (st == Proxy && s.holder == Proxying(m, Launch) && m in s.procs && s.procs[m].state == Stopped)
  {
  }

  /** In any run, with any interference: a request that is launching its model found it stopped,
      and has been the one under way since. */
  lemma {:induction false} LaunchFoundStopped(s: State, steps: seq<Step>, m: Model) returns (k: nat)
    requires Runs(s, steps) && !LaunchingNow(s, m) && LaunchingNow(End(s, steps), m)
    ensures k < |steps| && steps[k] == Proxy && Runs(s, steps[..k])
    ensures var t := End(s, steps[..k]);
            t.holder == Proxying(m, Launch) && m in t.procs && t.procs[m].state == Stopped
    ensures Release !in steps[k..]
    decreases |steps|
  {
    if steps == [] {
      assert false;
    } else {
      var n := |steps| - 1;
      var before, last := steps[..n], steps[n];
      assert steps == before + [last] && [last][1..] == [];
      RunsSplit(s, before, [last]);
      EntersLaunching(End(s, before), last, m);
      if LaunchingNow(End(s, before), m) {
        k := LaunchFoundStopped(s, before, m);
        assert steps[..k] == before[..k] && steps[k..] == before[k..] + [last];
      } else {
        k := n;
        assert steps[k..] == [last];
      }
    }
  }

  // ------------------------------------------------------------ the stop

  /** What the process is like when the stop has come this far. */
  predicate StoppedSoFar(before: Process, pc: StopPc, now: Process) {
    match pc
    case LoopSwap(seen) => now == before && Running(before.state) && seen == before.state
    case StopCommand => Running(before.state) && now == before.(state := Stopping)
    case AwaitExit(launch) =>
      && Running(before.state) && launch == before.launches
      && now in {before.(state := Stopping), Exited(before), Closed(before)}
    case Returned => now == if Running(before.state) then Closed(before) else before
    case _ => now == before
  }

  /** No request is in flight, and a command that runs is the one of the last launch. */
  predicate Settled(p: Process) {
    && p.inflight == 0
    && (Running(p.state) ==> p.command == Alive && p.launches > 0 && p.closing == 0 && p.launches !in p.closed)
  }

  function Exited(p: Process): Process {
    p.(state := Stopped, command := NoCommand, closing := p.closing + 1)
  }

  function Closed(p: Process): Process {
    p.(state := Stopped, command := NoCommand, closed := p.closed + {p.launches})
  }

  /** The step that brings a stop on: its own, or the two of waitForCmd that it waits for. */
  function StopOn(s: State, i: nat): Step
    requires i < |s.stoppers| && s.stoppers[i].model in s.procs
  {
    var m := s.stoppers[i].model;
    if s.stoppers[i].pc.AwaitExit? && s.stoppers[i].pc.launch !in s.procs[m].closed then Exit(s, m) else StopperStep(i)
  }

  lemma StopStepAlone(s: State, i: nat, before: Process)
    requires i < |s.stoppers| && s.stoppers[i].model in s.procs && s.stoppers[i].pc != Returned
    requires Settled(before)
    requires StoppedSoFar(before, s.stoppers[i].pc, s.procs[s.stoppers[i].model])
    ensures Enabled(s, StopOn(s, i))
    ensures var t, m := Apply(s, StopOn(s, i)), s.stoppers[i].model;
            && t.procs.Keys == s.procs.Keys && t.procs == s.procs[m := t.procs[m]] && t.holder == s.holder
            && t.stoppers == s.stoppers[i := Stopper(m, t.stoppers[i].pc, s.stoppers[i].sweep)]
            && StoppedSoFar(before, t.stoppers[i].pc, t.procs[m])
            && StopToGo(t.procs[m], t.stoppers[i].pc) < StopToGo(s.procs[m], s.stoppers[i].pc)
  {
  }

  /** A stop that is left alone, of a process with no request in flight, takes it down exactly if
      it is starting or ready, returns when its command has exited and the channel is closed, and
      changes nothing else. */
  lemma {:induction false} StopAlone(s: State, i: nat, before: Process) returns (steps: seq<Step>)
    requires i < |s.stoppers| && s.stoppers[i].model in s.procs
    requires Settled(before)
    requires StoppedSoFar(before, s.stoppers[i].pc, s.procs[s.stoppers[i].model])
    ensures Runs(s, steps) && forall st <- steps :: st in {StopperStep(i), CommandExits(s.stoppers[i].model), CloseChannel(s.stoppers[i].model)}
    ensures var t, m := End(s, steps), s.stoppers[i].model;
            && t.holder == s.holder && t.stoppers == s.stoppers[i := Stopper(m, Returned, s.stoppers[i].sweep)]
            && t.procs == s.procs[m := if Running(before.state) then Closed(before) else before]
    decreases StopToGo(s.procs[s.stoppers[i].model], s.stoppers[i].pc)
  {
    var m := s.stoppers[i].model;
    if s.stoppers[i].pc == Returned {
      steps := [];
      assert s.stoppers[i := s.stoppers[i]] == s.stoppers && s.procs[m := s.procs[m]] == s.procs;
    } else {
      StopStepAlone(s, i, before);
      var t := Apply(s, StopOn(s, i));
      var rest := StopAlone(t, i, before);
      RunsCons(s, StopOn(s, i), rest);
      steps := [StopOn(s, i)] + rest;
    }
  }

  /** StopProcess forgets the model and leads to its end: left alone, it is neither up nor last
      used, and no other process has changed. */
  lemma StopProcessStops(s: State, m: Model, graceful: bool) returns (steps: seq<Step>)
    requires Enabled(s, UnloadClear(m, graceful)) && Settled(s.procs[m])
    ensures Runs(s, [UnloadClear(m, graceful)] + steps)
    ensures var t := End(s, [UnloadClear(m, graceful)] + steps);
            && t.procs.Keys == s.procs.Keys && !Up(t, m) && (m != "" ==> t.last != m) && t.holder == s.holder
            && (forall other <- s.procs :: other != m ==> t.procs[other] == s.procs[other])
            && |t.stoppers| == |s.stoppers| + 1 && t.stoppers[|s.stoppers|].pc == Returned
  {
    var t := Apply(s, UnloadClear(m, graceful));
    steps := StopAlone(t, |s.stoppers|, s.procs[m]);
    RunsCons(s, UnloadClear(m, graceful), steps);
    LastKept(t, steps);
  }

  lemma {:induction false} LastKept(s: State, steps: seq<Step>)
    requires Runs(s, steps) && forall st <- steps :: st.StopperStep? || st.CommandExits? || st.CloseChannel?
    ensures End(s, steps).last == s.last
    decreases |steps|
  {
    if steps == [] {
    } else {
      assert steps[0] in steps;
      LastKept(Apply(s, steps[0]), steps[1..]);
    }
  }

  predicate AllSettled(s: State) {
    forall m <- s.procs :: Settled(s.procs[m])
  }

  /** The stops from number `j` on have just begun, and come to their end one after the other. */
  lemma {:induction false} StopsAlone(s: State, j: nat) returns (steps: seq<Step>)
    requires AllSettled(s) && j <= |s.stoppers|
    requires forall i :: j <= i < |s.stoppers| ==> s.stoppers[i].model in s.procs && s.stoppers[i].pc in {ReadState, LoopRead}
    ensures Runs(s, steps)
    ensures var t := End(s, steps);
            && |t.stoppers| == |s.stoppers| && t.stoppers[..j] == s.stoppers[..j] && t.holder == s.holder
            && (forall i :: j <= i < |s.stoppers| ==> t.stoppers[i].pc == Returned && !Up(t, s.stoppers[i].model))
            && (forall m :: Up(t, m) ==> Up(s, m))
    decreases |s.stoppers| - j
  {
    if j == |s.stoppers| {
      steps := [];
    } else {
      var m := s.stoppers[j].model;
      var first := StopAlone(s, j, s.procs[m]);
      var t := End(s, first);
      var rest := StopsAlone(t, j + 1);
      RunsConcat(s, first, rest);
      steps := first + rest;
      assert t.stoppers[..j] == s.stoppers[..j];
      assert End(t, rest).stoppers[..j + 1][j] == t.stoppers[j];
      assert End(t, rest).stoppers[..j] == End(t, rest).stoppers[..j + 1][..j] == t.stoppers[..j + 1][..j];
    }
  }

  /** StopProcesses takes every process of the group down, and releases the lock. */
  lemma StopProcessesStops(s: State, members: seq<Model>, graceful: bool) returns (steps: seq<Step>)
    requires Enabled(s, Sweep(members, graceful)) && AllSettled(s)
    ensures Runs(s, [Sweep(members, graceful)] + steps)
    ensures var t := End(s, [Sweep(members, graceful)] + steps);
            !Swept(t) && t.holder == s.holder && forall m <- s.procs :: !Up(t, m)
  {
    var t, n := Apply(s, Sweep(members, graceful)), |s.stoppers|;
    forall i | n <= i < |t.stoppers| ensures t.stoppers[i] == Stopper(members[i - n], StartOf(graceful), true) && members[i - n] in members {
    }
    steps := StopsAlone(t, n);
    RunsCons(s, Sweep(members, graceful), steps);
    var u := End(t, steps);
    forall m | m in s.procs ensures !Up(u, m) {
      var j: nat :| j < |members| && members[j] == m;
      assert t.stoppers[n + j].model == m;
    }
    forall k | k in u.stoppers && k.sweep ensures k.pc == Returned {
      var i :| 0 <= i < |u.stoppers| && u.stoppers[i] == k;
      if i < n {
        assert u.stoppers[..n][i] == t.stoppers[..n][i] && s.stoppers[i] in s.stoppers;
      }
    }
  }

  /** What can come from outside at any time: a request once the mutex is free, a stop of the TTL
      check, the end of a shutdown, and, while the group's lock is free, StopProcess. */
  lemma Possible(s: State, m: Model, graceful: bool)
    requires m in s.procs
    ensures Enabled(s, SpawnStop(m, graceful)) && Enabled(s, ForceShutdown(m))
    ensures Enabled(s, Acquire(m)) <==> s.holder == Free
    ensures Enabled(s, CommandExits(m)) <==> s.procs[m].command == Alive
    ensures Enabled(s, UnloadClear(m, graceful)) <==> !Swept(s)
    ensures Enabled(s, Enter) <==> s.holder.Entered? && !Swept(s)
  {
  }

  // ------------------------------------------------------------ swap and shutdown

  predicate OnlyHolderStop(steps: seq<Step>) {
    forall i :: 0 <= i < |steps| ==> steps[i] == HolderStop
  }

  /** The stop inside a swap has to pass its wait first: while a request of the previous process
      is in flight, whoever counts it, it is not taken down. */
  lemma {:induction false} SwapWaits(s: State, steps: seq<Step>, prev: Model)
    requires prev in s.procs && s.procs[prev].inflight > 0
    requires s.holder.StoppingPrevious? && s.holder.prev == prev && s.holder.stop in {ReadState, AwaitInflight}
    requires Runs(s, steps) && OnlyHolderStop(steps)
    ensures End(s, steps).procs == s.procs || !Running(s.procs[prev].state)
    decreases |steps|
  {
    if steps == [] || !Running(s.procs[prev].state) {
    } else {
      var t := Apply(s, HolderStop);
      assert t.procs == s.procs[prev := s.procs[prev]] == s.procs;
      SwapWaits(t, steps[1..], prev);
    }
  }

  lemma EnterThenWaits(s: State, steps: seq<Step>)
    requires Enabled(s, Enter) && s.last !in {"", s.holder.target} && s.last in s.procs && s.procs[s.last].inflight > 0
    requires Runs(s, [Enter] + steps) && OnlyHolderStop(steps)
    ensures var t := End(s, [Enter] + steps);
            s.last in t.procs && t.procs[s.last].state == s.procs[s.last].state
  {
    assert ([Enter] + steps)[1..] == steps;
    var t := Apply(s, Enter);
    SwapWaits(t, steps, s.last);
    if !Running(s.procs[s.last].state) {
      NotUpUntouched(t, steps, s.last);
    }
  }

  lemma {:induction false} NotUpUntouched(s: State, steps: seq<Step>, prev: Model)
    requires prev in s.procs && !Running(s.procs[prev].state) && (s.holder.StoppingPrevious? ==> s.holder.prev == prev)
    requires Runs(s, steps) && OnlyHolderStop(steps)
    ensures prev in End(s, steps).procs && End(s, steps).procs[prev].state == s.procs[prev].state
    decreases |steps|
  {
    if steps == [] {
    } else {
      NotUpUntouched(Apply(s, HolderStop), steps[1..], prev);
    }
  }

  lemma {:induction false} DeadInRun(s: State, steps: seq<Step>, m: Model)
    requires Counts(s) && Runs(s, steps) && Dead(s, m)
    ensures Dead(End(s, steps), m)
    decreases |steps|
  {
    if steps == [] {
    } else {
      CountsStep(s, steps[0]);
      DeadStays(s, steps[0], m);
      DeadInRun(Apply(s, steps[0]), steps[1..], m);
    }
  }

  /** A shutdown of a process without a command, that is not being launched, is final. */
  lemma ShutdownIsFinal(s: State, m: Model, steps: seq<Step>)
    requires Counts(s) && m in s.procs && s.procs[m].command == NoCommand && s.holder != Proxying(m, Launching)
    requires Runs(s, [ForceShutdown(m)] + steps)
    ensures var t := End(s, [ForceShutdown(m)] + steps); m in t.procs && t.procs[m].state == Shutdown
  {
    assert ([ForceShutdown(m)] + steps)[1..] == steps;
    CountsStep(s, ForceShutdown(m));
    DeadInRun(Apply(s, ForceShutdown(m)), steps, m);
  }
}
