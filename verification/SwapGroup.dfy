/** One swap-mode ProcessGroup under every interleaving of requests, graceful and
    immediate stops (TTL, StopProcesses), exits of upstream commands, and unloads. */
module SwapGroup {
  // A request holds swapRequestMu from entry to exit, so at most one is past the
  // mutex: the holder. Stops run in any number of other goroutines; those of
  // StopProcesses hold the group's lock meanwhile. Each step is one access to shared
  // state or one locked region. A running command may exit, a launch may fail, and a
  // shutdown may come to its end at any time.

  import opened ProcessStates

  type Model = string

  /** Where a call of Process.Stop is; StopImmediately begins at LoopRead. */
  datatype StopPc =
    | ReadState
    | AwaitInflight
    | LoopRead
    | LoopSwap(seen: ProcessState)
    | StopCommand               // about to read cmdWaitChan and to cancel the command
    | AwaitExit(launch: nat)    // waits for the channel of that launch to be closed
    | Returned

  datatype ProxyPc =
    | Admit       // about to test for stopping/shutdown
    | TakeSlot    // about to take a slot and be counted as in flight
    | Counted     // counted as in flight, about to look whether a start is needed
    | Launch      // about to swap Stopped -> Starting
    | Launching   // about to make a new cmdWaitChan
    | Executing   // about to execute the command
    | Checking    // the command has been started, its health is being checked
    | Serving     // forwarding the request
    | Finished    // about to leave the in-flight count
    | Left        // about to release swapRequestMu

  datatype Holder =
    | Free
    | Entered(target: Model)
    | StoppingPrevious(target: Model, prev: Model, stop: StopPc)
    | Proxying(target: Model, at: ProxyPc)

  /** The command of the last launch. */
  datatype Command = NoCommand | Prepared | Alive

  /** `launches` counts the channels made so far, one for each launch; `closed` are those that
      have been closed; `closing` counts the calls of waitForCmd, one for each command that has
      exited, that have set the state and have yet to close a channel. */
  datatype Process = Process(
    state: ProcessState, inflight: nat, limit: nat, command: Command, launches: nat, closed: set<nat>, closing: nat)

  /** A stop outside the request mutex. The stops of StopProcesses (`sweep`) hold the group's
      lock until all of them have returned; those of the TTL check and of StopProcess do not. */
  datatype Stopper = Stopper(model: Model, pc: StopPc, sweep: bool)

  datatype State = State(
    procs: map<Model, Process>, last: Model, holder: Holder, stoppers: seq<Stopper>)

  datatype Step =
    | Acquire(m: Model)            // a request for a member takes swapRequestMu
    | Enter                        // it replaces lastUsedProcess
    | HolderStop                   // one step of previousProcess.Stop()
    | Proxy                        // one step of Process.ProxyRequest
    | LaunchFails                  // start() gives up
    | Release
    | SpawnStop(m: Model, graceful: bool)            // the TTL check
    | Sweep(members: seq<Model>, graceful: bool)     // StopProcesses takes the group's lock
    | StopperStep(i: nat)
    | CommandExits(m: Model)       // waitForCmd sets the state to Stopped
    | CloseChannel(m: Model)       // waitForCmd closes the channel that the process has now
    | ForceShutdown(m: Model)      // the end of Process.Shutdown
    | UnloadClear(m: Model, graceful: bool)  // StopProcess forgets lastUsedProcess and goes on to stop

  // ------------------------------------------------------------ transitions

  function WithProcess(s: State, m: Model, p: Process): State {
    s.(procs := s.procs[m := p])
  }

  function WithState(s: State, m: Model, st: ProcessState): State
    requires m in s.procs
  {
    WithProcess(s, m, s.procs[m].(state := st))
  }

  /** Nobody will close the channel of this launch: another channel has been made since, or the
      command could not be executed. */
  predicate Lost(s: State, m: Model, launch: nat) {
    && m in s.procs
    && var p := s.procs[m];
       && launch !in p.closed
       && (launch < p.launches || (launch == p.launches && p.command == NoCommand && p.closing == 0))
  }

  /** The next close would be the second of that channel, which panics. */
  predicate PanicsNext(s: State, m: Model) {
    m in s.procs && s.procs[m].closing > 0 && s.procs[m].launches in s.procs[m].closed
  }

  /** One step of Stop on `m`: the new program counter and the process state after it. */
  function StopStep(p: Process, pc: StopPc): (StopPc, ProcessState) {
    match pc
    case ReadState => (if Running(p.state) then AwaitInflight else Returned, p.state)
    case AwaitInflight => (if p.inflight == 0 then LoopRead else AwaitInflight, p.state)
    case LoopRead => (if Running(p.state) then LoopSwap(p.state) else Returned, p.state)
    case LoopSwap(seen) =>
      var (st, result) := SwapState(p.state, seen, Stopping);
      (match result case Swapped => StopCommand case StateMismatch => LoopRead case InvalidTransition => Returned, st)
    case StopCommand => (if p.launches == 0 then Returned else AwaitExit(p.launches), p.state)
    case AwaitExit(launch) => (if launch in p.closed then Returned else pc, p.state)
    case Returned => (Returned, p.state)
  }

  /** StopProcesses holds the group's lock. */
  predicate Swept(s: State) {
    exists k :: k in s.stoppers && k.sweep && k.pc != Returned
  }

  function StartOf(graceful: bool): StopPc {
    if graceful then ReadState else LoopRead
  }

  function EnterGroup(s: State, m: Model): State {
    if s.last == m || s.last == "" || s.last !in s.procs then s.(last := m, holder := Proxying(m, Admit))
    else s.(last := m, holder := StoppingPrevious(m, s.last, ReadState))
  }

  function ProxyStep(s: State, m: Model, at: ProxyPc): State
    requires m in s.procs
  {
    var p := s.procs[m];
    match at
    case Admit =>
      s.(holder := Proxying(m, if p.state in {Shutdown, Stopping} then Left else TakeSlot))
    case TakeSlot =>
      if p.inflight >= p.limit then s.(holder := Proxying(m, Left))
      else WithProcess(s, m, p.(inflight := p.inflight + 1)).(holder := Proxying(m, Counted))
    case Counted =>
      s.(holder := Proxying(m, if p.state == Ready then Serving else Launch))
    case Launch =>
      var (st, result) := SwapState(p.state, Stopped, Starting);
      WithState(s, m, st).(holder := Proxying(m, if result == Swapped then Launching else Finished))
    case Launching =>
      WithProcess(s, m, p.(command := Prepared, launches := p.launches + 1)).(holder := Proxying(m, Executing))
    case Executing =>
      WithProcess(s, m, p.(command := Alive)).(holder := Proxying(m, Checking))
    case Checking =>
      var (st, result) := SwapState(p.state, Starting, Ready);
      WithState(s, m, st).(holder := Proxying(m, if result == Swapped then Serving else Finished))
    case Serving => s.(holder := Proxying(m, Finished))
    case Finished =>
      WithProcess(s, m, p.(inflight := if p.inflight > 0 then p.inflight - 1 else 0)).(holder := Proxying(m, Left))
    case Left => s
  }

  /** start() returns an error: before it has begun, because the command cannot be executed
      (the state is then set to Stopped, by force if need be), or because the checks fail. */
  function FailLaunch(s: State, m: Model, at: ProxyPc): State
    requires m in s.procs
  {
    var p, t := s.procs[m], s.(holder := Proxying(m, Finished));
    if at != Executing then t
    else WithProcess(t, m, p.(state := Stopped, command := NoCommand))
  }

  predicate Enabled(s: State, st: Step) {
    match st
    case Acquire(m) => s.holder == Free && m in s.procs
    case Enter => s.holder.Entered? && !Swept(s)
    case HolderStop => s.holder.StoppingPrevious? && s.holder.prev in s.procs
    case Proxy => s.holder.Proxying? && s.holder.at != Left && s.holder.target in s.procs
    case LaunchFails => s.holder.Proxying? && s.holder.at in {Launch, Executing, Checking} && s.holder.target in s.procs
    case Release => s.holder.Proxying? && s.holder.at == Left
    case SpawnStop(m, _) => m in s.procs
    case Sweep(members, _) => !Swept(s) && (forall m <- members :: m in s.procs) && (forall m <- s.procs :: m in members)
    case StopperStep(i) => i < |s.stoppers| && s.stoppers[i].model in s.procs
    case CommandExits(m) => m in s.procs && s.procs[m].command == Alive
    case CloseChannel(m) => m in s.procs && s.procs[m].closing > 0 && !PanicsNext(s, m)
    case ForceShutdown(m) => m in s.procs
    case UnloadClear(m, _) => m in s.procs && !Swept(s)
  }

  function Apply(s: State, st: Step): State
    requires Enabled(s, st)
  {
    match st
    case Acquire(m) => s.(holder := Entered(m))
    case Enter => EnterGroup(s, s.holder.target)
    case HolderStop =>
      var (pc, ps) := StopStep(s.procs[s.holder.prev], s.holder.stop);
      if s.holder.stop == Returned then s.(holder := Proxying(s.holder.target, Admit))
      else WithState(s, s.holder.prev, ps).(holder := s.holder.(stop := pc))
    case Proxy => ProxyStep(s, s.holder.target, s.holder.at)
    case LaunchFails => FailLaunch(s, s.holder.target, s.holder.at)
    case Release => s.(holder := Free)
    case SpawnStop(m, graceful) =>
      s.(stoppers := s.stoppers + [Stopper(m, StartOf(graceful), false)])
    case Sweep(members, graceful) =>
      s.(stoppers := s.stoppers + seq(|members|, i requires 0 <= i < |members| => Stopper(members[i], StartOf(graceful), true)))
    case StopperStep(i) =>
      var k := s.stoppers[i];
      var (pc, ps) := StopStep(s.procs[k.model], k.pc);
      WithState(s, k.model, ps).(stoppers := s.stoppers[i := k.(pc := pc)])
    case CommandExits(m) =>
      var p := s.procs[m];
      WithProcess(s, m, p.(state := Stopped, command := NoCommand, closing := p.closing + 1))
    case CloseChannel(m) =>
      var p := s.procs[m];
      WithProcess(s, m, p.(closed := p.closed + {p.launches}, closing := p.closing - 1))
    case ForceShutdown(m) => WithState(s, m, Shutdown)
    case UnloadClear(m, graceful) =>
      s.(last := if s.last == m then "" else s.last,
         stoppers := s.stoppers + [Stopper(m, StartOf(graceful), false)])
  }

  predicate Init(s: State) {
    && s.last == "" && "" !in s.procs && s.holder == Free && s.stoppers == []
    && forall m <- s.procs :: s.procs[m].limit >= 1 && s.procs[m] == Process(Stopped, 0, s.procs[m].limit, NoCommand, 0, {}, 0)
  }

  predicate Runs(s: State, steps: seq<Step>)
    decreases |steps|
  {
    steps == [] || (Enabled(s, steps[0]) && Runs(Apply(s, steps[0]), steps[1..]))
  }

  function End(s: State, steps: seq<Step>): State
    requires Runs(s, steps)
    decreases |steps|
  {
    if steps == [] then s else End(Apply(s, steps[0]), steps[1..])
  }

  lemma {:induction false} RunsSplit(s: State, a: seq<Step>, b: seq<Step>)
    requires Runs(s, a + b)
    ensures Runs(s, a) && Runs(End(s, a), b) && End(s, a + b) == End(End(s, a), b)
    decreases |a|
  {
    if a == [] {
      assert a + b == b;
    } else {
      assert (a + b)[0] == a[0] && (a + b)[1..] == a[1..] + b;
      RunsSplit(Apply(s, a[0]), a[1..], b);
    }
  }

  lemma {:induction false} RunsConcat(s: State, a: seq<Step>, b: seq<Step>)
    requires Runs(s, a) && Runs(End(s, a), b)
    ensures Runs(s, a + b) && End(s, a + b) == End(End(s, a), b)
    decreases |a|
  {
    if a == [] {
      assert a + b == b;
    } else {
      RunsConcat(Apply(s, a[0]), a[1..], b);
      assert (a + b)[0] == a[0] && (a + b)[1..] == a[1..] + b;
    }
  }

  lemma RunsCons(s: State, st: Step, rest: seq<Step>)
    requires Enabled(s, st) && Runs(Apply(s, st), rest)
    ensures Runs(s, [st] + rest) && End(s, [st] + rest) == End(Apply(s, st), rest)
  {
    assert ([st] + rest)[1..] == rest;
  }

  /** A run without a new stop. */
  ghost predicate Quiet(steps: seq<Step>) {
    forall st <- steps :: !IsStop(st)
  }

  predicate IsStop(st: Step) {
    st.SpawnStop? || st.Sweep? || st.UnloadClear?
  }

  /** The stop has passed its wait for requests in flight. */
  predicate Committed(pc: StopPc) {
    pc.LoopRead? || pc.LoopSwap?
  }

  /** The stop has not tried to take the process down yet. */
  predicate Undecided(pc: StopPc) {
    pc in {ReadState, AwaitInflight} || Committed(pc)
  }

  // ------------------------------------------------------------ what holds in every run

  predicate Up(s: State, m: Model) {
    m in s.procs && Running(s.procs[m].state)
  }

  predicate InFlight(s: State, m: Model) {
    s.holder.Proxying? && s.holder.target == m && s.holder.at !in {Admit, TakeSlot, Left}
  }

  /** A request that has not come to start() yet. */
  predicate BeforeLaunch(at: ProxyPc) {
    at in {Admit, TakeSlot, Counted, Launch}
  }

  /** The holder has entered its model in lastUsedProcess and may still start it. */
  predicate Bound(s: State) {
    s.holder.StoppingPrevious? || (s.holder.Proxying? && BeforeLaunch(s.holder.at))
  }

  /** Requests in flight are counted; a process has a command exactly as its state and the
      request that launches it say. */
  ghost predicate ProcOk(s: State, m: Model)
    requires m in s.procs
  {
    var p, launching := s.procs[m], s.holder == Proxying(m, Launching);
    && p.inflight == (if InFlight(s, m) then 1 else 0) && p.limit >= 1
    && (p.command == Prepared <==> s.holder == Proxying(m, Executing))
    && (launching ==> p.command == NoCommand)
    && (launching ==> p.state != Stopped)
    && (launching || p.command == Prepared || s.holder == Proxying(m, Checking) ==> p.state != Ready)
    && (p.state == Stopped ==> p.command == NoCommand)
    && (p.state in {Starting, Ready, Stopping} ==> p.command != NoCommand || launching)
    && (p.command != NoCommand || p.closing > 0 ==> p.launches > 0)
    && (forall l <- p.closed :: 0 < l <= p.launches)
  }

  /** The stop inside a swap never meets a launch, so it waits for a command that exits. */
  ghost predicate HolderOk(s: State) {
    && (s.holder != Free ==> s.holder.target in s.procs)
    && (s.holder.StoppingPrevious? ==>
          && s.holder.prev in s.procs && s.holder.prev != s.holder.target
          && var launches := s.procs[s.holder.prev].launches;
             match s.holder.stop
             case StopCommand => launches > 0 && !Lost(s, s.holder.prev, launches)
             case AwaitExit(launch) => launch == launches && !Lost(s, s.holder.prev, launch)
             case _ => true)
  }

  /** A stop waits for a launch there was; those of StopProcesses keep later requests away. */
  ghost predicate StopOk(s: State, k: Stopper) {
    && k.model in s.procs
    && var p := s.procs[k.model];
       match k.pc
       case AwaitExit(launch) => launch <= p.launches
       case StopCommand => k.sweep && Lost(s, k.model, p.launches) ==> !(Bound(s) && s.holder.target == k.model)
       case _ => true
  }

  ghost predicate Counts(s: State) {
    && "" !in s.procs && HolderOk(s)
    && (forall m <- s.procs :: ProcOk(s, m))
    && (forall k <- s.stoppers :: StopOk(s, k))
  }

  // ---- the account of one process

  lemma ProxyKeepsProc(s: State, m: Model)
    requires Enabled(s, Proxy) && m in s.procs && ProcOk(s, m)
    ensures ProcOk(Apply(s, Proxy), m)
  {
  }

  lemma LaunchFailsKeepsProc(s: State, m: Model)
    requires Enabled(s, LaunchFails) && m in s.procs && ProcOk(s, m)
    ensures ProcOk(Apply(s, LaunchFails), m)
  {
  }

  lemma StopKeepsProc(s: State, st: Step, m: Model)
    requires Enabled(s, st) && (st.HolderStop? || st.StopperStep?) && m in s.procs && ProcOk(s, m)
    ensures ProcOk(Apply(s, st), m)
  {
  }

  lemma OtherKeepsProc(s: State, st: Step, m: Model)
    requires Enabled(s, st) && !st.Proxy? && !st.LaunchFails? && !st.HolderStop? && !st.StopperStep?
    requires m in s.procs && ProcOk(s, m)
    ensures m in Apply(s, st).procs && ProcOk(Apply(s, st), m)
  {
  }

  lemma StepKeepsProc(s: State, st: Step, m: Model)
    requires Enabled(s, st) && m in s.procs && ProcOk(s, m)
    ensures m in Apply(s, st).procs && ProcOk(Apply(s, st), m)
  {
    match st
    case Proxy => ProxyKeepsProc(s, m);
    case LaunchFails => LaunchFailsKeepsProc(s, m);
    case HolderStop => StopKeepsProc(s, st, m);
    case StopperStep(_) => StopKeepsProc(s, st, m);
    case _ => OtherKeepsProc(s, st, m);
  }

  // ---- the account of one stop

  lemma RequestKeepsStop(s: State, st: Step, k: Stopper)
    requires Enabled(s, st) && (st.Proxy? || st.LaunchFails? || st.HolderStop?)
    requires StopOk(s, k) && ProcOk(s, k.model)
    ensures StopOk(Apply(s, st), k)
  {
  }

  lemma OtherKeepsStop(s: State, st: Step, k: Stopper)
    requires Enabled(s, st) && !st.Proxy? && !st.LaunchFails? && !st.HolderStop? && k in s.stoppers
    requires StopOk(s, k) && ProcOk(s, k.model)
    ensures StopOk(Apply(s, st), k)
  {
  }

  lemma OwnStepKeepsStop(s: State, i: nat)
    requires Enabled(s, StopperStep(i)) && StopOk(s, s.stoppers[i]) && ProcOk(s, s.stoppers[i].model)
    ensures StopOk(Apply(s, StopperStep(i)), Apply(s, StopperStep(i)).stoppers[i])
  {
  }

  lemma NewStop(s: State, st: Step, k: Stopper)
    requires Enabled(s, st) && IsStop(st) && k in Apply(s, st).stoppers && k !in s.stoppers
    ensures k.model in s.procs && k.pc in {ReadState, LoopRead} && (k.sweep <==> st.Sweep?)
  {
    var i :| 0 <= i < |Apply(s, st).stoppers| && k == Apply(s, st).stoppers[i];
    if st.Sweep? {
      assert k == Stopper(st.members[i - |s.stoppers|], StartOf(st.graceful), true);
    }
  }

  lemma StepKeepsStops(s: State, st: Step, k: Stopper)
    requires Counts(s) && Enabled(s, st) && k in Apply(s, st).stoppers
    ensures StopOk(Apply(s, st), k)
  {
    if k in s.stoppers {
      assert StopOk(s, k) && ProcOk(s, k.model);
      if st.Proxy? || st.LaunchFails? || st.HolderStop? {
        RequestKeepsStop(s, st, k);
      } else {
        OtherKeepsStop(s, st, k);
      }
    } else if st.StopperStep? {
      assert StopOk(s, s.stoppers[st.i]) && ProcOk(s, s.stoppers[st.i].model);
      assert k == Apply(s, st).stoppers[st.i];
      OwnStepKeepsStop(s, st.i);
    } else {
      NewStop(s, st, k);
    }
  }

  // ---- the holder's

  lemma HolderKept(s: State, st: Step)
    requires Enabled(s, st) && HolderOk(s) && "" !in s.procs
    requires s.holder.StoppingPrevious? ==> ProcOk(s, s.holder.prev)
    requires st.StopperStep? ==> s.stoppers[st.i].model in s.procs
    ensures HolderOk(Apply(s, st))
  {
  }

  lemma CountsStep(s: State, st: Step)
    requires Counts(s) && Enabled(s, st)
    ensures Counts(Apply(s, st))
  {
    var t := Apply(s, st);
    forall m | m in t.procs ensures ProcOk(t, m) {
      assert m in s.procs && ProcOk(s, m);
      StepKeepsProc(s, st, m);
    }
    forall k | k in t.stoppers ensures StopOk(t, k) {
      StepKeepsStops(s, st, k);
    }
    assert s.holder.StoppingPrevious? ==> ProcOk(s, s.holder.prev);
    HolderKept(s, st);
  }

  lemma {:induction false} CountsRun(s: State, steps: seq<Step>)
    requires Counts(s) && Runs(s, steps)
    ensures Counts(End(s, steps))
    decreases |steps|
  {
    if steps == [] {
    } else {
      CountsStep(s, steps[0]);
      CountsRun(Apply(s, steps[0]), steps[1..]);
    }
  }

  lemma InitCounts(s: State)
    requires Init(s)
    ensures Counts(s)
  {
  }

  // ------------------------------------------------------------ processes that are gone for good

  /** Shut down, and no command is or comes alive whose exit would set the state back. */
  predicate Dead(s: State, m: Model) {
    m in s.procs && s.procs[m].state == Shutdown && s.procs[m].command == NoCommand && s.holder != Proxying(m, Launching)
  }

  lemma DeadStays(s: State, st: Step, m: Model)
    requires Counts(s) && Enabled(s, st) && Dead(s, m)
    ensures Dead(Apply(s, st), m)
  {
    assert ProcOk(s, m);
    assert st.StopperStep? ==> StopOk(s, s.stoppers[st.i]);
  }

  // ------------------------------------------------------------ the invariant

  /** The only member that may be starting or ready. */
  function Owner(s: State): Model {
    match s.holder
    case StoppingPrevious(_, prev, _) => prev
    case Entered(target) => if s.last == "" then target else s.last
    case _ => s.last
  }

  /** Only the owner is up, and it is the last used model or under the holder's control. */
  ghost predicate Exclusive(s: State) {
    && (s.last == "" || s.last in s.procs)
    && (forall m <- s.procs :: Up(s, m) ==> m == Owner(s))
    && (Bound(s) ==> s.last == s.holder.target || Dead(s, s.holder.target))
    && (s.holder.Proxying? || s.holder.StoppingPrevious? ==> s.last in {"", s.holder.target})
    && (s.holder.StoppingPrevious? && (s.holder.stop in {StopCommand, Returned} || s.holder.stop.AwaitExit?) ==> !Up(s, s.holder.prev))
  }

  ghost predicate Inv(s: State) {
    Counts(s) && Exclusive(s)
  }

  /** When StopProcess may forget `m` without harm: it is not the last used model, or it neither
      runs nor can still be started by the request under way. */
  predicate SafeUnload(s: State, m: Model) {
    s.last == m ==>
      && (Up(s, m) ==> s.holder == Entered(m))
      && (Bound(s) ==> Dead(s, m))
  }

  lemma HolderStepKeeps(s: State, st: Step)
    requires HolderOk(s) && "" !in s.procs && Exclusive(s) && Enabled(s, st) && (st.Enter? || st.HolderStop?)
    ensures Exclusive(Apply(s, st))
  {
  }

  lemma LaunchStepKeeps(s: State)
    requires HolderOk(s) && Exclusive(s) && Enabled(s, Proxy) && BeforeLaunch(s.holder.at)
    requires Dead(s, s.holder.target) ==> Dead(Apply(s, Proxy), s.holder.target)
    ensures Exclusive(Apply(s, Proxy))
  {
  }

  lemma ServiceStepKeeps(s: State)
    requires HolderOk(s) && Exclusive(s) && Enabled(s, Proxy) && !BeforeLaunch(s.holder.at)
    ensures Exclusive(Apply(s, Proxy))
  {
  }

  lemma ProxyStepKeeps(s: State)
    requires HolderOk(s) && Exclusive(s) && Enabled(s, Proxy)
    requires Dead(s, s.holder.target) ==> Dead(Apply(s, Proxy), s.holder.target)
    ensures Exclusive(Apply(s, Proxy))
  {
    if BeforeLaunch(s.holder.at) {
      LaunchStepKeeps(s);
    } else {
      ServiceStepKeeps(s);
    }
  }

  lemma LaunchFailsKeeps(s: State)
    requires HolderOk(s) && Exclusive(s) && Enabled(s, LaunchFails)
    ensures Exclusive(Apply(s, LaunchFails))
  {
  }

  lemma OtherStepKeeps(s: State, st: Step)
    requires HolderOk(s) && "" !in s.procs && Exclusive(s) && Enabled(s, st)
    requires !st.Enter? && !st.HolderStop? && !st.Proxy? && !st.LaunchFails? && !st.UnloadClear?
    requires Bound(s) && Dead(s, s.holder.target) ==> Dead(Apply(s, st), s.holder.target)
    ensures Exclusive(Apply(s, st))
  {
  }

  lemma InvStep(s: State, st: Step)
    requires Inv(s) && Enabled(s, st)
    requires st.UnloadClear? ==> SafeUnload(s, st.m)
    ensures Inv(Apply(s, st))
  {
    CountsStep(s, st);
    if s.holder != Free && Dead(s, s.holder.target) {
      DeadStays(s, st, s.holder.target);
    }
    match st
    case Enter => HolderStepKeeps(s, st);
    case HolderStop => HolderStepKeeps(s, st);
    case Proxy => ProxyStepKeeps(s);
    case LaunchFails => LaunchFailsKeeps(s);
    case UnloadClear(_, _) =>
    case _ => OtherStepKeeps(s, st);
  }

  /** A run in which StopProcess is only called when that is safe. */
  ghost predicate Careful(s: State, steps: seq<Step>)
    requires Runs(s, steps)
    decreases |steps|
  {
    steps != [] ==>
      && (steps[0].UnloadClear? ==> SafeUnload(s, steps[0].m))
      && Careful(Apply(s, steps[0]), steps[1..])
  }

  lemma {:induction false} InvRun(s: State, steps: seq<Step>)
    requires Inv(s) && Runs(s, steps) && Careful(s, steps)
    ensures Inv(End(s, steps))
    decreases |steps|
  {
    if steps == [] {
    } else {
      InvStep(s, steps[0]);
      InvRun(Apply(s, steps[0]), steps[1..]);
    }
  }

  // ------------------------------------------------------------ exclusivity

  ghost predicate AtMostOneUp(s: State) {
    forall a, b :: Up(s, a) && Up(s, b) ==> a == b
  }

  /** In a swap group at most one member is starting or ready, and it is the last used
      one unless the request holding the mutex is still stopping it. The command of any other
      member can only be one that is being stopped or has been shut down. */
  lemma OneModelAtATime(s0: State, steps: seq<Step>)
    requires Init(s0) && Runs(s0, steps) && Careful(s0, steps)
    ensures var s := End(s0, steps);
            && AtMostOneUp(s)
            && forall m :: Up(s, m) ==>
                 || s.last == m
                 || (s.holder.StoppingPrevious? && s.holder.prev == m)
                 || (s.last == "" && s.holder == Entered(m))
    ensures var s := End(s0, steps);
            forall m <- s.procs :: s.procs[m].command != NoCommand && !Up(s, m) ==> s.procs[m].state in {Stopping, Shutdown}
  {
    InitCounts(s0);
    InvRun(s0, steps);
    assert forall m <- End(s0, steps).procs :: ProcOk(End(s0, steps), m);
  }

  /** A swap never takes down a process that has a request in flight, whatever runs beside it. */
  lemma SwapStopsIdleProcess(s0: State, steps: seq<Step>)
    requires Init(s0) && Runs(s0, steps)
    requires var s := End(s0, steps); Enabled(s, HolderStop)
    ensures var s := End(s0, steps);
            var t := Apply(s, HolderStop);
            forall m <- s.procs :: t.procs[m].state != s.procs[m].state ==>
              m == s.holder.prev && t.procs[m].state == Stopping && s.procs[m].inflight == 0
  {
    InitCounts(s0);
    CountsRun(s0, steps);
    assert ProcOk(End(s0, steps), End(s0, steps).holder.prev);
  }

  // ------------------------------------------------------------ bringing the request under way on

  function ToGo(at: ProxyPc): nat {
    match at
    case Admit => 10 case TakeSlot => 9 case Counted => 8 case Launch => 7 case Launching => 5 case Executing => 4
    case Checking => 3 case Serving => 2 case Finished => 1 case Left => 0
  }

  function StopToGo(p: Process, pc: StopPc): nat {
    match pc
    case ReadState => 9
    case AwaitInflight => 8
    case LoopSwap(seen) => if seen == p.state && Running(seen) then 5 else 7
    case LoopRead => 6
    case StopCommand => 4
    case AwaitExit(launch) => if launch in p.closed then 1 else if launch == p.launches && p.command != NoCommand then 3 else 2
    case Returned => 0
  }

  /** How far the request under way is from its end, or from the group's lock. */
  function Remaining(s: State): nat
    requires s.holder.StoppingPrevious? ==> s.holder.prev in s.procs
  {
    match s.holder
    case Free => 0
    case Entered(_) => 0
    case StoppingPrevious(_, prev, stop) => 12 + StopToGo(s.procs[prev], stop)
    case Proxying(target, at) => 1 + ToGo(at) + (if at == Launching && ToClose(s, target) then 1 else 0)
  }

  /** The channel of `m` is about to be closed. */
  predicate ToClose(s: State, m: Model) {
    m in s.procs && s.procs[m].closing > 0 && s.procs[m].launches !in s.procs[m].closed
  }

  /** The step that brings the wait for a channel of `m` on: the command exits, or the channel
      is closed. */
  function Exit(s: State, m: Model): Step
    requires m in s.procs
  {
    if s.procs[m].command == Alive then CommandExits(m) else CloseChannel(m)
  }

  /** The step that brings the request under way on. If it waits for a command, that exits; and
      a channel about to be closed is closed before another is made. */
  function Onward(s: State): Step {
    match s.holder
    case StoppingPrevious(_, prev, AwaitExit(launch)) =>
      if prev in s.procs && launch !in s.procs[prev].closed then Exit(s, prev) else HolderStop
    case StoppingPrevious(_, _, _) => HolderStop
    case Proxying(target, at) =>
      if at == Left then Release else if at == Launching && ToClose(s, target) then CloseChannel(target) else Proxy
    case _ => Enter
  }

  lemma SwapLess(s: State)
    requires HolderOk(s) && s.holder.StoppingPrevious? && ProcOk(s, s.holder.prev)
    ensures Enabled(s, Onward(s))
    ensures HolderOk(Apply(s, Onward(s))) ==> Remaining(Apply(s, Onward(s))) < Remaining(s)
    ensures !Apply(s, Onward(s)).holder.Entered?
  {
  }

  lemma OnwardLess(s: State)
    requires HolderOk(s) && s.holder.Proxying? && ProcOk(s, s.holder.target)
    ensures Enabled(s, Onward(s))
    ensures HolderOk(Apply(s, Onward(s))) ==> Remaining(Apply(s, Onward(s))) < Remaining(s)
    ensures !Apply(s, Onward(s)).holder.Entered?
  {
  }

  /** The request under way is never stuck. */
  lemma OnwardGoes(s: State)
    requires Counts(s) && !s.holder.Free? && !s.holder.Entered?
    ensures Enabled(s, Onward(s)) && Counts(Apply(s, Onward(s)))
    ensures Remaining(Apply(s, Onward(s))) < Remaining(s) && !Apply(s, Onward(s)).holder.Entered?
  {
    if s.holder.StoppingPrevious? {
      SwapLess(s);
    } else {
      OnwardLess(s);
    }
    CountsStep(s, Onward(s));
  }

  lemma ProxyKillsNone(s: State, m: Model)
    requires m in s.procs && !Dead(s, m) && Enabled(s, Proxy)
    ensures !Dead(Apply(s, Proxy), m)
  {
  }

  /** Nor does it leave a process dead. */
  lemma OnwardKeepsAlive(s: State, m: Model)
    requires m in s.procs && !Dead(s, m) && Enabled(s, Onward(s))
    ensures !Dead(Apply(s, Onward(s)), m)
  {
    if Onward(s) == Proxy {
      ProxyKillsNone(s, m);
    }
  }

  /** The request for `m` on its way from a stopped process to a ready one. */
  predicate ComesUp(s: State, m: Model) {
    && m in s.procs && s.holder.Proxying? && s.holder.target == m
    && (if BeforeLaunch(s.holder.at) then s.procs[m].state == Stopped
        else if s.holder.at in {Launching, Executing, Checking} then s.procs[m].state == Starting
        else s.procs[m].state == Ready)
  }

  lemma ComesUpStep(s: State, m: Model)
    requires ComesUp(s, m) && ProcOk(s, m) && s.holder.at != Left
    ensures Enabled(s, Proxy) && ComesUp(Apply(s, Proxy), m)
    ensures ToGo(Apply(s, Proxy).holder.at) < ToGo(s.holder.at)
    ensures ToGo(s.holder.at) > ToGo(Executing) ==> ToGo(Apply(s, Proxy).holder.at) >= ToGo(Executing)
    ensures ToGo(s.holder.at) > ToGo(Serving) ==> ToGo(Apply(s, Proxy).holder.at) >= ToGo(Serving)
    ensures Apply(s, Proxy).stoppers == s.stoppers
  {
  }
}
