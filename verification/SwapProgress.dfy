/** Left alone, a group comes to rest: the mutex, the group's lock and the waits for requests
    and for commands do not deadlock, except for stops that wait for a lost channel. */
module SwapProgress {
  import opened ProcessStates
  import opened SwapGroup
  import opened SwapJam

  // ------------------------------------------------------------ the steps of the group itself

  predicate HolderWaits(s: State, m: Model)
    requires m in s.procs
  {
    s.holder.StoppingPrevious? && s.holder.prev == m && Waits(s.procs[m], s.holder.stop)
  }

  /** A stop has canceled the command of `m` and waits for it to exit. */
  predicate Awaited(s: State, m: Model)
    requires m in s.procs
  {
    || HolderWaits(s, m)
    || (exists k :: k in s.stoppers && k.model == m && Waits(s.procs[m], k.pc))
  }

  predicate Waits(p: Process, pc: StopPc) {
    pc.AwaitExit? && pc.launch == p.launches && p.command != NoCommand
  }

  /** The request under way, the stops under way, the exits of canceled commands and the closes
      of waitForCmd. */
  predicate Internal(s: State, st: Step) {
    match st
    case CommandExits(m) => m in s.procs && Awaited(s, m)
    case Enter => true
    case HolderStop => true
    case Proxy => true
    case LaunchFails => true
    case Release => true
    case StopperStep(_) => true
    case CloseChannel(_) => true
    case _ => false
  }

  /** Such a step that is not just waiting. */
  predicate Moves(s: State, st: Step) {
    Enabled(s, st) && Internal(s, st) && Apply(s, st) != s
  }

  predicate Moving(s: State, steps: seq<Step>)
    requires Runs(s, steps)
    decreases |steps|
  {
    steps == [] || (Moves(s, steps[0]) && Moving(Apply(s, steps[0]), steps[1..]))
  }

  // ------------------------------------------------------------ a measure

  /** How often a stop, or the exit it waits for, can still change the state of its process;
      `unit` outweighs the detours that such a change can cause to all stops. */
  function Weight(p: Process, pc: StopPc, unit: nat): nat {
    if Undecided(pc) then 2 * unit
    else if pc == StopCommand || Waits(p, pc) then unit
    else 0
  }

  function StopValue(p: Process, pc: StopPc, unit: nat): nat {
    Weight(p, pc, unit) + StopToGo(p, pc)
  }

  function ProxyValue(at: ProxyPc, unit: nat): nat {
    (if BeforeLaunch(at) then 2 * unit else if at in {Launching, Executing, Checking} then unit else 0) + 1 + ToGo(at)
  }

  function HolderValue(s: State, unit: nat): nat
    requires HolderOk(s)
  {
    match s.holder
    case Free => 0
    case Entered(_) => 4 * unit + 40
    case StoppingPrevious(_, prev, stop) => 2 * unit + 20 + StopValue(s.procs[prev], stop, unit)
    case Proxying(_, at) => ProxyValue(at, unit)
  }

  function StopsValue(procs: map<Model, Process>, stoppers: seq<Stopper>, unit: nat): nat
    requires forall k <- stoppers :: k.model in procs
  {
    if stoppers == [] then 0
    else StopValue(procs[stoppers[0].model], stoppers[0].pc, unit) + StopsValue(procs, stoppers[1..], unit)
  }

  /** How many channels are to be closed. */
  ghost function Closing(procs: map<Model, Process>): nat {
    if procs == map[] then 0
    else
      var m :| m in procs;
      procs[m].closing + Closing(procs - {m})
  }

  lemma {:induction false} ClosingOf(procs: map<Model, Process>, m: Model)
    requires m in procs
    ensures Closing(procs) == procs[m].closing + Closing(procs - {m})
    decreases |procs|
  {
    var x :| x in procs && Closing(procs) == procs[x].closing + Closing(procs - {x});
    if x != m {
      ClosingOf(procs - {x}, m);
      ClosingOf(procs - {m}, x);
      assert procs - {x} - {m} == procs - {m} - {x};
    }
  }

  lemma ClosingChanges(procs: map<Model, Process>, m: Model, p: Process)
    requires m in procs
    ensures Closing(procs[m := p]) == Closing(procs) - procs[m].closing + p.closing
  {
    ClosingOf(procs, m);
    ClosingOf(procs[m := p], m);
    assert procs[m := p] - {m} == procs - {m};
  }

  lemma ClosingStep(s: State, st: Step)
    requires HolderOk(s) && Enabled(s, st) && Internal(s, st)
    ensures Closing(Apply(s, st).procs) == Closing(s.procs) + ToCloseMore(st)
  {
    var t := Apply(s, st);
    var m :| (m in s.procs && t.procs == s.procs[m := t.procs[m]] && t.procs.Keys == s.procs.Keys) || t.procs == s.procs;
    if t.procs != s.procs {
      ClosingChanges(s.procs, m, t.procs[m]);
    }
  }

  function Unit(s: State): nat {
    2 * |s.stoppers| + 12
  }

  // ------------------------------------------------------------ every such step lowers it

  /** A launch that a stop can know of. */
  predicate Known(p: Process, pc: StopPc) {
    pc.AwaitExit? ==> pc.launch <= p.launches
  }

  function Detour(p: Process, q: Process): nat {
    if p.state != q.state then 2 else 0
  }

  /** What a step of another does to a stop: nothing, unless it changes the state of the process. */
  lemma OthersBarely(s: State, st: Step, m: Model, pc: StopPc, unit: nat)
    requires Enabled(s, st) && Internal(s, st) && m in s.procs && ProcOk(s, m) && Known(s.procs[m], pc)
    ensures StopValue(Apply(s, st).procs[m], pc, unit) <= StopValue(s.procs[m], pc, unit) + Detour(s.procs[m], Apply(s, st).procs[m])
  {
  }

  /** What it does to all stops, of which number `i` comes down by `gain`. */
  lemma {:induction false} StopsSum(before: map<Model, Process>, xs: seq<Stopper>, after: map<Model, Process>, ys: seq<Stopper>,
                                    unit: nat, detour: bool, i: int, gain: nat)
    requires |xs| == |ys| && (forall k <- xs :: k.model in before) && (forall k <- ys :: k.model in after)
    requires forall j :: 0 <= j < |xs| ==>
               StopValue(after[ys[j].model], ys[j].pc, unit) + (if j == i then gain else 0)
               <= StopValue(before[xs[j].model], xs[j].pc, unit) + (if detour then 2 else 0)
    ensures StopsValue(after, ys, unit) + (if 0 <= i < |xs| then gain else 0)
            <= StopsValue(before, xs, unit) + (if detour then 2 * |xs| else 0)
  {
    if xs == [] {
    } else {
      assert forall j :: 0 <= j < |xs| - 1 ==> xs[1..][j] == xs[j + 1] && ys[1..][j] == ys[j + 1];
      StopsSum(before, xs[1..], after, ys[1..], unit, detour, i - 1, gain);
    }
  }

  ghost predicate Changes(s: State, st: Step)
    requires Enabled(s, st)
  {
    exists m <- s.procs :: m in Apply(s, st).procs && s.procs[m].state != Apply(s, st).procs[m].state
  }

  lemma StopBarely(s: State, st: Step, k: Stopper, unit: nat)
    requires Enabled(s, st) && Internal(s, st) && StopOk(s, k) && ProcOk(s, k.model)
    ensures k.model in Apply(s, st).procs
    ensures StopValue(Apply(s, st).procs[k.model], k.pc, unit)
            <= StopValue(s.procs[k.model], k.pc, unit) + (if Changes(s, st) then 2 else 0)
  {
    OthersBarely(s, st, k.model, k.pc, unit);
  }

  lemma StopsBarely(s: State, st: Step, unit: nat)
    requires Counts(s) && Enabled(s, st) && Internal(s, st) && Apply(s, st).stoppers == s.stoppers
    ensures forall k <- s.stoppers :: k.model in s.procs && k.model in Apply(s, st).procs
    ensures StopsValue(Apply(s, st).procs, s.stoppers, unit)
            <= StopsValue(s.procs, s.stoppers, unit) + (if Changes(s, st) then 2 * |s.stoppers| else 0)
  {
    var t := Apply(s, st);
    forall k | k in s.stoppers
      ensures k.model in s.procs && k.model in t.procs
      ensures StopValue(t.procs[k.model], k.pc, unit) <= StopValue(s.procs[k.model], k.pc, unit) + (if Changes(s, st) then 2 else 0)
    {
      assert StopOk(s, k) && ProcOk(s, k.model);
      StopBarely(s, st, k, unit);
    }
    StopsSum(s.procs, s.stoppers, t.procs, s.stoppers, unit, Changes(s, st), -1, 0);
  }

  lemma HolderBarely(s: State, st: Step, unit: nat)
    requires Counts(s) && Enabled(s, st) && Internal(s, st) && (st.StopperStep? || st.CommandExits? || st.CloseChannel?)
    requires HolderOk(Apply(s, st))
    ensures HolderValue(Apply(s, st), unit) <= HolderValue(s, unit) + 2
    ensures HolderValue(Apply(s, st), unit) <= HolderValue(s, unit) || Changes(s, st)
  {
    if s.holder.StoppingPrevious? {
      assert ProcOk(s, s.holder.prev);
      OthersBarely(s, st, s.holder.prev, s.holder.stop, unit);
    }
  }

  // ---- the request

  lemma ProxyDown(s: State, unit: nat)
    requires HolderOk(s) && Moves(s, Proxy) && HolderOk(Apply(s, Proxy)) && ProcOk(s, s.holder.target)
    ensures HolderValue(Apply(s, Proxy), unit) + (if Changes(s, Proxy) then unit else 0) < HolderValue(s, unit)
  {
  }

  lemma RequestDown(s: State, st: Step, unit: nat)
    requires HolderOk(s) && Moves(s, st) && HolderOk(Apply(s, st)) && (st.Proxy? || st.LaunchFails? || st.Release?)
    requires ProcOk(s, s.holder.target)
    ensures HolderValue(Apply(s, st), unit) + (if Changes(s, st) then unit else 0) < HolderValue(s, unit)
  {
    if st.Proxy? {
      ProxyDown(s, unit);
    }
  }

  lemma HolderStopDown(s: State, unit: nat)
    requires HolderOk(s) && Moves(s, HolderStop) && HolderOk(Apply(s, HolderStop)) && ProcOk(s, s.holder.prev)
    ensures HolderValue(Apply(s, HolderStop), unit) + (if Changes(s, HolderStop) then unit else 0) < HolderValue(s, unit)
  {
  }

  lemma EnterDown(s: State, unit: nat)
    requires HolderOk(s) && Moves(s, Enter) && HolderOk(Apply(s, Enter))
    ensures HolderValue(Apply(s, Enter), unit) < HolderValue(s, unit) && !Changes(s, Enter)
  {
  }

  /** What the request and the stops still have before them. */
  ghost function Load(s: State, unit: nat): nat {
    if HolderOk(s) && forall k <- s.stoppers :: k.model in s.procs
    then HolderValue(s, unit) + StopsValue(s.procs, s.stoppers, unit)
    else 0
  }

  lemma RequestLess(s: State, st: Step, unit: nat)
    requires Counts(s) && Moves(s, st) && !st.StopperStep? && !st.CommandExits? && !st.CloseChannel? && HolderOk(Apply(s, st))
    requires unit > 2 * |s.stoppers|
    ensures Apply(s, st).stoppers == s.stoppers && Load(Apply(s, st), unit) < Load(s, unit)
  {
    StopsBarely(s, st, unit);
    if st.Enter? {
      EnterDown(s, unit);
    } else if st.HolderStop? {
      assert ProcOk(s, s.holder.prev);
      HolderStopDown(s, unit);
    } else {
      assert ProcOk(s, s.holder.target);
      RequestDown(s, st, unit);
    }
  }

  // ---- the stops

  lemma StopDown(s: State, i: nat, unit: nat)
    requires Moves(s, StopperStep(i)) && ProcOk(s, s.stoppers[i].model) && StopOk(s, s.stoppers[i])
    ensures var k, k' := s.stoppers[i], Apply(s, StopperStep(i)).stoppers[i]; var t := Apply(s, StopperStep(i));
            StopValue(t.procs[k.model], k'.pc, unit) + (if Changes(s, StopperStep(i)) then unit else 0)
            < StopValue(s.procs[k.model], k.pc, unit)
  {
  }

  lemma StopsAfterStop(s: State, i: nat, unit: nat)
    requires Counts(s) && Moves(s, StopperStep(i))
    ensures forall k <- s.stoppers :: k.model in s.procs
    ensures forall k <- Apply(s, StopperStep(i)).stoppers :: k.model in Apply(s, StopperStep(i)).procs
    ensures StopsValue(Apply(s, StopperStep(i)).procs, Apply(s, StopperStep(i)).stoppers, unit)
            + (if Changes(s, StopperStep(i)) then unit else 0) + 1
            <= StopsValue(s.procs, s.stoppers, unit) + (if Changes(s, StopperStep(i)) then 2 * |s.stoppers| else 0)
  {
    var st := StopperStep(i);
    var t := Apply(s, st);
    var gain := (if Changes(s, st) then unit else 0) + 1;
    assert StopOk(s, s.stoppers[i]) && ProcOk(s, s.stoppers[i].model);
    StopDown(s, i, unit);
    forall j | 0 <= j < |s.stoppers|
      ensures s.stoppers[j].model in s.procs && t.stoppers[j].model in t.procs
      ensures StopValue(t.procs[t.stoppers[j].model], t.stoppers[j].pc, unit) + (if j == i then gain else 0)
              <= StopValue(s.procs[s.stoppers[j].model], s.stoppers[j].pc, unit) + (if Changes(s, st) then 2 else 0)
    {
      var x := s.stoppers[j];
      assert StopOk(s, x) && ProcOk(s, x.model);
      StopBarely(s, st, x, unit);
    }
    StopsSum(s.procs, s.stoppers, t.procs, t.stoppers, unit, Changes(s, st), i, gain);
  }

  lemma StopperLess(s: State, i: nat, unit: nat)
    requires Counts(s) && Moves(s, StopperStep(i)) && HolderOk(Apply(s, StopperStep(i)))
    requires unit > 2 * |s.stoppers| + 2
    ensures |Apply(s, StopperStep(i)).stoppers| == |s.stoppers| && Load(Apply(s, StopperStep(i)), unit) < Load(s, unit)
  {
    StopsAfterStop(s, i, unit);
    HolderBarely(s, StopperStep(i), unit);
  }

  // ---- the exit of a canceled command

  lemma ExitDown(s: State, m: Model, pc: StopPc, unit: nat)
    requires Enabled(s, CommandExits(m)) && Waits(s.procs[m], pc) && ProcOk(s, m)
    ensures StopValue(Apply(s, CommandExits(m)).procs[m], pc, unit) + unit <= StopValue(s.procs[m], pc, unit)
  {
  }

  /** Stop `i` waits for it. */
  lemma ExitForStop(s: State, m: Model, i: nat, unit: nat)
    requires Counts(s) && Enabled(s, CommandExits(m)) && Internal(s, CommandExits(m)) && ProcOk(s, m)
    requires i < |s.stoppers| && s.stoppers[i].model == m && Waits(s.procs[m], s.stoppers[i].pc)
    ensures forall k <- s.stoppers :: k.model in s.procs && k.model in Apply(s, CommandExits(m)).procs
    ensures StopsValue(Apply(s, CommandExits(m)).procs, s.stoppers, unit) + unit
            <= StopsValue(s.procs, s.stoppers, unit) + 2 * |s.stoppers|
  {
    var st := CommandExits(m);
    var t := Apply(s, st);
    ExitDown(s, m, s.stoppers[i].pc, unit);
    forall j | 0 <= j < |s.stoppers|
      ensures s.stoppers[j].model in s.procs
      ensures StopValue(t.procs[s.stoppers[j].model], s.stoppers[j].pc, unit) + (if j == i then unit else 0)
              <= StopValue(s.procs[s.stoppers[j].model], s.stoppers[j].pc, unit) + 2
    {
      var x := s.stoppers[j];
      assert StopOk(s, x) && ProcOk(s, x.model);
      StopBarely(s, st, x, unit);
    }
    StopsSum(s.procs, s.stoppers, t.procs, s.stoppers, unit, true, i, unit);
  }

  /** The stop inside a swap waits for it. */
  lemma ExitForHolder(s: State, m: Model, unit: nat)
    requires HolderOk(s) && Enabled(s, CommandExits(m)) && ProcOk(s, m) && HolderOk(Apply(s, CommandExits(m)))
    requires HolderWaits(s, m)
    ensures HolderValue(Apply(s, CommandExits(m)), unit) + unit <= HolderValue(s, unit)
  {
    ExitDown(s, m, s.holder.stop, unit);
  }

  lemma WhoWaits(s: State, m: Model) returns (i: nat)
    requires m in s.procs && Awaited(s, m) && !HolderWaits(s, m)
    ensures i < |s.stoppers| && s.stoppers[i].model == m && Waits(s.procs[m], s.stoppers[i].pc)
  {
    var k :| k in s.stoppers && k.model == m && Waits(s.procs[m], k.pc);
    i :| 0 <= i < |s.stoppers| && s.stoppers[i] == k;
  }

  lemma ExitLess(s: State, m: Model, unit: nat)
    requires Counts(s) && Moves(s, CommandExits(m)) && HolderOk(Apply(s, CommandExits(m)))
    requires unit > 2 * |s.stoppers| + 3
    ensures Apply(s, CommandExits(m)).stoppers == s.stoppers && Load(Apply(s, CommandExits(m)), unit) + 1 < Load(s, unit)
  {
    assert ProcOk(s, m);
    if HolderWaits(s, m) {
      ExitForHolder(s, m, unit);
      StopsBarely(s, CommandExits(m), unit);
    } else {
      var i := WhoWaits(s, m);
      HolderBarely(s, CommandExits(m), unit);
      ExitForStop(s, m, i, unit);
    }
  }

  lemma CloseLess(s: State, m: Model, unit: nat)
    requires Counts(s) && Moves(s, CloseChannel(m)) && HolderOk(Apply(s, CloseChannel(m)))
    ensures Apply(s, CloseChannel(m)).stoppers == s.stoppers && Load(Apply(s, CloseChannel(m)), unit) <= Load(s, unit)
  {
    HolderBarely(s, CloseChannel(m), unit);
    StopsBarely(s, CloseChannel(m), unit);
  }

  ghost function Measure(s: State): nat {
    Load(s, Unit(s)) + Closing(s.procs)
  }

  /** What the step adds to the channels that are to be closed. */
  function ToCloseMore(st: Step): int {
    if st.CommandExits? then 1 else if st.CloseChannel? then -1 else 0
  }

  lemma LoadLess(s: State, st: Step, unit: nat)
    requires Counts(s) && Moves(s, st) && HolderOk(Apply(s, st)) && unit > 2 * |s.stoppers| + 3
    ensures |Apply(s, st).stoppers| == |s.stoppers| && Load(Apply(s, st), unit) + ToCloseMore(st) < Load(s, unit)
  {
    match st
    case StopperStep(i) => StopperLess(s, i, unit);
    case CommandExits(m) => ExitLess(s, m, unit);
    case CloseChannel(m) => CloseLess(s, m, unit);
    case _ => RequestLess(s, st, unit);
  }

  lemma MeasureLess(s: State, t: State, more: int)
    requires |t.stoppers| == |s.stoppers| && Load(t, Unit(s)) + more < Load(s, Unit(s))
    requires Closing(t.procs) == Closing(s.procs) + more
    ensures Measure(t) < Measure(s)
  {
  }

  lemma MoveLess(s: State, st: Step)
    requires Counts(s) && Moves(s, st)
    ensures Counts(Apply(s, st)) && Measure(Apply(s, st)) < Measure(s)
  {
    CountsStep(s, st);
    LoadLess(s, st, Unit(s));
    ClosingStep(s, st);
    MeasureLess(s, Apply(s, st), ToCloseMore(st));
  }

  // ------------------------------------------------------------ rest

  /** The stop waits for a channel that is lost. */
  predicate InVain(s: State, k: Stopper) {
    k.pc.AwaitExit? && Lost(s, k.model, k.pc.launch)
  }

  /** Nothing is left to do: no request is past the mutex, unless the group is jammed and it waits
      for its lock, every stop has returned or waits in vain, and every close to come panics. */
  ghost predicate AtRest(s: State) {
    && (s.holder.Free? || (s.holder.Entered? && Jammed(s)))
    && (forall k <- s.stoppers :: k.pc == Returned || InVain(s, k))
    && (forall m <- s.procs :: s.procs[m].closing > 0 ==> PanicsNext(s, m))
  }

  /** Whatever has not come to rest can move. */
  lemma RequestMoves(s: State) returns (st: Step)
    requires Counts(s) && !s.holder.Free? && !s.holder.Entered?
    ensures Moves(s, st)
  {
    OnwardGoes(s);
    st := Onward(s);
    if st.CommandExits? {
      assert ProcOk(s, s.holder.prev);
    } else if st.CloseChannel? {
      assert Apply(s, st).procs[st.m].closing != s.procs[st.m].closing;
    }
  }

  lemma StopMoves(s: State, i: nat) returns (st: Step)
    requires Counts(s) && (s.holder.Free? || s.holder.Entered?)
    requires i < |s.stoppers| && s.stoppers[i].pc != Returned && !InVain(s, s.stoppers[i])
    ensures Moves(s, st)
  {
    var k := s.stoppers[i];
    assert k in s.stoppers && StopOk(s, k) && ProcOk(s, k.model);
    st := StopOn(s, i);
    if st.StopperStep? {
      assert Apply(s, st).stoppers[i] != k;
    } else {
      assert Apply(s, st).procs[k.model].closing != s.procs[k.model].closing;
    }
  }

  lemma RestIsQuiet(s: State, st: Step)
    requires Counts(s) && AtRest(s)
    ensures !Moves(s, st)
  {
    match st
    case Enter =>
      if Jammed(s) {
        var k :| k in s.stoppers && Stuck(s, k);
      }
    case StopperStep(i) =>
      if Enabled(s, st) {
        var k := s.stoppers[i];
        assert k in s.stoppers;
        assert Apply(s, st).procs == s.procs && Apply(s, st).stoppers == s.stoppers;
      }
    case CommandExits(m) =>
      assert m in s.procs ==> ProcOk(s, m);
    case _ =>
  }

  /** The group can move exactly until it is at rest: no deadlock of the mutex, the lock and the
      waits, other than that of a lost channel. */
  lemma RestIff(s: State)
    requires Counts(s)
    ensures (forall st :: !Moves(s, st)) <==> AtRest(s)
  {
    if AtRest(s) {
      forall st ensures !Moves(s, st) {
        RestIsQuiet(s, st);
      }
    } else if !s.holder.Free? && !s.holder.Entered? {
      var st := RequestMoves(s);
    } else if k :| k in s.stoppers && k.pc != Returned && !InVain(s, k) {
      var i: nat :| i < |s.stoppers| && s.stoppers[i] == k;
      var st := StopMoves(s, i);
    } else if m :| m in s.procs && s.procs[m].closing > 0 && !PanicsNext(s, m) {
      assert Apply(s, CloseChannel(m)).procs[m].closing != s.procs[m].closing;
      assert Moves(s, CloseChannel(m));
    } else {
      assert forall k <- s.stoppers :: k.sweep && InVain(s, k) ==> Stuck(s, k);
      assert Moves(s, Enter);
    }
  }

  lemma QuietMove(s: State, steps: seq<Step>)
    requires Runs(s, steps) && Moving(s, steps) && steps != [] && Quiet(steps[1..])
    ensures Quiet(steps)
  {
    assert steps == [steps[0]] + steps[1..];
  }

  lemma {:induction false} MovingRun(s: State, steps: seq<Step>)
    requires Counts(s) && Runs(s, steps) && Moving(s, steps)
    ensures Counts(End(s, steps)) && Quiet(steps) && |steps| + Measure(End(s, steps)) <= Measure(s)
    decreases |steps|
  {
    if steps == [] {
    } else {
      MoveLess(s, steps[0]);
      MovingRun(Apply(s, steps[0]), steps[1..]);
      QuietMove(s, steps);
    }
  }

  /** Left alone the group comes to rest under every scheduler and every outcome of its launches,
      within a bound known at the start (or panics on the way); and if no stop of StopProcesses
      can meet a launch, then with the mutex and the group's lock free. */
  lemma GroupComesToRest(s: State, steps: seq<Step>)
    requires Counts(s) && Runs(s, steps) && Moving(s, steps)
    ensures |steps| <= Measure(s)
    ensures (forall st :: !Moves(End(s, steps), st)) <==> AtRest(End(s, steps))
    ensures AtRest(End(s, steps)) && (forall i: nat :: !Doomed(s, i)) ==> End(s, steps).holder.Free? && !Swept(End(s, steps))
  {
    MovingRun(s, steps);
    var t := End(s, steps);
    RestIff(t);
    if forall i: nat :: !Doomed(s, i) {
      NeverJams(s, steps);
      assert forall k <- t.stoppers :: k.sweep && InVain(t, k) ==> Stuck(t, k);
    }
  }
}
