/** The second close of a channel: exactly when waitForCmd can panic. */
module SwapPanic {
  import opened ProcessStates
  import opened SwapGroup
  import opened SwapJam

  /** Some run without a new stop comes to the point where the next close of `m` panics. */
  ghost predicate CanPanic(s: State, m: Model) {
    exists steps :: Runs(s, steps) && Quiet(steps) && PanicsNext(End(s, steps), m)
  }

  /** What is under way is enough: two closes to come for one channel, or one that will hit the
      channel of the launch after it. */
  predicate Fatal(s: State, m: Model)
    requires m in s.procs
  {
    var p, n := s.procs[m], s.procs[m].closing;
    var closed, running := p.launches in p.closed, p.command != NoCommand;
    || (n > 0 && closed) || (n > 0 && running) || n > 1 || (closed && running)
    || (s.holder == Proxying(m, Launching) && n > 0)
    || (LaunchAhead(s, m) && (n > 0 || running))
  }

  // ------------------------------------------------------------ no danger, no panic

  lemma FatalBeforeOther(s: State, st: Step, m: Model)
    requires m in s.procs && Enabled(s, st) && !IsStop(st) && ProcOk(s, m) && HolderOk(s)
    requires !st.Proxy? && !st.CommandExits? && !st.CloseChannel? && (Swept(s) || Dead(s, m))
    requires m in Apply(s, st).procs && Fatal(Apply(s, st), m) && (Dead(s, m) ==> Dead(Apply(s, st), m))
    ensures Fatal(s, m)
  {
  }

  lemma FatalBefore(s: State, st: Step, m: Model)
    requires Counts(s) && m in s.procs && Enabled(s, st) && !IsStop(st) && (Jammed(s) || Dead(s, m))
    requires m in Apply(s, st).procs && Fatal(Apply(s, st), m)
    ensures Fatal(s, m)
  {
    assert ProcOk(s, m);
    if Dead(s, m) {
      DeadStays(s, st, m);
    }
    if !st.Proxy? && !st.CommandExits? && !st.CloseChannel? {
      if k :| k in s.stoppers && Stuck(s, k) {
        assert Swept(s);
      }
      FatalBeforeOther(s, st, m);
    }
  }

  lemma {:induction false} NeverPanics(s: State, steps: seq<Step>, m: Model)
    requires Counts(s) && Runs(s, steps) && Quiet(steps) && m in s.procs
    requires !Fatal(s, m) && (Jammed(s) || Dead(s, m))
    ensures !PanicsNext(End(s, steps), m)
    decreases |steps|
  {
    if steps == [] {
    } else {
      var t := Apply(s, steps[0]);
      CountsStep(s, steps[0]);
      assert ProcOk(s, m);
      StepKeepsProc(s, steps[0], m);
      if Fatal(t, m) {
        FatalBefore(s, steps[0], m);
      }
      if Dead(s, m) {
        DeadStays(s, steps[0], m);
      } else {
        JamStays(s, steps[0]);
      }
      NeverPanics(t, steps[1..], m);
    }
  }

  // ------------------------------------------------------------ the danger can come true

  lemma PanicNow(s: State, m: Model)
    requires PanicsNext(s, m)
    ensures CanPanic(s, m)
  {
    assert Runs(s, []) && Quiet([]) && End(s, []) == s;
  }

  lemma BackRun(s: State, steps: seq<Step>, m: Model)
    requires Runs(s, steps) && Quiet(steps) && CanPanic(End(s, steps), m)
    ensures CanPanic(s, m)
  {
    var rest :| Runs(End(s, steps), rest) && Quiet(rest) && PanicsNext(End(End(s, steps), rest), m);
    RunsConcat(s, steps, rest);
    QuietConcat(steps, rest);
  }

  lemma Back(s: State, st: Step, m: Model)
    requires Enabled(s, st) && !IsStop(st) && CanPanic(Apply(s, st), m)
    ensures CanPanic(s, m)
  {
    assert Runs(Apply(s, st), []) && Quiet([]);
    RunsCons(s, st, []);
    BackRun(s, [st] + [], m);
  }

  /** Two closes are to come. */
  lemma TwoCloses(s: State, m: Model)
    requires m in s.procs && (s.procs[m].closing > 1 || (s.procs[m].closing > 0 && s.procs[m].launches in s.procs[m].closed))
    ensures CanPanic(s, m)
  {
    if PanicsNext(s, m) {
      PanicNow(s, m);
    } else {
      PanicNow(Apply(s, CloseChannel(m)), m);
      Back(s, CloseChannel(m), m);
    }
  }

  /** A command runs while its channel is closed, or a close is to come that is not its own. */
  lemma CommandAndClose(s: State, m: Model)
    requires Counts(s) && m in s.procs && s.procs[m].command == Alive
    requires s.procs[m].closing > 0 || s.procs[m].launches in s.procs[m].closed
    ensures CanPanic(s, m)
  {
    TwoCloses(Apply(s, CommandExits(m)), m);
    Back(s, CommandExits(m), m);
  }

  lemma RunningAndClose(s: State, m: Model)
    requires Counts(s) && m in s.procs && s.procs[m].command != NoCommand
    requires s.procs[m].closing > 0 || s.procs[m].launches in s.procs[m].closed
    ensures CanPanic(s, m)
  {
    assert ProcOk(s, m);
    if s.procs[m].command == Alive {
      CommandAndClose(s, m);
    } else {
      CountsStep(s, Proxy);
      CommandAndClose(Apply(s, Proxy), m);
      Back(s, Proxy, m);
    }
  }

  /** A launch makes its channel before the close to come. */
  lemma LaunchBeforeClose(s: State, m: Model)
    requires Counts(s) && m in s.procs && s.holder == Proxying(m, Launching) && s.procs[m].closing > 0
    ensures CanPanic(s, m)
  {
    CountsStep(s, Proxy);
    RunningAndClose(Apply(s, Proxy), m);
    Back(s, Proxy, m);
  }

  lemma {:induction false} RequestBeforeClose(s: State, m: Model)
    requires Counts(s) && ComesUp(s, m) && BeforeLaunch(s.holder.at) && s.procs[m].closing > 0
    ensures CanPanic(s, m)
    decreases ToGo(s.holder.at)
  {
    assert ProcOk(s, m);
    ComesUpStep(s, m);
    CountsStep(s, Proxy);
    if s.holder.at == Launch {
      LaunchBeforeClose(Apply(s, Proxy), m);
    } else {
      RequestBeforeClose(Apply(s, Proxy), m);
    }
    Back(s, Proxy, m);
  }

  lemma {:induction false} SwapBeforeClose(s: State, m: Model)
    requires Counts(s) && s.holder.StoppingPrevious? && s.holder.target == m
    requires s.procs[m].state == Stopped && s.procs[m].closing > 0
    ensures CanPanic(s, m)
    decreases Remaining(s)
  {
    OnwardGoes(s);
    SwapKeepsTarget(s);
    if s.holder.stop == Returned {
      RequestBeforeClose(Apply(s, Onward(s)), m);
    } else {
      SwapBeforeClose(Apply(s, Onward(s)), m);
    }
    Back(s, Onward(s), m);
  }

  lemma AheadOfClose(s: State, m: Model)
    requires Counts(s) && LaunchAhead(s, m) && s.procs[m].state == Stopped && s.procs[m].closing > 0
    ensures CanPanic(s, m)
  {
    if s.holder.Proxying? {
      RequestBeforeClose(s, m);
    } else {
      SwapBeforeClose(s, m);
    }
  }

  lemma FatalPanics(s: State, m: Model)
    requires Counts(s) && m in s.procs && Fatal(s, m)
    ensures CanPanic(s, m)
  {
    assert ProcOk(s, m);
    var p, n := s.procs[m], s.procs[m].closing;
    if n > 1 || (n > 0 && p.launches in p.closed) {
      TwoCloses(s, m);
    } else if p.command != NoCommand && (n > 0 || p.launches in p.closed) {
      RunningAndClose(s, m);
    } else if s.holder == Proxying(m, Launching) {
      LaunchBeforeClose(s, m);
    } else if p.command == NoCommand {
      AheadOfClose(s, m);
    } else {
      CountsStep(s, CommandExits(m));
      AheadOfClose(Apply(s, CommandExits(m)), m);
      Back(s, CommandExits(m), m);
    }
  }

  // ---- and with both locks free two requests are enough

  ghost predicate LocksFree(s: State, m: Model) {
    Counts(s) && m in s.procs && !Dead(s, m) && s.holder == Free && !Swept(s)
  }

  lemma NextRequestFatal(s: State, m: Model)
    requires LocksFree(s, m) && s.procs[m].command == Alive
    ensures CanPanic(s, m)
  {
    CountsStep(s, Acquire(m));
    var t := Apply(s, Acquire(m));
    CountsStep(t, Enter);
    FatalPanics(Apply(t, Enter), m);
    Back(t, Enter, m);
    Back(s, Acquire(m), m);
  }

  lemma {:induction false} FirstRequestEnds(s: State, m: Model)
    requires Counts(s) && !Swept(s) && ComesUp(s, m)
    ensures CanPanic(s, m)
    decreases ToGo(s.holder.at)
  {
    assert ProcOk(s, m);
    if s.holder.at == Left {
      CountsStep(s, Release);
      NextRequestFatal(Apply(s, Release), m);
      Back(s, Release, m);
    } else {
      ComesUpStep(s, m);
      CountsStep(s, Proxy);
      FirstRequestEnds(Apply(s, Proxy), m);
      Back(s, Proxy, m);
    }
  }

  lemma {:induction false} FirstRequestSwaps(s: State, m: Model)
    requires Counts(s) && !Swept(s) && s.holder.StoppingPrevious? && s.holder.target == m && s.procs[m].state == Stopped
    ensures CanPanic(s, m)
    decreases Remaining(s)
  {
    OnwardGoes(s);
    OnwardKeepsStoppers(s);
    SwapKeepsTarget(s);
    if s.holder.stop == Returned {
      FirstRequestEnds(Apply(s, Onward(s)), m);
    } else {
      FirstRequestSwaps(Apply(s, Onward(s)), m);
    }
    Back(s, Onward(s), m);
  }

  lemma TwoRequests(s: State, m: Model)
    requires LocksFree(s, m)
    ensures CanPanic(s, m)
  {
    assert ProcOk(s, m);
    if s.procs[m].command == Alive {
      NextRequestFatal(s, m);
    } else {
      CountsStep(s, Acquire(m));
      var t := Apply(s, Acquire(m));
      CountsStep(t, Enter);
      if Apply(t, Enter).holder.Proxying? {
        FirstRequestEnds(Apply(t, Enter), m);
      } else {
        FirstRequestSwaps(Apply(t, Enter), m);
      }
      Back(t, Enter, m);
      Back(s, Acquire(m), m);
    }
  }

  /** When waitForCmd can panic, without any new stop: whenever the process can still be started
      and requests can still enter the group; and otherwise exactly if what is under way is
      enough. */
  lemma PanicIff(s: State, m: Model)
    requires Counts(s) && m in s.procs
    ensures CanPanic(s, m) <==> Fatal(s, m) || (!Dead(s, m) && !Jammed(s))
  {
    if Fatal(s, m) {
      FatalPanics(s, m);
    } else if !Dead(s, m) && !Jammed(s) {
      var steps := ComesClear(s);
      TwoRequests(End(s, steps), m);
      BackRun(s, steps, m);
    } else {
      forall steps | Runs(s, steps) && Quiet(steps) ensures !PanicsNext(End(s, steps), m) {
        NeverPanics(s, steps, m);
      }
    }
  }

  // ------------------------------------------------------------ what a panic needs

  /** No channel is made while waitForCmd has one to close. */
  ghost predicate Tidy(s: State, steps: seq<Step>)
    requires Runs(s, steps)
    decreases |steps|
  {
    steps != [] ==>
      && (steps[0].Proxy? && s.holder.at == Launching ==> s.procs[s.holder.target].closing == 0)
      && Tidy(Apply(s, steps[0]), steps[1..])
  }

  /** A close that is to come is for the channel of the command that has exited. */
  ghost predicate InOrder(s: State, m: Model)
    requires m in s.procs
  {
    var p := s.procs[m];
    && s.procs[m].closing <= 1
    && (p.closing > 0 || p.launches in p.closed ==> p.command == NoCommand)
    && !(p.closing > 0 && p.launches in p.closed)
  }

  lemma TidyStep(s: State, st: Step, m: Model)
    requires Enabled(s, st) && m in s.procs && ProcOk(s, m) && InOrder(s, m)
    requires st.Proxy? && s.holder.at == Launching ==> s.procs[s.holder.target].closing == 0
    ensures m in Apply(s, st).procs && InOrder(Apply(s, st), m)
  {
  }

  lemma {:induction false} TidyRun(s: State, steps: seq<Step>, m: Model)
    requires Counts(s) && Runs(s, steps) && Tidy(s, steps) && m in s.procs && InOrder(s, m)
    ensures m in End(s, steps).procs && !PanicsNext(End(s, steps), m)
    decreases |steps|
  {
    if steps == [] {
    } else {
      assert ProcOk(s, m);
      TidyStep(s, steps[0], m);
      CountsStep(s, steps[0]);
      TidyRun(Apply(s, steps[0]), steps[1..], m);
    }
  }

  /** From a fresh group a panic needs a launch that makes its channel between the two steps of
      waitForCmd, and it can come about in every group. */
  lemma PanicNeedsOverlap(s0: State, m: Model)
    requires Init(s0) && m in s0.procs
    ensures forall steps :: Runs(s0, steps) && Tidy(s0, steps) ==> !PanicsNext(End(s0, steps), m)
    ensures CanPanic(s0, m)
  {
    InitCounts(s0);
    forall steps | Runs(s0, steps) && Tidy(s0, steps) ensures !PanicsNext(End(s0, steps), m) {
      TidyRun(s0, steps, m);
    }
    PanicIff(s0, m);
  }
}
