/** StopProcess forgets the last used process without the mutex that requests hold: exactly
    when two members of a swap group can then be up at once. */
module SwapUnload {
  import opened ProcessStates
  import opened SwapGroup

  ghost predicate NoUnload(steps: seq<Step>) {
    forall st <- steps :: !st.UnloadClear?
  }

  /** Some continuation, with no further unload, has two members up at once. */
  ghost predicate CanBreak(s: State) {
    exists steps :: Runs(s, steps) && NoUnload(steps) && !AtMostOneUp(End(s, steps))
  }

  lemma Back(s: State, st: Step)
    requires Enabled(s, st) && !st.UnloadClear? && CanBreak(Apply(s, st))
    ensures CanBreak(s)
  {
    var rest :| Runs(Apply(s, st), rest) && NoUnload(rest) && !AtMostOneUp(End(Apply(s, st), rest));
    RunsCons(s, st, rest);
    assert NoUnload([st] + rest);
  }

  lemma TwoUp(s: State, a: Model, b: Model)
    requires Up(s, a) && Up(s, b) && a != b
    ensures CanBreak(s)
  {
    assert Runs(s, []) && NoUnload([]) && End(s, []) == s;
  }

  // ------------------------------------------------------------ an unsafe unload breaks exclusivity

  /** A request for `t` on its way to start() brings it up, beside `m`. */
  lemma {:induction false} OtherStarts(s: State, m: Model, t: Model)
    requires Counts(s) && Up(s, m) && t != m && !Dead(s, t)
    requires s.holder.Proxying? && s.holder.target == t && BeforeLaunch(s.holder.at)
    ensures CanBreak(s)
    decreases ToGo(s.holder.at), if s.procs[t].state == Stopped then 0 else 1
  {
    assert ProcOk(s, t);
    if Up(s, t) {
      TwoUp(s, m, t);
    } else {
      var st := if s.procs[t].state != Stopped then CommandExits(t) else Proxy;
      CountsStep(s, st);
      if st == Proxy && s.holder.at == Launch {
        TwoUp(Apply(s, st), m, t);
      } else {
        OtherStarts(Apply(s, st), m, t);
      }
      Back(s, st);
    }
  }

  /** The same while the request stops another process first. */
  lemma {:induction false} OtherSwaps(s: State, m: Model, t: Model)
    requires Counts(s) && Up(s, m) && t != m && !Dead(s, t)
    requires s.holder.StoppingPrevious? && s.holder.target == t && s.holder.prev != m
    ensures CanBreak(s)
    decreases Remaining(s)
  {
    var st := Onward(s);
    OnwardGoes(s);
    OnwardKeepsAlive(s, t);
    if s.holder.stop == Returned {
      OtherStarts(Apply(s, st), m, t);
    } else {
      OtherSwaps(Apply(s, st), m, t);
    }
    Back(s, st);
  }

  /** The context of the lemmas below: `m` is not remembered as last used, and another member
      can still be started. */
  ghost predicate Forgotten(s: State, m: Model, other: Model) {
    Counts(s) && !Swept(s) && m in s.procs && other in s.procs && other != m && s.last != m && !Dead(s, other)
  }

  /** The next request, for the other member, does not stop `m`. */
  lemma NextBreaks(s: State, m: Model, other: Model)
    requires Forgotten(s, m, other) && Up(s, m) && s.holder == Free
    ensures CanBreak(s)
  {
    var s1 := Apply(s, Acquire(other));
    CountsStep(s, Acquire(other));
    var s2 := Apply(s1, Enter);
    CountsStep(s1, Enter);
    if s2.holder.Proxying? {
      OtherStarts(s2, m, other);
    } else {
      OtherSwaps(s2, m, other);
    }
    Back(s1, Enter);
    Back(s, Acquire(other));
  }

  /** The request under way ends, and leaves `m` up. */
  lemma {:induction false} RequestEnds(s: State, m: Model, other: Model)
    requires Forgotten(s, m, other) && Up(s, m) && !s.holder.Entered?
    requires s.holder.StoppingPrevious? ==> s.holder.prev != m
    ensures CanBreak(s)
    decreases Remaining(s)
  {
    if s.holder == Free {
      NextBreaks(s, m, other);
    } else {
      var t := Apply(s, Onward(s));
      OnwardGoes(s);
      OnwardKeepsAlive(s, other);
      OnwardKeepsUp(s, m);
      RequestEnds(t, m, other);
      Back(s, Onward(s));
    }
  }

  lemma OnwardKeepsUp(s: State, m: Model)
    requires Enabled(s, Onward(s)) && Up(s, m) && !s.holder.Entered?
    requires s.holder.StoppingPrevious? ==> s.holder.prev != m
    ensures Up(Apply(s, Onward(s)), m) && Apply(s, Onward(s)).last == s.last
    ensures Apply(s, Onward(s)).stoppers == s.stoppers
  {
  }

  /** The request for `m` brings it up first. */
  lemma {:induction false} OwnRequestStarts(s: State, m: Model, other: Model)
    requires Forgotten(s, m, other) && !Dead(s, m)
    requires s.holder.Proxying? && s.holder.target == m && BeforeLaunch(s.holder.at)
    ensures CanBreak(s)
    decreases ToGo(s.holder.at), if s.procs[m].state == Stopped then 0 else 1
  {
    assert ProcOk(s, m);
    if Up(s, m) {
      RequestEnds(s, m, other);
    } else {
      var st := if s.procs[m].state != Stopped then CommandExits(m) else Proxy;
      CountsStep(s, st);
      if st == Proxy && s.holder.at == Launch {
        RequestEnds(Apply(s, st), m, other);
      } else {
        OwnRequestStarts(Apply(s, st), m, other);
      }
      Back(s, st);
    }
  }

  lemma {:induction false} SwapThenStart(s: State, m: Model, other: Model)
    requires Forgotten(s, m, other) && !Dead(s, m) && s.holder.StoppingPrevious? && s.holder.target == m
    ensures CanBreak(s)
    decreases Remaining(s)
  {
    var st := Onward(s);
    OnwardGoes(s);
    OnwardKeepsAlive(s, m);
    OnwardKeepsAlive(s, other);
    if s.holder.stop == Returned {
      OwnRequestStarts(Apply(s, st), m, other);
    } else {
      SwapThenStart(Apply(s, st), m, other);
    }
    Back(s, st);
  }

  // ------------------------------------------------------------ a safe one does not

  lemma {:induction false} NoUnloadIsCareful(s: State, steps: seq<Step>)
    requires Runs(s, steps) && NoUnload(steps)
    ensures Careful(s, steps)
    decreases |steps|
  {
    if steps == [] {
    } else {
      NoUnloadIsCareful(Apply(s, steps[0]), steps[1..]);
    }
  }

  lemma SafeNeverBreaks(s: State)
    requires Inv(s)
    ensures !CanBreak(s)
  {
    forall steps | Runs(s, steps) && NoUnload(steps) ensures AtMostOneUp(End(s, steps)) {
      NoUnloadIsCareful(s, steps);
      InvRun(s, steps);
    }
  }

  ghost predicate OthersDead(s: State, m: Model) {
    forall other <- s.procs :: other != m ==> Dead(s, other)
  }

  lemma OthersStayDead(s: State, st: Step, m: Model)
    requires Counts(s) && Enabled(s, st) && OthersDead(s, m)
    ensures OthersDead(Apply(s, st), m)
  {
    forall other | other in Apply(s, st).procs && other != m ensures Dead(Apply(s, st), other) {
      DeadStays(s, st, other);
    }
  }

  /** Nor does any if all the other members are gone for good. */
  lemma {:induction false} AloneRun(s: State, steps: seq<Step>, m: Model)
    requires Counts(s) && Runs(s, steps) && OthersDead(s, m)
    ensures AtMostOneUp(End(s, steps))
    decreases |steps|
  {
    if steps == [] {
    } else {
      CountsStep(s, steps[0]);
      OthersStayDead(s, steps[0], m);
      AloneRun(Apply(s, steps[0]), steps[1..], m);
    }
  }

  lemma UnsafeBreaks(s: State, m: Model, other: Model, graceful: bool)
    requires Inv(s) && Enabled(s, UnloadClear(m, graceful)) && !SafeUnload(s, m)
    requires other in s.procs && other != m && !Dead(s, other)
    ensures CanBreak(Apply(s, UnloadClear(m, graceful)))
  {
    var t := Apply(s, UnloadClear(m, graceful));
    CountsStep(s, UnloadClear(m, graceful));
    assert Forgotten(t, m, other);
    match s.holder
    case Free => NextBreaks(t, m, other);
    case Entered(_) =>
      CountsStep(t, Enter);
      RequestEnds(Apply(t, Enter), m, other);
      Back(t, Enter);
    case StoppingPrevious(_, _, _) => SwapThenStart(t, m, other);
    case Proxying(_, at) =>
      if BeforeLaunch(at) && !Up(s, m) {
        OwnRequestStarts(t, m, other);
      } else {
        RequestEnds(t, m, other);
      }
  }

  /** StopProcess forgets lastUsedProcess without holding swapRequestMu. Some later interleaving
      has two members up at once exactly when the guard SafeUnload fails and another member can
      still be started. */
  lemma UnloadIsSafeIff(s: State, m: Model, graceful: bool)
    requires Inv(s) && Enabled(s, UnloadClear(m, graceful))
    ensures CanBreak(Apply(s, UnloadClear(m, graceful))) <==>
              !SafeUnload(s, m) && exists other :: other in s.procs && other != m && !Dead(s, other)
  {
    var t := Apply(s, UnloadClear(m, graceful));
    if SafeUnload(s, m) {
      InvStep(s, UnloadClear(m, graceful));
      SafeNeverBreaks(t);
    } else if other :| other in s.procs && other != m && !Dead(s, other) {
      UnsafeBreaks(s, m, other, graceful);
    } else {
      CountsStep(s, UnloadClear(m, graceful));
      forall steps | Runs(t, steps) && NoUnload(steps) ensures AtMostOneUp(End(t, steps)) {
        AloneRun(t, steps, m);
      }
    }
  }

  /** A run that breaks exclusivity: a request for one model of a fresh group of two has just been
      entered when that model is unloaded. */
  lemma UnloadUnderRequest() returns (s0: State, steps: seq<Step>)
    ensures Init(s0) && Runs(s0, steps) && CanBreak(End(s0, steps))
  {
    var p := Process(Stopped, 0, 1, NoCommand, 0, {}, 0);
    s0 := State(map["a" := p, "b" := p], "", Free, []);
    var s1 := Apply(s0, Acquire("a"));
    var s2 := Apply(s1, Enter);
    var s3 := Apply(s2, UnloadClear("a", true));
    InitCounts(s0);
    InvStep(s0, Acquire("a"));
    InvStep(s1, Enter);
    UnsafeBreaks(s2, "a", "b", true);
    assert Runs(s3, []);
    RunsCons(s2, UnloadClear("a", true), []);
    RunsCons(s1, Enter, [UnloadClear("a", true)] + []);
    RunsCons(s0, Acquire("a"), [Enter] + ([UnloadClear("a", true)] + []));
    steps := [Acquire("a")] + ([Enter] + ([UnloadClear("a", true)] + []));
  }
}
