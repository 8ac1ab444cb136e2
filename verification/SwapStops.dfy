/** The promise of Process.Stop to wait for the requests in flight: exactly when it is kept. */
module SwapStops {
  import opened ProcessStates
  import opened SwapGroup
  import opened SwapJam

  /** The next step of stop `i` takes `m` down while a request is in flight, or even (`served`)
      being forwarded. */
  predicate Hits(s: State, i: nat, m: Model, served: bool) {
    && Enabled(s, StopperStep(i)) && s.stoppers[i].model == m
    && Running(s.procs[m].state) && Apply(s, StopperStep(i)).procs[m].state == Stopping
    && s.procs[m].inflight > 0 && (served ==> s.holder == Proxying(m, Serving))
  }

  /** Some run without a new stop gets there. */
  ghost predicate CanHit(s: State, m: Model, served: bool) {
    exists steps, i: nat :: Runs(s, steps) && Quiet(steps) && Hits(End(s, steps), i, m, served)
  }

  /** The request under way for `m`, if it has entered the group, can be hit by a stop at `pc`:
      the stop has passed its wait, or will do so before that request is counted, and the process
      is up or still comes up. */
  predicate HitsRequest(s: State, pc: StopPc, m: Model, served: bool)
    requires m in s.procs
  {
    var st := s.procs[m].state;
    match s.holder
    case StoppingPrevious(t, _, _) => t == m && (pc == ReadState ==> Running(st))
    case Proxying(t, at) =>
      t == m &&
      (match at
       case Admit => pc == ReadState ==> Running(st)
       case TakeSlot => pc == ReadState ==> Running(st)
       case Counted => Committed(pc)
       case Launch => Committed(pc)
       case Serving => Committed(pc) && Running(st)
       case Finished => Committed(pc) && Running(st) && !served
       case Left => false
       case _ => Committed(pc) && st == Starting)
    case _ => false
  }

  /** A stop of `m`, outside the request mutex, that has not decided yet and is free to meet
      another request, or can hit the one under way. */
  predicate Threat(s: State, i: nat, m: Model, served: bool) {
    && m in s.procs && i < |s.stoppers| && s.stoppers[i].model == m && Undecided(s.stoppers[i].pc)
    && (s.stoppers[i].sweep || Jammed(s) ==> HitsRequest(s, s.stoppers[i].pc, m, served))
  }

  // ------------------------------------------------------------ no threat, no hit

  /** A step of the request, which no other follows while the group's lock is held. */
  lemma HitBeforeRequest(s: State, st: Step, pc: StopPc, m: Model, served: bool)
    requires Enabled(s, st) && !IsStop(st) && !st.StopperStep? && Swept(s) && m in s.procs && ProcOk(s, m)
    requires HitsRequest(Apply(s, st), pc, m, served)
    ensures HitsRequest(s, pc, m, served)
  {
  }

  lemma HitBeforeStop(s: State, j: nat, i: nat, m: Model, served: bool)
    requires Enabled(s, StopperStep(j)) && m in s.procs && i < |s.stoppers| && s.stoppers[i].model == m
    requires Undecided(Apply(s, StopperStep(j)).stoppers[i].pc) && ProcOk(s, m)
    requires HitsRequest(Apply(s, StopperStep(j)), Apply(s, StopperStep(j)).stoppers[i].pc, m, served)
    ensures HitsRequest(s, s.stoppers[i].pc, m, served)
  {
  }

  lemma ThreatBefore(s: State, st: Step, i: nat, m: Model, served: bool)
    requires Counts(s) && Enabled(s, st) && !IsStop(st) && Threat(Apply(s, st), i, m, served)
    ensures Threat(s, i, m, served)
  {
    assert s.stoppers[i] in s.stoppers;
    if Jammed(s) {
      JamStays(s, st);
    }
    if s.stoppers[i].sweep || Jammed(s) {
      assert ProcOk(s, m);
      if st.StopperStep? {
        HitBeforeStop(s, st.i, i, m, served);
      } else {
        HitBeforeRequest(s, st, s.stoppers[i].pc, m, served);
      }
    }
  }

  lemma {:induction false} NoThreatRun(s: State, steps: seq<Step>, i: nat, m: Model, served: bool)
    requires Counts(s) && Runs(s, steps) && Quiet(steps)
    requires Dead(s, m) || !Threat(s, i, m, served)
    ensures !Hits(End(s, steps), i, m, served)
    decreases |steps|
  {
    if steps == [] {
    } else {
      CountsStep(s, steps[0]);
      if Dead(s, m) {
        DeadStays(s, steps[0], m);
      } else if Threat(Apply(s, steps[0]), i, m, served) {
        ThreatBefore(s, steps[0], i, m, served);
      }
      NoThreatRun(Apply(s, steps[0]), steps[1..], i, m, served);
    }
  }

  // ------------------------------------------------------------ every threat can come true

  lemma HitNow(s: State, i: nat, m: Model, served: bool)
    requires Hits(s, i, m, served)
    ensures CanHit(s, m, served)
  {
    assert Runs(s, []) && Quiet([]) && End(s, []) == s;
  }

  lemma BackRun(s: State, steps: seq<Step>, m: Model, served: bool)
    requires Runs(s, steps) && Quiet(steps) && CanHit(End(s, steps), m, served)
    ensures CanHit(s, m, served)
  {
    var rest, i: nat :| Runs(End(s, steps), rest) && Quiet(rest) && Hits(End(End(s, steps), rest), i, m, served);
    RunsConcat(s, steps, rest);
    QuietConcat(steps, rest);
    assert Hits(End(s, steps + rest), i, m, served);
  }

  lemma Back(s: State, st: Step, m: Model, served: bool)
    requires Enabled(s, st) && !IsStop(st) && CanHit(Apply(s, st), m, served)
    ensures CanHit(s, m, served)
  {
    assert Runs(Apply(s, st), []) && Quiet([]);
    RunsCons(s, st, []);
    BackRun(s, [st] + [], m, served);
  }

  /** The context of the lemmas below: stop `i` of `m` has not decided yet. */
  ghost predicate Pending(s: State, i: nat, m: Model) {
    && Counts(s) && m in s.procs && !Dead(s, m)
    && i < |s.stoppers| && s.stoppers[i].model == m && Undecided(s.stoppers[i].pc)
  }

  /** The stop has passed its wait and the process is up under the request: it is hit. */
  lemma {:induction false} Strike(s: State, i: nat, m: Model, served: bool)
    requires Pending(s, i, m) && Committed(s.stoppers[i].pc) && InFlight(s, m) && Up(s, m)
    requires served ==> s.holder == Proxying(m, Serving)
    ensures CanHit(s, m, served)
    decreases StopToGo(s.procs[m], s.stoppers[i].pc)
  {
    assert ProcOk(s, m);
    if Hits(s, i, m, served) {
      HitNow(s, i, m, served);
    } else {
      CountsStep(s, StopperStep(i));
      Strike(Apply(s, StopperStep(i)), i, m, served);
      Back(s, StopperStep(i), m, served);
    }
  }

  /** The request comes to be served first. */
  lemma {:induction false} StrikeServed(s: State, i: nat, m: Model, served: bool)
    requires Pending(s, i, m) && Committed(s.stoppers[i].pc) && ComesUp(s, m) && ToGo(s.holder.at) >= ToGo(Serving)
    ensures CanHit(s, m, served)
    decreases ToGo(s.holder.at)
  {
    if s.holder.at == Serving {
      Strike(s, i, m, served);
    } else {
      assert ProcOk(s, m);
      ComesUpStep(s, m);
      CountsStep(s, Proxy);
      StrikeServed(Apply(s, Proxy), i, m, served);
      Back(s, Proxy, m, served);
    }
  }

  /** The same while the request is still stopping the previous model. */
  lemma {:induction false} StrikeAfterSwap(s: State, i: nat, m: Model, served: bool)
    requires Pending(s, i, m) && Committed(s.stoppers[i].pc) && s.procs[m].state == Stopped
    requires s.holder.StoppingPrevious? && s.holder.target == m
    ensures CanHit(s, m, served)
    decreases Remaining(s)
  {
    OnwardGoes(s);
    OnwardKeepsStoppers(s);
    SwapKeepsTarget(s);
    if s.holder.stop == Returned {
      StrikeServed(Apply(s, Onward(s)), i, m, served);
    } else {
      StrikeAfterSwap(Apply(s, Onward(s)), i, m, served);
    }
    Back(s, Onward(s), m, served);
  }

  lemma StrikeStopped(s: State, i: nat, m: Model, served: bool)
    requires Pending(s, i, m) && Committed(s.stoppers[i].pc) && s.procs[m].state == Stopped
    requires Bound(s) && s.holder.target == m
    ensures CanHit(s, m, served)
  {
    if s.holder.Proxying? {
      StrikeServed(s, i, m, served);
    } else {
      StrikeAfterSwap(s, i, m, served);
    }
  }

  /** If `m` has a command, that exits first, so that the request has to start it. */
  lemma StrikeRequest(s: State, i: nat, m: Model, served: bool)
    requires Pending(s, i, m) && Committed(s.stoppers[i].pc) && Bound(s) && s.holder.target == m
    ensures CanHit(s, m, served)
  {
    assert ProcOk(s, m);
    if s.procs[m].state == Stopped {
      StrikeStopped(s, i, m, served);
    } else {
      CountsStep(s, CommandExits(m));
      StrikeStopped(Apply(s, CommandExits(m)), i, m, served);
      Back(s, CommandExits(m), m, served);
    }
  }

  /** The request is not counted yet: the stop passes its wait now. */
  lemma {:induction false} PassWait(s: State, i: nat, m: Model, served: bool)
    requires Pending(s, i, m) && (s.stoppers[i].pc == ReadState ==> Running(s.procs[m].state))
    requires (s.holder.StoppingPrevious? || (s.holder.Proxying? && s.holder.at in {Admit, TakeSlot})) && s.holder.target == m
    ensures CanHit(s, m, served)
    decreases StopToGo(s.procs[m], s.stoppers[i].pc)
  {
    if Committed(s.stoppers[i].pc) {
      StrikeRequest(s, i, m, served);
    } else {
      assert ProcOk(s, m);
      CountsStep(s, StopperStep(i));
      PassWait(Apply(s, StopperStep(i)), i, m, served);
      Back(s, StopperStep(i), m, served);
    }
  }

  /** A stop that can hit the request under way. */
  lemma StrikeUnderWay(s: State, i: nat, m: Model, served: bool)
    requires Pending(s, i, m) && HitsRequest(s, s.stoppers[i].pc, m, served)
    ensures CanHit(s, m, served)
  {
    if s.holder.StoppingPrevious? || s.holder.at in {Admit, TakeSlot} {
      PassWait(s, i, m, served);
    } else if s.holder.at in {Counted, Launch} {
      StrikeRequest(s, i, m, served);
    } else if s.holder.at in {Serving, Finished} {
      Strike(s, i, m, served);
    } else {
      StrikeServed(s, i, m, served);
    }
  }

  /** A stop without the group's lock, which nobody holds. */
  ghost predicate Unhindered(s: State, i: nat, m: Model) {
    Pending(s, i, m) && !s.stoppers[i].sweep && !Swept(s)
  }

  /** The mutex is free and the stop past its wait: the next request is hit. */
  lemma StrikeNext(s: State, i: nat, m: Model, served: bool)
    requires Unhindered(s, i, m) && Committed(s.stoppers[i].pc) && s.holder == Free
    ensures CanHit(s, m, served)
  {
    CountsStep(s, Acquire(m));
    var t := Apply(s, Acquire(m));
    CountsStep(t, Enter);
    StrikeRequest(Apply(t, Enter), i, m, served);
    Back(t, Enter, m, served);
    Back(s, Acquire(m), m, served);
  }

  /** No request is under way and the process is ready: the stop passes its wait. */
  lemma {:induction false} WaitsInVain(s: State, i: nat, m: Model, served: bool)
    requires Unhindered(s, i, m) && s.procs[m].state == Ready && s.holder == Free
    ensures CanHit(s, m, served)
    decreases StopToGo(s.procs[m], s.stoppers[i].pc)
  {
    if Committed(s.stoppers[i].pc) {
      StrikeNext(s, i, m, served);
    } else {
      assert ProcOk(s, m);
      CountsStep(s, StopperStep(i));
      SweepsLeft(s, i);
      WaitsInVain(Apply(s, StopperStep(i)), i, m, served);
      Back(s, StopperStep(i), m, served);
    }
  }

  lemma SweepsLeft(s: State, i: nat)
    requires Enabled(s, StopperStep(i)) && !s.stoppers[i].sweep && !Swept(s)
    ensures !Swept(Apply(s, StopperStep(i)))
  {
    var t := Apply(s, StopperStep(i));
    assert forall k <- t.stoppers :: k == t.stoppers[i] || k in s.stoppers;
  }

  /** A request brings `m` up and ends. */
  lemma {:induction false} BringUp(s: State, i: nat, m: Model, served: bool)
    requires Unhindered(s, i, m) && ComesUp(s, m)
    ensures CanHit(s, m, served)
    decreases ToGo(s.holder.at)
  {
    if s.holder.at == Left {
      CountsStep(s, Release);
      WaitsInVain(Apply(s, Release), i, m, served);
      Back(s, Release, m, served);
    } else {
      assert ProcOk(s, m);
      ComesUpStep(s, m);
      CountsStep(s, Proxy);
      BringUp(Apply(s, Proxy), i, m, served);
      Back(s, Proxy, m, served);
    }
  }

  lemma {:induction false} BringUpAfterSwap(s: State, i: nat, m: Model, served: bool)
    requires Unhindered(s, i, m) && s.procs[m].state == Stopped && s.holder.StoppingPrevious? && s.holder.target == m
    ensures CanHit(s, m, served)
    decreases Remaining(s)
  {
    OnwardGoes(s);
    OnwardKeepsStoppers(s);
    SwapKeepsTarget(s);
    if s.holder.stop == Returned {
      BringUp(Apply(s, Onward(s)), i, m, served);
    } else {
      BringUpAfterSwap(Apply(s, Onward(s)), i, m, served);
    }
    Back(s, Onward(s), m, served);
  }

  /** The process is stopped and the mutex free: a request for it comes. */
  lemma NextRequest(s: State, i: nat, m: Model, served: bool)
    requires Unhindered(s, i, m) && s.holder == Free && s.procs[m].state == Stopped
    ensures CanHit(s, m, served)
  {
    var s2 := Apply(s, Acquire(m));
    CountsStep(s, Acquire(m));
    var s3 := Apply(s2, Enter);
    CountsStep(s2, Enter);
    if s3.holder.Proxying? {
      BringUp(s3, i, m, served);
    } else {
      BringUpAfterSwap(s3, i, m, served);
    }
    Back(s2, Enter, m, served);
    Back(s, Acquire(m), m, served);
  }

  /** Both locks are free: if `m` has a command, that exits first. */
  lemma LocksFree(s: State, i: nat, m: Model, served: bool)
    requires Unhindered(s, i, m) && s.holder == Free
    ensures CanHit(s, m, served)
  {
    assert ProcOk(s, m);
    if s.procs[m].state == Stopped {
      NextRequest(s, i, m, served);
    } else {
      CountsStep(s, CommandExits(m));
      NextRequest(Apply(s, CommandExits(m)), i, m, served);
      Back(s, CommandExits(m), m, served);
    }
  }

  /** A stop without the group's lock, in any state in which that lock can still be released. */
  lemma PendingHits(s: State, i: nat, m: Model, served: bool)
    requires Pending(s, i, m) && !s.stoppers[i].sweep && !Jammed(s)
    ensures CanHit(s, m, served)
  {
    var steps := ComesClear(s);
    LocksFree(End(s, steps), i, m, served);
    BackRun(s, steps, m, served);
  }

  // ------------------------------------------------------------ the promise

  /** When Stop keeps its documented promise to wait for requests in flight: without a new
      stop, some run has a process taken down under a request exactly when the process can still
      be up and a stop of it outside the request mutex is a threat: one that has not decided yet
      (it waits for the requests in flight, and then stops the process whatever has been admitted
      meanwhile) and is not held off by the group's lock, or one that can hit the request under
      way. The same goes for requests that are being forwarded already. */
  lemma StopKeepsPromiseIff(s: State, m: Model, served: bool)
    requires Counts(s) && m in s.procs
    ensures CanHit(s, m, served) <==> !Dead(s, m) && exists i: nat :: Threat(s, i, m, served)
  {
    if i: nat :| !Dead(s, m) && Threat(s, i, m, served) {
      if s.stoppers[i].sweep || Jammed(s) {
        StrikeUnderWay(s, i, m, served);
      } else {
        PendingHits(s, i, m, served);
      }
    } else {
      forall steps, i: nat | Runs(s, steps) && Quiet(steps) ensures !Hits(End(s, steps), i, m, served) {
        NoThreatRun(s, steps, i, m, served);
      }
    }
  }

  /** So whenever the process can still be up and the group's lock be released, a stop of the TTL
      check, graceful or not, can take the process down under a request that is being forwarded. */
  lemma GracefulStopCanHitARequest(s: State, m: Model, graceful: bool)
    requires Counts(s) && m in s.procs && !Dead(s, m) && !Jammed(s)
    ensures CanHit(Apply(s, SpawnStop(m, graceful)), m, true)
  {
    var t := Apply(s, SpawnStop(m, graceful));
    CountsStep(s, SpawnStop(m, graceful));
    assert forall k <- t.stoppers :: k == t.stoppers[|s.stoppers|] || k in s.stoppers;
    PendingHits(t, |s.stoppers|, m, true);
  }

  /** A StopProcesses call that finds no request past the group's lock hits none. */
  lemma SweepSparesLaterRequests(s: State, m: Model, members: seq<Model>, graceful: bool)
    requires Counts(s) && m in s.procs && Enabled(s, Sweep(members, graceful)) && (s.holder.Free? || s.holder.Entered?)
    requires forall i: nat :: !Threat(s, i, m, false)
    ensures !CanHit(Apply(s, Sweep(members, graceful)), m, false)
  {
    var t := Apply(s, Sweep(members, graceful));
    CountsStep(s, Sweep(members, graceful));
    forall i: nat ensures !Threat(t, i, m, false) {
      assert !Threat(s, i, m, false);
    }
    StopKeepsPromiseIff(t, m, false);
  }
}
