/** Process states and the compare-and-swap every guarded change goes through. */
module ProcessStates {

  datatype ProcessState = Stopped | Starting | Ready | Stopping | Shutdown

  datatype SwapResult = Swapped | StateMismatch | InvalidTransition

  predicate IsValidTransition(from: ProcessState, to: ProcessState) {
    match from
    case Stopped => to == Starting
    case Starting => to in {Ready, Stopping, Stopped}
    case Ready => to == Stopping
    case Stopping => to in {Stopped, Shutdown}
    case Shutdown => false
  }

  /** The test at the head of Stop, StopImmediately and Shutdown. */
  predicate Running(st: ProcessState) {
    IsValidTransition(st, Stopping)
  }

  function SwapState(current: ProcessState, expected: ProcessState, next: ProcessState): (ProcessState, SwapResult) {
    if current != expected then (current, StateMismatch)
    else if !IsValidTransition(current, next) then (current, InvalidTransition)
    else (next, Swapped)
  }

  /** The transitions there are. */
  lemma TransitionsAre(from: ProcessState, to: ProcessState)
    ensures IsValidTransition(from, to) <==>
              (from, to) in {(Stopped, Starting), (Starting, Ready), (Starting, Stopping), (Starting, Stopped),
                             (Ready, Stopping), (Stopping, Stopped), (Stopping, Shutdown)}
  {
  }

  /** A swap takes place exactly in the expected state and along a transition; in any other state it
      is a mismatch, whatever the transition. */
  lemma SwapOutcome(current: ProcessState, expected: ProcessState, next: ProcessState)
    ensures var (now, result) := SwapState(current, expected, next);
            && (result == StateMismatch <==> current != expected)
            && (result == Swapped <==> current == expected && IsValidTransition(expected, next))
            && now == if result == Swapped then next else current
  {
  }

  /** Every state along `path` follows from the one before. */
  predicate Follows(path: seq<ProcessState>) {
    forall i :: 0 < i < |path| ==> IsValidTransition(path[i - 1], path[i])
  }

  /** So a process becomes ready only by starting, a shutdown is final, and no swap leads to it from
      a process that is up. */
  lemma {:induction false} ReadyOnlyByStarting(path: seq<ProcessState>)
    requires Follows(path)
    ensures forall i :: 0 < i < |path| && path[i] == Ready ==> path[i - 1] == Starting
    ensures forall i :: 0 < i < |path| && path[i] == Shutdown ==> path[i - 1] == Stopping && i == |path| - 1
  {
    forall i | 0 < i < |path| && path[i] == Shutdown ensures i == |path| - 1 {
      assert i + 1 < |path| ==> IsValidTransition(path[i + 1 - 1], path[i + 1]);
    }
  }
}
