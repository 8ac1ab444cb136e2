/** The wait/notify protocol of one event group, as atomic steps. */
module EventProtocol {
  // Each step is one region of code that runs under the group's mutex, or one
  // action outside it.  Entering `Wait` takes two steps (`Deciding`, then
  // `Parked`): a listener calls `cond.Broadcast` WITHOUT the mutex, so that call
  // can fall between the moment a publisher finds a queue full and the moment
  // it is enrolled as a waiter.  Any thread may run next, so a list of steps is
  // an arbitrary interleaving.
  //
  // `handled`, `born`, `cut` and `log` are history: no step branches on them.

  // An event is an opaque payload.
  type Event = int

  datatype Phase =
    | Waiting              // wants the mutex: loop entry, or woken from Wait
    | Deciding             // holds the mutex, found nothing to do, about to enter Wait
    | Parked               // inside Wait, not notified
    | Working(done: nat)   // outside the mutex, `done` events of `pending` handled
    | Exited

  datatype Consumer = Consumer(
    phase: Phase, queue: seq<Event>, pending: seq<Event>, stop: bool, subscribed: bool,
    handled: seq<Event>, born: nat, cut: nat)

  datatype Publisher =
    | Idle
    | PubWaiting(ev: Event)
    | PubDeciding(ev: Event)
    | PubParked(ev: Event)

  datatype State = State(
    maxQueue: int, cons: seq<Consumer>, pubs: seq<Publisher>, log: seq<Event>)

  datatype Step =
    // the environment
    | Add | Del(c: nat) | Publish(p: nat, ev: Event)
    // a publisher inside Broadcast
    | PubCheck(p: nat) | PubPark(p: nat)
    // a listener inside Listen
    | Check(c: nat) | Park(c: nat) | Handle(c: nat) | Announce(c: nat)

  // ------------------------------------------------------------ transitions

  predicate LockFree(s: State) {
    && (forall c <- s.cons :: c.phase != Deciding)
    && (forall p <- s.pubs :: !p.PubDeciding?)
  }

  /** Broadcast's test `maxLen >= maxQueue`, where maxLen is 0 without subscribers. */
  predicate Blocked(s: State) {
    s.maxQueue <= 0 || exists i :: 0 <= i < |s.cons| && s.cons[i].subscribed && |s.cons[i].queue| >= s.maxQueue
  }

  function Wake(c: Consumer): Consumer {
    if c.phase == Parked then c.(phase := Waiting) else c
  }

  function WakePub(p: Publisher): Publisher {
    if p.PubParked? then PubWaiting(p.ev) else p
  }

  /** cond.Broadcast: every parked thread becomes runnable. */
  function WakeAll(s: State): State {
    s.(cons := seq(|s.cons|, i requires 0 <= i < |s.cons| => Wake(s.cons[i])),
       pubs := seq(|s.pubs|, i requires 0 <= i < |s.pubs| => WakePub(s.pubs[i])))
  }

  function Offer(c: Consumer, ev: Event): Consumer {
    if c.subscribed then c.(queue := c.queue + [ev]) else c
  }

  function Deliver(s: State, ev: Event): State {
    s.(cons := seq(|s.cons|, i requires 0 <= i < |s.cons| => Offer(s.cons[i], ev)), log := s.log + [ev])
  }

  function Unsubscribe(c: Consumer, now: nat): Consumer {
    c.(stop := true, subscribed := false, cut := if c.subscribed then now else c.cut)
  }

  predicate Enabled(s: State, st: Step) {
    match st
    case Add => LockFree(s)
    case Del(c) => c < |s.cons| && LockFree(s)
    case Publish(p, _) => p < |s.pubs| && s.pubs[p].Idle?
    case PubCheck(p) => p < |s.pubs| && s.pubs[p].PubWaiting? && LockFree(s)
    case PubPark(p) => p < |s.pubs| && s.pubs[p].PubDeciding?
    case Check(c) => c < |s.cons| && s.cons[c].phase == Waiting && LockFree(s)
    case Park(c) => c < |s.cons| && s.cons[c].phase == Deciding
    case Handle(c) => c < |s.cons| && s.cons[c].phase.Working? && s.cons[c].phase.done < |s.cons[c].pending|
    case Announce(c) => c < |s.cons| && s.cons[c].phase.Working? && s.cons[c].phase.done >= |s.cons[c].pending|
  }

  /** One round of the test in Listen: exit, go to sleep, or swap the buffers. */
  function CheckQueue(c: Consumer): Consumer {
    if c.queue == [] then c.(phase := if c.stop then Exited else Deciding)
    else c.(pending := c.queue, queue := [], phase := Working(0))
  }

  function Apply(s: State, st: Step): State
    requires Enabled(s, st)
  {
    match st
    case Add =>
      s.(cons := s.cons + [Consumer(Waiting, [], [], false, true, [], |s.log|, |s.log|)])
    case Del(c) =>
      WakeAll(s.(cons := s.cons[c := Unsubscribe(s.cons[c], |s.log|)]))
    case Publish(p, ev) =>
      s.(pubs := s.pubs[p := PubWaiting(ev)])
    case PubCheck(p) =>
      var ev := s.pubs[p].ev;
      if Blocked(s) then s.(pubs := s.pubs[p := PubDeciding(ev)])
      else WakeAll(Deliver(s, ev).(pubs := s.pubs[p := Idle]))
    case PubPark(p) =>
      s.(pubs := s.pubs[p := PubParked(s.pubs[p].ev)])
    case Check(c) =>
      s.(cons := s.cons[c := CheckQueue(s.cons[c])])
    case Park(c) =>
      s.(cons := s.cons[c := s.cons[c].(phase := Parked)])
    case Handle(c) =>
      var k := s.cons[c];
      s.(cons := s.cons[c := k.(phase := Working(k.phase.done + 1), handled := k.handled + [k.pending[k.phase.done]])])
    case Announce(c) =>
      WakeAll(s.(cons := s.cons[c := s.cons[c].(phase := Waiting)]))
  }

  /** A fresh group with any number of goroutines that may publish into it. */
  predicate Init(s: State) {
    s.cons == [] && s.log == [] && forall p <- s.pubs :: p.Idle?
  }

  predicate Runs(s: State, steps: seq<Step>)
    decreases |steps|
  {
    steps == [] || (Enabled(s, steps[0]) && Runs(Apply(s, steps[0]), steps[1..]))
  }

  function End(s: State, steps: seq<Step>): State
    requires Runs(s, steps)
    decreases |steps|
  {
    if steps == [] then s else End(Apply(s, steps[0]), steps[1..])
  }

  ghost predicate Reachable(s: State) {
    exists s0, steps :: Init(s0) && Runs(s0, steps) && End(s0, steps) == s
  }

  // ------------------------------------------------------------ the invariant

  /** The events of the current batch that no handler has seen yet. */
  function Rest(c: Consumer): seq<Event> {
    if c.phase.Working? && c.phase.done <= |c.pending| then c.pending[c.phase.done..] else []
  }

  function Upto(log: seq<Event>, c: Consumer): nat {
    if c.subscribed then |log| else c.cut
  }

  /** The part of the broadcast log this consumer is owed: from its Add to its Del. */
  function Owed(log: seq<Event>, c: Consumer): seq<Event>
    requires c.born <= Upto(log, c) <= |log|
  {
    log[c.born..Upto(log, c)]
  }

  ghost predicate ConsumerInv(maxQueue: int, log: seq<Event>, c: Consumer) {
    && c.born <= Upto(log, c) <= |log|
    && c.handled + Rest(c) + c.queue == Owed(log, c)
    && (c.queue == [] || |c.queue| <= maxQueue)
    && c.stop == !c.subscribed
    && (c.phase.Working? ==> c.phase.done <= |c.pending|)
    && (c.phase in {Deciding, Parked} ==> c.queue == [] && !c.stop)
    && (c.phase == Exited ==> c.queue == [] && c.stop)
  }

  /** Someone whose next actions end in a cond.Broadcast. */
  ghost predicate WakerExists(s: State) {
    s.maxQueue <= 0 || exists i :: 0 <= i < |s.cons| && s.cons[i].subscribed
                                   && (|s.cons[i].queue| >= s.maxQueue || s.cons[i].phase.Working?)
  }

  ghost predicate Inv(s: State) {
    && (forall i :: 0 <= i < |s.cons| ==> ConsumerInv(s.maxQueue, s.log, s.cons[i]))
    && (forall i, j :: 0 <= i < j < |s.cons| ==> !(s.cons[i].phase == Deciding && s.cons[j].phase == Deciding))
    && (forall i, j :: 0 <= i < j < |s.pubs| ==> !(s.pubs[i].PubDeciding? && s.pubs[j].PubDeciding?))
    && (forall i, j :: 0 <= i < |s.cons| && 0 <= j < |s.pubs| ==> !(s.cons[i].phase == Deciding && s.pubs[j].PubDeciding?))
    && (forall p <- s.pubs :: p.PubDeciding? ==> Blocked(s))
    && (forall p <- s.pubs :: p.PubParked? ==> WakerExists(s))
  }

  predicate Wakes(s: State, st: Step) {
    st.Del? || st.Announce? || (st.PubCheck? && !Blocked(s))
  }

  /** A step that wakes nobody leaves somebody who will. */
  lemma WakerStays(s: State, st: Step)
    requires Inv(s) && Enabled(s, st) && !Wakes(s, st) && WakerExists(s)
    ensures WakerExists(Apply(s, st))
  {
    if s.maxQueue > 0 {
      var t := Apply(s, st);
      var i :| 0 <= i < |s.cons| && s.cons[i].subscribed
               && (|s.cons[i].queue| >= s.maxQueue || s.cons[i].phase.Working?);
      assert t.cons[i].subscribed && (|t.cons[i].queue| >= t.maxQueue || t.cons[i].phase.Working?);
    }
  }

  lemma OfferKeeps(maxQueue: int, log: seq<Event>, c: Consumer, ev: Event)
    requires ConsumerInv(maxQueue, log, c) && c.phase != Deciding && (c.subscribed ==> |c.queue| < maxQueue)
    ensures ConsumerInv(maxQueue, log + [ev], Wake(Offer(c, ev)))
  {
    var d := Wake(Offer(c, ev));
    assert Rest(d) == Rest(c);
    if c.subscribed {
      assert (log + [ev])[c.born..|log| + 1] == log[c.born..] + [ev];
      assert d.handled + Rest(d) + d.queue == c.handled + Rest(c) + c.queue + [ev];
    } else {
      assert (log + [ev])[c.born..c.cut] == log[c.born..c.cut];
    }
  }

  lemma HandleKeeps(maxQueue: int, log: seq<Event>, c: Consumer)
    requires ConsumerInv(maxQueue, log, c) && c.phase.Working? && c.phase.done < |c.pending|
    ensures ConsumerInv(maxQueue, log, c.(phase := Working(c.phase.done + 1), handled := c.handled + [c.pending[c.phase.done]]))
  {
    var k := c.phase.done;
    assert c.pending[k..] == [c.pending[k]] + c.pending[k + 1..];
    assert c.handled + c.pending[k..] == c.handled + [c.pending[k]] + c.pending[k + 1..];
  }

  lemma CheckKeeps(maxQueue: int, log: seq<Event>, c: Consumer)
    requires ConsumerInv(maxQueue, log, c) && c.phase == Waiting
    ensures ConsumerInv(maxQueue, log, CheckQueue(c))
  {
    assert c.handled + [] + c.queue == c.handled + c.queue + [];
  }

  /** Waking, unsubscribing, parking and announcing move no event. */
  lemma QuietKeeps(maxQueue: int, log: seq<Event>, c: Consumer)
    requires ConsumerInv(maxQueue, log, c)
    ensures ConsumerInv(maxQueue, log, Wake(c))
    ensures c.phase != Deciding ==> ConsumerInv(maxQueue, log, Wake(Unsubscribe(c, |log|)))
    ensures c.phase == Deciding ==> ConsumerInv(maxQueue, log, c.(phase := Parked))
    ensures c.phase.Working? && c.phase.done >= |c.pending| ==> ConsumerInv(maxQueue, log, Wake(c.(phase := Waiting)))
  {
    assert Rest(Wake(c)) == Rest(c) == Rest(Wake(Unsubscribe(c, |log|)));
    assert Owed(log, Wake(Unsubscribe(c, |log|))) == Owed(log, c);
  }

  lemma ConsumersKept(s: State, st: Step, i: nat)
    requires Inv(s) && Enabled(s, st) && i < |Apply(s, st).cons|
    ensures var t := Apply(s, st); ConsumerInv(t.maxQueue, t.log, t.cons[i])
  {
    if i < |s.cons| {
      assert ConsumerInv(s.maxQueue, s.log, s.cons[i]);
      QuietKeeps(s.maxQueue, s.log, s.cons[i]);
      match st
      case PubCheck(p) =>
        if !Blocked(s) {
          OfferKeeps(s.maxQueue, s.log, s.cons[i], s.pubs[p].ev);
        }
      case Handle(c) =>
        HandleKeeps(s.maxQueue, s.log, s.cons[c]);
      case Check(c) =>
        CheckKeeps(s.maxQueue, s.log, s.cons[c]);
      case _ =>
    }
  }

  /** A thread holds the mutex after a step if it held it before, or found it free. */
  lemma Holders(s: State, st: Step)
    requires Enabled(s, st)
    ensures var t := Apply(s, st);
            && (forall i :: 0 <= i < |t.cons| && t.cons[i].phase == Deciding ==>
                  (i < |s.cons| && s.cons[i].phase == Deciding) || (LockFree(s) && st == Check(i)))
            && (forall i :: 0 <= i < |t.pubs| && t.pubs[i].PubDeciding? ==>
                  s.pubs[i].PubDeciding? || (LockFree(s) && st == PubCheck(i)))
  {
  }

  lemma MutexKept(s: State, st: Step)
    requires Inv(s) && Enabled(s, st)
    ensures var t := Apply(s, st);
            && (forall i, j :: 0 <= i < j < |t.cons| ==> !(t.cons[i].phase == Deciding && t.cons[j].phase == Deciding))
            && (forall i, j :: 0 <= i < j < |t.pubs| ==> !(t.pubs[i].PubDeciding? && t.pubs[j].PubDeciding?))
            && (forall i, j :: 0 <= i < |t.cons| && 0 <= j < |t.pubs| ==> !(t.cons[i].phase == Deciding && t.pubs[j].PubDeciding?))
  {
    Holders(s, st);
    assert LockFree(s) ==> forall i :: 0 <= i < |s.cons| ==> s.cons[i].phase != Deciding;
    assert LockFree(s) ==> forall i :: 0 <= i < |s.pubs| ==> !s.pubs[i].PubDeciding?;
  }

  /** While a publisher holds the mutex no queue changes, so it stays blocked. */
  lemma DecisionStands(s: State, st: Step)
    requires Inv(s) && Enabled(s, st)
    ensures forall p <- Apply(s, st).pubs :: p.PubDeciding? ==> Blocked(Apply(s, st))
  {
    var t := Apply(s, st);
    if p :| 0 <= p < |t.pubs| && t.pubs[p].PubDeciding? {
      Holders(s, st);
      if s.pubs[p].PubDeciding? {
        assert s.pubs[p] in s.pubs;
      }
      assert Blocked(s);
      if s.maxQueue > 0 {
        var i :| 0 <= i < |s.cons| && s.cons[i].subscribed && |s.cons[i].queue| >= s.maxQueue;
        assert t.cons[i].subscribed && |t.cons[i].queue| >= t.maxQueue;
      }
    }
  }

  lemma InvStep(s: State, st: Step)
    requires Inv(s) && Enabled(s, st)
    ensures Inv(Apply(s, st))
  {
    var t := Apply(s, st);
    forall i | 0 <= i < |t.cons| ensures ConsumerInv(t.maxQueue, t.log, t.cons[i]) {
      ConsumersKept(s, st, i);
    }
    MutexKept(s, st);
    DecisionStands(s, st);
    if p :| p in t.pubs && p.PubParked? {
      assert !Wakes(s, st) && WakerExists(s);
      WakerStays(s, st);
    }
  }

  lemma {:induction false} InvRun(s: State, steps: seq<Step>)
    requires Inv(s) && Runs(s, steps)
    ensures Inv(End(s, steps))
    decreases |steps|
  {
    if steps == [] {
    } else {
      InvStep(s, steps[0]);
      InvRun(Apply(s, steps[0]), steps[1..]);
    }
  }

  /** Every interleaving of Add, Del, Publish and the two loops keeps the invariant. */
  lemma ReachableInv(s: State)
    requires Reachable(s)
    ensures Inv(s)
  {
    var s0, steps :| Init(s0) && Runs(s0, steps) && End(s0, steps) == s;
    InvRun(s0, steps);
  }

  /** What a step leaves in a consumer's memory, as the group on the heap sees it. */
  ghost predicate SameMemory(c: Consumer, d: Consumer) {
    d.queue == c.queue && d.pending == c.pending && d.stop == c.stop && (d.phase.Working? ==> d.phase == c.phase)
  }

  /** A pass of Broadcast: one event more in a subscriber's queue if nobody was full. */
  lemma PassAt(s: State, p: nat, i: nat)
    requires Enabled(s, PubCheck(p)) && i < |s.cons|
    ensures var t := Apply(s, PubCheck(p));
            && t.maxQueue == s.maxQueue && |t.cons| == |s.cons| && t.cons[i].subscribed == s.cons[i].subscribed
            && SameMemory(s.cons[i].(queue := s.cons[i].queue + (if s.cons[i].subscribed && !Blocked(s) then [s.pubs[p].ev] else [])),
                          t.cons[i])
  {
  }

  lemma PassSizes(s: State, p: nat)
    requires Enabled(s, PubCheck(p))
    ensures var t := Apply(s, PubCheck(p)); t.maxQueue == s.maxQueue && |t.cons| == |s.cons|
  {
  }

  /** Del: one stop flag, one subscription. */
  lemma DelAt(s: State, c: nat, i: nat)
    requires Enabled(s, Del(c)) && i < |s.cons|
    ensures var t := Apply(s, Del(c));
            && t.maxQueue == s.maxQueue && |t.cons| == |s.cons|
            && t.cons[i].subscribed == (s.cons[i].subscribed && i != c)
            && SameMemory(s.cons[i].(stop := s.cons[i].stop || i == c), t.cons[i])
  {
  }

  // ------------------------------------------------------------ safety

  /** Exactly-once, in-order delivery: what a consumer has handled, is handling and
      has queued is the contiguous part of the log from its Add to its Del; nothing
      is queued beyond the bound, and a listener that returned has handled it all. */
  lemma DeliveryIsExact(s: State, i: nat)
    requires Reachable(s) && i < |s.cons|
    ensures var c := s.cons[i];
            && c.born <= Upto(s.log, c) <= |s.log|
            && c.handled + Rest(c) + c.queue == Owed(s.log, c)
            && c.handled <= Owed(s.log, c)
            && (c.queue != [] ==> |c.queue| <= s.maxQueue)
            && (c.phase == Exited ==> c.stop && c.handled == Owed(s.log, c))
  {
    ReachableInv(s);
    var c := s.cons[i];
    assert c.handled + Rest(c) + c.queue == c.handled + (Rest(c) + c.queue);
  }

  /** No lost wakeup.  A listener asleep has nothing to do; a publisher asleep has a
      subscriber that is full and runnable or is still to announce. */
  lemma NoLostWakeup(s: State)
    requires Reachable(s)
    ensures forall c <- s.cons :: c.phase == Parked ==> c.queue == [] && !c.stop && c.subscribed
    ensures s.maxQueue >= 1 && (exists p <- s.pubs :: p.PubParked?) ==>
              exists c <- s.cons :: c.subscribed && (c.phase.Working? || (c.phase == Waiting && |c.queue| == s.maxQueue))
  {
    ReachableInv(s);
    if s.maxQueue >= 1 && exists p <- s.pubs :: p.PubParked? {
      var i :| 0 <= i < |s.cons| && s.cons[i].subscribed
               && (|s.cons[i].queue| >= s.maxQueue || s.cons[i].phase.Working?);
      assert ConsumerInv(s.maxQueue, s.log, s.cons[i]);
      assert s.cons[i] in s.cons;
    }
  }

  // ------------------------------------------------------------ progress

  predicate Internal(st: Step) {
    !st.Add? && !st.Del? && !st.Publish?
  }

  /** Every Publish has returned and every listener is asleep or gone, owing nothing. */
  ghost predicate Drained(s: State) {
    && (forall i :: 0 <= i < |s.pubs| ==> s.pubs[i].Idle?)
    && (forall i :: 0 <= i < |s.cons| ==>
          && s.cons[i].phase in {Parked, Exited}
          && s.cons[i].born <= Upto(s.log, s.cons[i]) <= |s.log|
          && s.cons[i].handled == Owed(s.log, s.cons[i]))
  }

  lemma LockHolderMoves(s: State) returns (st: Step)
    requires !LockFree(s)
    ensures Internal(st) && Enabled(s, st)
  {
    if i :| 0 <= i < |s.cons| && s.cons[i].phase == Deciding {
      st := Park(i);
    } else {
      assert exists i :: 0 <= i < |s.pubs| && s.pubs[i].PubDeciding?;
      var i :| 0 <= i < |s.pubs| && s.pubs[i].PubDeciding?;
      st := PubPark(i);
    }
  }

  /** A listener that is not asleep and not gone can move. */
  lemma ListenerMoves(s: State, i: nat) returns (st: Step)
    requires i < |s.cons| && s.cons[i].phase !in {Parked, Exited} && LockFree(s)
    ensures Internal(st) && Enabled(s, st)
  {
    var c := s.cons[i];
    assert c in s.cons;
    if c.phase == Waiting {
      st := Check(i);
    } else if c.phase.done < |c.pending| {
      st := Handle(i);
    } else {
      st := Announce(i);
    }
  }

  /** Deadlock freedom: unless everything is delivered and handled, a thread can move. */
  lemma ProgressOrDrained(s: State) returns (st: Step)
    requires Inv(s) && s.maxQueue >= 1 && !Drained(s)
    ensures Internal(st) && Enabled(s, st)
  {
    if !LockFree(s) {
      st := LockHolderMoves(s);
    } else if i :| 0 <= i < |s.cons| && s.cons[i].phase !in {Parked, Exited} {
      st := ListenerMoves(s, i);
    } else {
      forall i | 0 <= i < |s.cons|
        ensures s.cons[i].born <= Upto(s.log, s.cons[i]) <= |s.log| && s.cons[i].handled == Owed(s.log, s.cons[i])
      {
        assert ConsumerInv(s.maxQueue, s.log, s.cons[i]);
      }
      var p :| 0 <= p < |s.pubs| && !s.pubs[p].Idle?;
      assert WakerExists(s) ==> s.maxQueue <= 0;
      st := PubCheck(p);
    }
  }

  /** Deadlock freedom as an equivalence: a group is at rest exactly when it is drained. */
  lemma QuietIffDrained(s: State)
    requires Reachable(s) && s.maxQueue >= 1
    ensures Drained(s) <==> forall st | Internal(st) :: !Enabled(s, st)
  {
    ReachableInv(s);
    if !Drained(s) {
      var st := ProgressOrDrained(s);
    }
  }

  // ------------------------------------------------------------ every internal run is finite

  function Bag(p: Publisher): multiset<Event> {
    if p.Idle? then multiset{} else multiset{p.ev}
  }

  lemma Cancel(a: multiset<Event>, b: multiset<Event>, c: multiset<Event>)
    requires a + c == b + c
    ensures a == b
  {
    forall e ensures a[e] == b[e] {
      assert (a + c)[e] == (b + c)[e];
    }
  }

  /** The events of the Publish calls that have not returned. */
  function Unsent(pubs: seq<Publisher>): multiset<Event> {
    if pubs == [] then multiset{} else Bag(pubs[0]) + Unsent(pubs[1..])
  }

  function Load(c: Consumer): nat {
    3 * |c.queue| + |Rest(c)| + (if c.phase.Working? then 1 else 0)
  }

  function TotalLoad(cons: seq<Consumer>): nat {
    if cons == [] then 0 else Load(cons[0]) + TotalLoad(cons[1..])
  }

  function Restless(c: Consumer): nat {
    if c.phase == Waiting then 2 else if c.phase == Deciding then 1 else 0
  }

  function RestlessPub(p: Publisher): nat {
    if p.PubWaiting? then 2 else if p.PubDeciding? then 1 else 0
  }

  function Unrest(cons: seq<Consumer>): nat {
    if cons == [] then 0 else Restless(cons[0]) + Unrest(cons[1..])
  }

  function UnrestPubs(pubs: seq<Publisher>): nat {
    if pubs == [] then 0 else RestlessPub(pubs[0]) + UnrestPubs(pubs[1..])
  }

  lemma {:induction false} ConsumerSums(cons: seq<Consumer>, i: nat, c: Consumer)
    requires i < |cons|
    ensures TotalLoad(cons[i := c]) == TotalLoad(cons) - Load(cons[i]) + Load(c)
    ensures Unrest(cons[i := c]) == Unrest(cons) - Restless(cons[i]) + Restless(c)
  {
    if i == 0 {
      assert cons[i := c][1..] == cons[1..];
    } else {
      ConsumerSums(cons[1..], i - 1, c);
      assert cons[i := c][1..] == cons[1..][i - 1 := c];
    }
  }

  lemma AddBag(x: multiset<Event>, a: multiset<Event>, b: multiset<Event>, c: multiset<Event>, d: multiset<Event>)
    requires a + b == c + d
    ensures (x + a) + b == (x + c) + d
  {
    assert (x + a) + b == x + (a + b);
    assert (x + c) + d == x + (c + d);
  }

  lemma {:induction false} UnsentUpdate(pubs: seq<Publisher>, i: nat, p: Publisher)
    requires i < |pubs|
    ensures Unsent(pubs[i := p]) + Bag(pubs[i]) == Unsent(pubs) + Bag(p)
  {
    if i == 0 {
      assert pubs[i := p][1..] == pubs[1..];
    } else {
      UnsentUpdate(pubs[1..], i - 1, p);
      assert pubs[i := p][1..] == pubs[1..][i - 1 := p];
      AddBag(Bag(pubs[0]), Unsent(pubs[1..][i - 1 := p]), Bag(pubs[i]), Unsent(pubs[1..]), Bag(p));
    }
  }

  lemma {:induction false} UnrestPubsUpdate(pubs: seq<Publisher>, i: nat, p: Publisher)
    requires i < |pubs|
    ensures UnrestPubs(pubs[i := p]) == UnrestPubs(pubs) - RestlessPub(pubs[i]) + RestlessPub(p)
  {
    if i == 0 {
      assert pubs[i := p][1..] == pubs[1..];
    } else {
      UnrestPubsUpdate(pubs[1..], i - 1, p);
      assert pubs[i := p][1..] == pubs[1..][i - 1 := p];
    }
  }

  lemma {:induction false} LoadGrows(a: seq<Consumer>, b: seq<Consumer>, offered: bool)
    requires |a| == |b| && forall i :: 0 <= i < |a| ==> Load(b[i]) <= Load(a[i]) + (if offered then 3 else 0)
    ensures TotalLoad(b) <= TotalLoad(a) + (if offered then 3 * |a| else 0)
  {
    if a == [] {
    } else {
      LoadGrows(a[1..], b[1..], offered);
    }
  }

  lemma {:induction false} UnrestBounded(cons: seq<Consumer>, pubs: seq<Publisher>)
    ensures Unrest(cons) <= 2 * |cons| && UnrestPubs(pubs) <= 2 * |pubs|
  {
    if cons != [] { UnrestBounded(cons[1..], pubs); }
    else if pubs != [] { UnrestBounded(cons, pubs[1..]); }
  }

  lemma {:induction false} UnsentSame(a: seq<Publisher>, b: seq<Publisher>)
    requires |a| == |b| && forall i :: 0 <= i < |a| ==> Bag(a[i]) == Bag(b[i])
    ensures Unsent(a) == Unsent(b)
  {
    if a != [] { UnsentSame(a[1..], b[1..]); }
  }

  /** What is still to be done, most significant first: publishes that have not
      returned, events in buffers, threads about to look at the state. */
  function Measure(s: State): nat {
    Rank(|Unsent(s.pubs)|, TotalLoad(s.cons), Unrest(s.cons) + UnrestPubs(s.pubs),
         3 * |s.cons| + 1, 2 * (|s.cons| + |s.pubs|) + 1)
  }

  /** n * k, by addition (keeps the proofs below linear). */
  function Times(n: nat, k: nat): nat {
    if n == 0 then 0 else Times(n - 1, k) + k
  }

  function Rank(u: nat, x: nat, w: nat, k: nat, r: nat): nat {
    Times(Times(u, k) + x, r) + w
  }

  lemma {:induction false} TimesGap(m: nat, n: nat, k: nat)
    requires m < n
    ensures Times(m, k) + k <= Times(n, k)
  {
    if m + 1 < n {
      TimesGap(m, n - 1, k);
    }
  }

  /** (u, x, w) falls lexicographically, x growing by less than k when u falls, w below r. */
  lemma RankFalls(u: nat, x: nat, w: nat, u': nat, x': nat, w': nat, k: nat, r: nat)
    requires w' < r
    requires (u' < u && x' < x + k) || (u' == u && x' < x) || (u' == u && x' == x && w' < w)
    ensures Rank(u', x', w', k, r) < Rank(u, x, w, k, r)
  {
    if u' < u {
      TimesGap(u', u, k);
    }
    var a, b := Times(u, k) + x, Times(u', k) + x';
    if b < a {
      TimesGap(b, a, r);
    }
  }

  ghost predicate Closer(s: State, t: State) {
    && |s.cons| == |t.cons| && |s.pubs| == |t.pubs|
    && ( || (|Unsent(t.pubs)| < |Unsent(s.pubs)| && TotalLoad(t.cons) <= TotalLoad(s.cons) + 3 * |s.cons|)
         || (|Unsent(t.pubs)| == |Unsent(s.pubs)| && TotalLoad(t.cons) < TotalLoad(s.cons))
         || (|Unsent(t.pubs)| == |Unsent(s.pubs)| && TotalLoad(t.cons) == TotalLoad(s.cons)
             && Unrest(t.cons) + UnrestPubs(t.pubs) < Unrest(s.cons) + UnrestPubs(s.pubs)))
  }

  lemma MeasureFalls(s: State, t: State)
    requires Closer(s, t)
    ensures Measure(t) < Measure(s)
  {
    UnrestBounded(t.cons, t.pubs);
    RankFalls(|Unsent(s.pubs)|, TotalLoad(s.cons), Unrest(s.cons) + UnrestPubs(s.pubs),
              |Unsent(t.pubs)|, TotalLoad(t.cons), Unrest(t.cons) + UnrestPubs(t.pubs),
              3 * |s.cons| + 1, 2 * (|s.cons| + |s.pubs|) + 1);
  }

  /** An unsent event either stays unsent or is appended to the log. */
  ghost predicate NothingLost(s: State, t: State) {
    s.log <= t.log && multiset(t.log) + Unsent(t.pubs) == multiset(s.log) + Unsent(s.pubs)
  }

  lemma OneSent(pubs: seq<Publisher>, p: nat, after: seq<Publisher>)
    requires p < |pubs| && !pubs[p].Idle? && |after| == |pubs|
    requires forall i :: 0 <= i < |pubs| ==> Bag(after[i]) == (if i == p then multiset{} else Bag(pubs[i]))
    ensures Unsent(after) + multiset{pubs[p].ev} == Unsent(pubs)
    ensures |Unsent(after)| + 1 == |Unsent(pubs)|
  {
    UnsentUpdate(pubs, p, Idle);
    UnsentSame(pubs[p := Idle], after);
  }

  lemma SendingUnloads(s: State, p: nat)
    requires Enabled(s, PubCheck(p)) && !Blocked(s)
    ensures var t := Apply(s, PubCheck(p));
            |Unsent(t.pubs)| < |Unsent(s.pubs)| && Unsent(t.pubs) + multiset{s.pubs[p].ev} == Unsent(s.pubs)
  {
    OneSent(s.pubs, p, Apply(s, PubCheck(p)).pubs);
  }

  lemma SendingLoads(s: State, p: nat)
    requires Enabled(s, PubCheck(p)) && !Blocked(s)
    ensures TotalLoad(Apply(s, PubCheck(p)).cons) <= TotalLoad(s.cons) + 3 * |s.cons|
  {
    LoadGrows(s.cons, Apply(s, PubCheck(p)).cons, true);
  }

  lemma SendingProgresses(s: State, p: nat)
    requires Enabled(s, PubCheck(p)) && !Blocked(s)
    ensures var t := Apply(s, PubCheck(p)); Closer(s, t) && NothingLost(s, t)
  {
    var t, ev := Apply(s, PubCheck(p)), s.pubs[p].ev;
    SendingUnloads(s, p);
    SendingLoads(s, p);
    assert t.log == s.log + [ev] && |t.cons| == |s.cons| && |t.pubs| == |s.pubs|;
  }

  lemma DecidingProgresses(s: State, p: nat, q: Publisher)
    requires p < |s.pubs| && Bag(q) == Bag(s.pubs[p]) && RestlessPub(q) < RestlessPub(s.pubs[p])
    ensures var t := s.(pubs := s.pubs[p := q]); Closer(s, t) && NothingLost(s, t)
  {
    UnsentUpdate(s.pubs, p, q);
    UnrestPubsUpdate(s.pubs, p, q);
    Cancel(Unsent(s.pubs[p := q]), Unsent(s.pubs), Bag(q));
  }

  lemma AnnounceProgresses(s: State, c: nat)
    requires Enabled(s, Announce(c)) && s.cons[c].phase.done <= |s.cons[c].pending|
    ensures var t := Apply(s, Announce(c)); Closer(s, t) && NothingLost(s, t)
  {
    var t := Apply(s, Announce(c));
    var ended := s.cons[c := s.cons[c].(phase := Waiting)];
    ConsumerSums(s.cons, c, ended[c]);
    LoadGrows(ended, t.cons, false);
    UnsentSame(s.pubs, t.pubs);
  }

  lemma ListenerProgresses(s: State, c: nat, d: Consumer)
    requires c < |s.cons|
    requires Load(d) < Load(s.cons[c]) || (Load(d) == Load(s.cons[c]) && Restless(d) < Restless(s.cons[c]))
    ensures var t := s.(cons := s.cons[c := d]); Closer(s, t) && NothingLost(s, t)
  {
    ConsumerSums(s.cons, c, d);
  }

  lemma InternalStepProgresses(s: State, st: Step)
    requires Inv(s) && Enabled(s, st) && Internal(st)
    ensures Measure(Apply(s, st)) < Measure(s) && NothingLost(s, Apply(s, st))
  {
    var t := Apply(s, st);
    match st {
      case PubCheck(p) =>
        if Blocked(s) {
          DecidingProgresses(s, p, t.pubs[p]);
        } else {
          SendingProgresses(s, p);
        }
      case PubPark(p) =>
        DecidingProgresses(s, p, t.pubs[p]);
      case Announce(c) =>
        assert ConsumerInv(s.maxQueue, s.log, s.cons[c]);
        AnnounceProgresses(s, c);
      case Check(c) => ListenerProgresses(s, c, t.cons[c]);
      case Park(c) => ListenerProgresses(s, c, t.cons[c]);
      case Handle(c) => ListenerProgresses(s, c, t.cons[c]);
      case _ => assert false;
    }
    MeasureFalls(s, t);
  }

  /** Left alone, the group comes to rest under EVERY scheduler, fair or not, within a
      bound read off the starting state; when nothing can move any more, every event
      whose Publish was in progress is in the log and every consumer has handled
      exactly what it is owed. */
  lemma {:induction false} EveryInternalRunDrains(s: State, steps: seq<Step>)
    requires Inv(s) && s.maxQueue >= 1 && Runs(s, steps) && forall st <- steps :: Internal(st)
    ensures |steps| <= Measure(s)
    ensures var t := End(s, steps);
            (forall st | Internal(st) :: !Enabled(t, st)) ==>
              Drained(t) && s.log <= t.log && multiset(t.log) == multiset(s.log) + Unsent(s.pubs)
    decreases |steps|
  {
    if steps == [] {
      if !Drained(s) {
        var st := ProgressOrDrained(s);
      } else {
        AllIdle(s.pubs);
      }
    } else {
      InternalStepProgresses(s, steps[0]);
      InvStep(s, steps[0]);
      EveryInternalRunDrains(Apply(s, steps[0]), steps[1..]);
    }
  }

  /** So from every reachable state of a group with a positive bound. */
  lemma GroupDrains(s: State, steps: seq<Step>)
    requires Reachable(s) && s.maxQueue >= 1 && Runs(s, steps) && forall st <- steps :: Internal(st)
    ensures |steps| <= Measure(s)
    ensures (forall st | Internal(st) :: !Enabled(End(s, steps), st)) ==>
              Drained(End(s, steps)) && multiset(End(s, steps).log) == multiset(s.log) + Unsent(s.pubs)
  {
    ReachableInv(s);
    EveryInternalRunDrains(s, steps);
  }

  lemma {:induction false} AllIdle(pubs: seq<Publisher>)
    requires forall i :: 0 <= i < |pubs| ==> pubs[i].Idle?
    ensures Unsent(pubs) == multiset{}
  {
    if pubs != [] { AllIdle(pubs[1..]); }
  }

  // ------------------------------------------------------------ a bound below one

  lemma {:induction false} NothingSent(s: State, steps: seq<Step>)
    requires s.maxQueue <= 0 && Runs(s, steps)
    ensures End(s, steps).log == s.log && End(s, steps).maxQueue == s.maxQueue
    decreases |steps|
  {
    if steps == [] {
    } else {
      NothingSent(Apply(s, steps[0]), steps[1..]);
    }
  }

  lemma TwoSteps(s: State, st0: Step, st1: Step)
    requires Enabled(s, st0) && Enabled(Apply(s, st0), st1)
    ensures Runs(s, [st0, st1]) && End(s, [st0, st1]) == Apply(Apply(s, st0), st1)
  {
    var s1, last := Apply(s, st0), [st1];
    assert last[1..] == [] && Runs(Apply(s1, st1), []);
    assert Runs(s1, last) && End(s1, last) == End(Apply(s1, st1), []);
    assert [st0, st1][1..] == last;
  }

  /** Only `p` publishes. */
  predicate OnlyBy(p: nat, steps: seq<Step>) {
    forall st <- steps :: st.Publish? ==> st.p == p
  }

  /** The bound must be at least one: a Publish can return in some run of a group
      with n >= 1 publishers exactly when maxQueue >= 1, whoever publishes and whatever.
      (NewDispatcherConfig accepts any bound; below one every publisher sleeps forever.) */
  lemma PublishReturnsIffBoundPositive(s0: State, p: nat, ev: Event)
    requires Init(s0) && p < |s0.pubs|
    ensures s0.maxQueue >= 1 <==> exists steps :: Runs(s0, steps) && End(s0, steps).log == [ev] && OnlyBy(p, steps)
  {
    if s0.maxQueue >= 1 {
      var st0, st1 := Publish(p, ev), PubCheck(p);
      assert s0.pubs[p] in s0.pubs;
      var s1 := Apply(s0, st0);
      assert forall q <- s1.pubs :: q in s0.pubs || q == PubWaiting(ev);
      TwoSteps(s0, st0, st1);
      assert End(s0, [st0, st1]).log == [ev] && OnlyBy(p, [st0, st1]);
    } else {
      forall steps | Runs(s0, steps) ensures End(s0, steps).log == [] {
        NothingSent(s0, steps);
      }
    }
  }
}
