/** The event group on the heap: Go slices as backing arrays with a length, consumers
    as objects whose two buffers are swapped in place.  Every method is one region of
    event/event.go that runs without another thread in between, and is proved to take
    exactly one step of EventProtocol. */
module EventGroup {
  import P = EventProtocol

  type Event = P.Event

  class Listener {
    // consumer.queue
    var queueBuf: array<Event>
    var queueLen: nat
    // Listen's local `pending`, and how far its handler loop has come
    var pendingBuf: array<Event>
    var pendingLen: nat
    var done: nat
    var stop: bool

    ghost predicate Valid()
      reads this
    {
      && queueLen <= queueBuf.Length
      && pendingLen <= pendingBuf.Length
      && done <= pendingLen
      && queueBuf != pendingBuf
    }

    ghost function Queue(): seq<Event>
      requires Valid()
      reads this, queueBuf
    {
      queueBuf[..queueLen]
    }

    ghost function Pending(): seq<Event>
      requires Valid()
      reads this, pendingBuf
    {
      pendingBuf[..pendingLen]
    }

    constructor ()
      ensures Valid() && Queue() == [] && Pending() == [] && !stop && done == 0
      ensures fresh(queueBuf) && fresh(pendingBuf)
    {
      queueBuf, queueLen := new Event[64], 0;
      pendingBuf, pendingLen := new Event[128], 0;
      done, stop := 0, false;
    }

    /** `queue = append(queue, ev)`: in place while there is room, else into a new array.
        The batch that a handler may be reading outside the mutex is untouched. */
    method Append(ev: Event)
      requires Valid()
      modifies this`queueBuf, this`queueLen, queueBuf
      ensures Valid()
      ensures Queue() == old(Queue()) + [ev]
      ensures Pending() == old(Pending())
      ensures queueLen == old(queueLen) + 1 && (queueBuf == old(queueBuf) || fresh(queueBuf))
    {
      if queueLen == queueBuf.Length {
        var grown := new Event[2 * queueBuf.Length + 1];
        forall i | 0 <= i < queueLen {
          grown[i] := queueBuf[i];
        }
        assert grown[..queueLen] == queueBuf[..queueLen];
        queueBuf := grown;
      }
      queueBuf[queueLen] := ev;
      queueLen := queueLen + 1;
    }

    /** `temp := queue; queue = pending[:0]; pending = temp`. */
    method Swap()
      requires Valid()
      modifies this`queueBuf, this`queueLen, this`pendingBuf, this`pendingLen, this`done
      ensures Valid()
      ensures Queue() == [] && Pending() == old(Queue()) && done == 0
      ensures queueBuf == old(pendingBuf) && pendingBuf == old(queueBuf)
    {
      queueBuf, queueLen, pendingBuf, pendingLen, done := pendingBuf, 0, queueBuf, queueLen, 0;
    }
  }

  /** The maximum of the queue lengths. */
  ghost function Longest(ls: seq<Listener>): nat
    reads ls
  {
    if ls == [] then 0
    else
      var rest, last := Longest(ls[..|ls| - 1]), ls[|ls| - 1].queueLen;
      if last > rest then last else rest
  }

  class Group {
    const maxQueue: int
    var subs: seq<Listener>
    var maxLen: nat

    // every consumer ever added, and the protocol state they stand for
    ghost var all: seq<Listener>
    ghost var model: P.State

    /** No two slices share a backing array. */
    ghost predicate Separate()
      reads this, all
    {
      && (forall i, j :: 0 <= i < j < |all| ==> all[i] != all[j])
      && (forall l, m :: l in all && m in all && l != m ==>
            && l.queueBuf != m.queueBuf
            && l.queueBuf != m.pendingBuf
            && l.pendingBuf != m.pendingBuf)
    }

    ghost predicate Matches(l: Listener, c: P.Consumer)
      reads l, l.queueBuf, l.pendingBuf
    {
      && l.Valid()
      && l.Queue() == c.queue
      && l.Pending() == c.pending
      && l.stop == c.stop
      && (c.phase.Working? ==> l.done == c.phase.done)
    }

    /** The group by itself: no protocol state involved. */
    ghost predicate HeapValid()
      reads this, all
    {
      && Separate()
      && (forall l <- all :: l.Valid())
      && (forall l <- subs :: l in all)
      && (forall i, j :: 0 <= i < j < |subs| ==> subs[i] != subs[j])
    }

    /** The memory of the group is what the protocol state `s` says. */
    ghost predicate Mirrors(s: P.State)
      reads this, all, set l <- all :: l.queueBuf, set l <- all :: l.pendingBuf
    {
      && |all| == |s.cons| && s.maxQueue == maxQueue
      && (forall i :: 0 <= i < |all| ==> Matches(all[i], s.cons[i]))
      && (forall i :: 0 <= i < |all| ==> (all[i] in subs <==> s.cons[i].subscribed))
    }

    /** The group stands for `model`, which satisfies the protocol's invariant. */
    ghost predicate Valid()
      reads this, all, set l <- all :: l.queueBuf, set l <- all :: l.pendingBuf
    {
      HeapValid() && Mirrors(model) && P.Inv(model)
    }

    constructor (maxQueue: int, ghost publishers: nat)
      ensures Valid() && this.maxQueue == maxQueue && all == []
      ensures P.Init(model) && |model.pubs| == publishers
    {
      this.maxQueue := maxQueue;
      subs, maxLen := [], 0;
      all := [];
      model := P.State(maxQueue, [], seq(publishers, _ => P.Idle), []);
    }

    ghost predicate Full()
      requires HeapValid()
      reads this, all, set l <- all :: l.queueBuf, set l <- all :: l.pendingBuf
    {
      maxQueue <= 0 || exists l :: l in subs && |l.Queue()| >= maxQueue
    }

    lemma {:induction false} LongestReaches(ls: seq<Listener>, n: int)
      ensures Longest(ls) >= n <==> n <= 0 || exists l :: l in ls && l.queueLen >= n
    {
      if ls == [] {
      } else {
        var init, last := ls[..|ls| - 1], ls[|ls| - 1];
        LongestReaches(init, n);
        assert forall l :: l in ls <==> l in init || l == last;
      }
    }

    lemma LongestByIndex(ls: seq<Listener>)
      ensures forall k :: 0 <= k < |ls| ==>
                Longest(ls[..k + 1]) == if ls[k].queueLen > Longest(ls[..k]) then ls[k].queueLen else Longest(ls[..k])
    {
      assert forall k :: 0 <= k < |ls| ==> ls[..k + 1][..k] == ls[..k];
    }

    /** Longest queue among the subscribers: Broadcast's inner loop. */
    method LongestQueue() returns (longest: nat)
      requires HeapValid()
      ensures longest == Longest(subs)
    {
      longest := 0;
      var k := 0;
      while k < |subs|
        invariant 0 <= k <= |subs|
        invariant longest == Longest(subs[..k])
      {
        assert subs[..k + 1][..k] == subs[..k];
        if subs[k].queueLen > longest {
          longest := subs[k].queueLen;
        }
        k := k + 1;
      }
      assert subs[..k] == subs;
    }

    lemma FullIffLongest()
      requires HeapValid()
      ensures Longest(subs) >= maxQueue <==> Full()
    {
      LongestReaches(subs, maxQueue);
      assert forall l <- subs :: l in all && |l.Queue()| == l.queueLen;
    }

    lemma FullIffBlocked(s: P.State)
      requires HeapValid() && Mirrors(s)
      ensures Full() <==> P.Blocked(s)
    {
      if maxQueue > 0 {
        if Full() {
          var l :| l in subs && |l.Queue()| >= maxQueue;
          var i :| 0 <= i < |all| && all[i] == l;
          assert s.cons[i].subscribed && |s.cons[i].queue| >= s.maxQueue;
        }
        if P.Blocked(s) {
          var i :| 0 <= i < |s.cons| && s.cons[i].subscribed && |s.cons[i].queue| >= s.maxQueue;
          assert Matches(all[i], s.cons[i]) && all[i] in subs;
        }
      }
    }

    /** Appending to one queue leaves every other slice as it was. */
    method AppendTo(l: Listener, ev: Event)
      requires HeapValid() && l in all
      modifies l`queueBuf, l`queueLen, l.queueBuf
      ensures HeapValid()
      ensures forall m <- all :: m.Pending() == old(m.Pending())
      ensures forall m <- all :: m.Queue() == old(m.Queue()) + (if m == l then [ev] else [])
      ensures l.queueLen == old(l.queueLen) + 1 && (l.queueBuf == old(l.queueBuf) || fresh(l.queueBuf))
    {
      l.Append(ev);
      forall m | m in all && m != l
        ensures m.Valid() && m.Pending() == old(m.Pending()) && m.Queue() == old(m.Queue()) + []
      {
      }
    }

    /** Broadcast's last loop: append the event to every subscriber's queue. */
    method AppendToAll(ev: Event)
      requires HeapValid()
      modifies this`maxLen, all`queueBuf, all`queueLen, set l <- all :: l.queueBuf
      ensures HeapValid()
      ensures forall l <- all :: l.Pending() == old(l.Pending())
      ensures forall l <- all :: l.Queue() == old(l.Queue()) + (if l in subs then [ev] else [])
      ensures maxLen == if subs == [] then 0 else old(Longest(subs)) + 1
    {
      LongestByIndex(subs);
      var newMax := 0;
      var k := 0;
      while k < |subs|
        invariant 0 <= k <= |subs|
        invariant HeapValid()
        invariant forall l <- all ::
                    l.Pending() == old(l.Pending()) && l.Queue() == old(l.Queue()) + (if l in subs[..k] then [ev] else [])
        invariant forall l <- all :: l !in subs[..k] ==> l.queueBuf == old(l.queueBuf)
        invariant newMax == if k == 0 then 0 else old(Longest(subs[..k])) + 1
      {
        var l := subs[k];
        assert l in all && l !in subs[..k];
        assert subs[..k + 1] == subs[..k] + [l];
        AppendTo(l, ev);
        if l.queueLen > newMax {
          newMax := l.queueLen;
        }
        k := k + 1;
      }
      assert subs[..k] == subs;
      maxLen := newMax;
    }

    method Pass(ev: Event) returns (sent: bool)
      requires HeapValid()
      modifies this`maxLen, all`queueBuf, all`queueLen, set l <- all :: l.queueBuf
      ensures HeapValid()
      ensures sent == !old(Full())
      ensures maxLen == if sent && subs != [] then old(Longest(subs)) + 1 else old(Longest(subs))
      ensures forall l <- all :: l.Pending() == old(l.Pending())
      ensures forall l <- all :: l.Queue() == old(l.Queue()) + (if sent && l in subs then [ev] else [])
    {
      FullIffLongest();
      maxLen := LongestQueue();
      sent := maxLen < maxQueue;
      if sent {
        AppendToAll(ev);
      }
    }

    /** The pass on the heap is the pass of the protocol. */
    method PassStep(ghost s: P.State, ghost p: nat, ev: Event) returns (sent: bool)
      requires HeapValid() && Mirrors(s)
      requires p < |s.pubs| && s.pubs[p] == P.PubWaiting(ev) && P.LockFree(s)
      modifies this`maxLen, all`queueBuf, all`queueLen, set l <- all :: l.queueBuf
      ensures HeapValid() && Mirrors(P.Apply(s, P.PubCheck(p)))
      ensures sent == !P.Blocked(s)
      ensures maxLen == if sent && subs != [] then old(Longest(subs)) + 1 else old(Longest(subs))
      ensures forall l <- all :: l.Pending() == old(l.Pending())
    {
      FullIffBlocked(s);
      label before:
      sent := Pass(ev);
      forall i | 0 <= i < |all|
        ensures var d := P.Apply(s, P.PubCheck(p)).cons[i]; Matches(all[i], d) && (all[i] in subs <==> d.subscribed)
      {
        P.PassAt(s, p, i);
        assert all[i] in all && old@before(Matches(all[i], s.cons[i]));
      }
      P.PassSizes(s, p);
    }

    /** One pass of Broadcast under the mutex, by publisher `p`: measure the queues and
        either go on to sleep or append the event to every queue and wake everyone. */
    method BroadcastPass(ghost p: nat, ev: Event) returns (sent: bool)
      requires Valid() && p < |model.pubs| && model.pubs[p] == P.PubWaiting(ev) && P.LockFree(model)
      modifies this`model, this`maxLen, all`queueBuf, all`queueLen, set l <- all :: l.queueBuf
      ensures Valid()
      ensures model == P.Apply(old(model), P.PubCheck(p))
      ensures sent == !P.Blocked(old(model))
      ensures maxLen == if sent && subs != [] then old(Longest(subs)) + 1 else old(Longest(subs))
      ensures forall l <- all :: l.Pending() == old(l.Pending())
    {
      sent := PassStep(model, p, ev);
      Commit(P.PubCheck(p));
    }

    /** A new listener's arrays are shared with nobody. */
    method Enroll() returns (l: Listener)
      requires HeapValid()
      modifies this`subs, this`all
      ensures HeapValid() && fresh(l) && all == old(all) + [l] && subs == old(subs) + [l]
      ensures fresh(l.queueBuf) && fresh(l.pendingBuf)
      ensures l.Queue() == [] && l.Pending() == [] && !l.stop && l.done == 0
    {
      l := new Listener();
      assert l !in all && forall m <- all :: m.queueBuf != l.queueBuf;
      subs, all := subs + [l], all + [l];
    }

    /** Add: a new consumer with an empty queue joins the subscribers. */
    method AddConsumer() returns (l: Listener)
      requires Valid() && P.LockFree(model)
      modifies this`subs, this`all, this`model
      ensures Valid() && fresh(l) && all == old(all) + [l] && subs == old(subs) + [l]
      ensures model == P.Apply(old(model), P.Add)
    {
      ghost var next := P.Apply(model, P.Add);
      label before:
      l := Enroll();
      forall i | 0 <= i < |all|
        ensures Matches(all[i], next.cons[i]) && (all[i] in subs <==> next.cons[i].subscribed)
      {
        if i < |all| - 1 {
          assert all[i] in all && old@before(Matches(all[i], model.cons[i]));
          assert all[i] != l;
        }
      }
      Commit(P.Add);
    }

    /** Del's search-and-remove loop; an absent consumer changes nothing. */
    method RemoveSub(l: Listener)
      requires HeapValid()
      modifies this`subs
      ensures HeapValid()
      ensures forall m <- all :: m in subs <==> m in old(subs) && m != l
    {
      var i := 0;
      while i < |subs|
        invariant 0 <= i <= |subs| && subs == old(subs)
        invariant l !in subs[..i]
      {
        if subs[i] == l {
          subs := subs[..i] + subs[i + 1..];
          break;
        }
        i := i + 1;
      }
    }

    /** Every listener but `l` is as it was. */
    twostate predicate OthersUnchanged(l: Listener)
      requires old(HeapValid()) && HeapValid() && all == old(all)
      reads this, all, set m <- all :: m.queueBuf, set m <- all :: m.pendingBuf
    {
      forall m <- all :: m != l ==>
        m.stop == old(m.stop) && m.done == old(m.done) && m.Queue() == old(m.Queue()) && m.Pending() == old(m.Pending())
    }

    /** If the heap agrees with the state after `st`, the step has been taken. */
    ghost method Commit(st: P.Step)
      requires HeapValid() && P.Enabled(model, st) && P.Inv(model) && Mirrors(P.Apply(model, st))
      modifies this`model
      ensures Valid() && model == P.Apply(old(model), st)
    {
      P.InvStep(model, st);
      model := P.Apply(model, st);
    }

    method StopAndRemove(l: Listener)
      requires HeapValid() && l in all
      modifies this`subs, l`stop
      ensures HeapValid() && OthersUnchanged(l)
      ensures l.stop && l.done == old(l.done) && l.Queue() == old(l.Queue()) && l.Pending() == old(l.Pending())
      ensures forall m <- all :: m in subs <==> m in old(subs) && m != l
    {
      l.stop := true;
      RemoveSub(l);
    }

    /** Del: stop the consumer, drop it from the subscribers, wake everyone.  Calling
        the cancel function again is harmless. */
    method Del(l: Listener, ghost c: nat)
      requires Valid() && c < |all| && all[c] == l && P.LockFree(model)
      modifies this`subs, this`model, l`stop
      ensures Valid()
      ensures model == P.Apply(old(model), P.Del(c))
    {
      ghost var next := P.Apply(model, P.Del(c));
      label before:
      StopAndRemove(l);
      forall i | 0 <= i < |all|
        ensures Matches(all[i], next.cons[i]) && (all[i] in subs <==> next.cons[i].subscribed)
      {
        P.DelAt(model, c, i);
        assert all[i] in all && old@before(Matches(all[i], model.cons[i]));
      }
      Commit(P.Del(c));
    }

    method TakeBatch(l: Listener) returns (work: bool)
      requires HeapValid() && l in all
      modifies l
      ensures HeapValid() && OthersUnchanged(l) && l.stop == old(l.stop)
      ensures work == (old(l.Queue()) != [])
      ensures work ==> l.Queue() == [] && l.Pending() == old(l.Queue()) && l.done == 0 && l.queueBuf != l.pendingBuf
      ensures !work ==> l.Queue() == old(l.Queue()) && l.Pending() == old(l.Pending()) && l.done == old(l.done)
    {
      work := l.queueLen > 0;
      if work {
        l.Swap();
      }
    }

    /** The head of Listen's loop, under the mutex: leave, go to sleep, or take over the
        queue as the next batch and hand the old batch's array to the publishers. */
    method ListenCheck(l: Listener, ghost c: nat) returns (work: bool)
      requires Valid() && c < |all| && all[c] == l && model.cons[c].phase == P.Waiting && P.LockFree(model)
      modifies this`model, l
      ensures Valid()
      ensures model == P.Apply(old(model), P.Check(c))
      ensures work == (old(l.Queue()) != [])
      ensures work ==> l.Pending() == old(l.Queue()) && l.queueBuf != l.pendingBuf
    {
      ghost var next := P.Apply(model, P.Check(c));
      label before:
      assert Matches(l, model.cons[c]);
      work := TakeBatch(l);
      forall i | 0 <= i < |all|
        ensures Matches(all[i], next.cons[i])
      {
        assert all[i] in all && old@before(Matches(all[i], model.cons[i]));
      }
      Commit(P.Check(c));
    }

    method NextOfBatch(l: Listener) returns (ev: Event)
      requires HeapValid() && l in all && l.done < |l.Pending()|
      modifies l`done
      ensures HeapValid() && OthersUnchanged(l)
      ensures ev == old(l.Pending()[l.done]) && l.done == old(l.done) + 1
      ensures l.stop == old(l.stop) && l.Queue() == old(l.Queue()) && l.Pending() == old(l.Pending())
    {
      ev := l.pendingBuf[l.done];
      l.done := l.done + 1;
    }

    /** One handler call, outside the mutex, on the next event of the batch. */
    method ListenHandle(l: Listener, ghost c: nat) returns (ev: Event)
      requires Valid() && c < |all| && all[c] == l && model.cons[c].phase.Working? && model.cons[c].phase.done < |l.Pending()|
      modifies this`model, l`done
      ensures Valid()
      ensures model == P.Apply(old(model), P.Handle(c))
      ensures model.cons[c].handled == old(model.cons[c].handled) + [ev]
    {
      ghost var next := P.Apply(model, P.Handle(c));
      label before:
      assert Matches(l, model.cons[c]);
      ev := NextOfBatch(l);
      forall i | 0 <= i < |all|
        ensures Matches(all[i], next.cons[i])
      {
        assert all[i] in all && old@before(Matches(all[i], model.cons[i]));
      }
      Commit(P.Handle(c));
    }

    /** The steps that touch no consumer's memory: calling Publish, falling asleep,
        and the listener's cond.Broadcast after a batch. */
    ghost method OtherStep(st: P.Step)
      requires Valid() && P.Enabled(model, st)
      requires st.Publish? || st.PubPark? || st.Park? || st.Announce?
      modifies this`model
      ensures Valid() && model == P.Apply(old(model), st)
    {
      forall i | 0 <= i < |all|
        ensures Matches(all[i], P.Apply(model, st).cons[i])
      {
        assert Matches(all[i], model.cons[i]);
      }
      Commit(st);
    }
  }
}
