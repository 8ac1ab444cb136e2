/** What a run of an event group says by itself: the events that were published and the calls of
    Add and Del, against the log and what consumers are owed. */
module EventTraces {
  import opened EventProtocol

  /** The events that the Publish calls of a run were given. */
  function Published(steps: seq<Step>): multiset<Event> {
    if steps == [] then multiset{}
    else Given(steps[0]) + Published(steps[1..])
  }

  function Given(st: Step): multiset<Event> {
    if st.Publish? then multiset{st.ev} else multiset{}
  }

  /** The same in order. */
  function PublishedInOrder(steps: seq<Step>): seq<Event> {
    if steps == [] then []
    else (if steps[0].Publish? then [steps[0].ev] else []) + PublishedInOrder(steps[1..])
  }

  lemma PublishAdds(s: State, p: nat, ev: Event)
    requires Enabled(s, Publish(p, ev))
    ensures Unsent(Apply(s, Publish(p, ev)).pubs) == Unsent(s.pubs) + multiset{ev}
  {
    UnsentUpdate(s.pubs, p, PubWaiting(ev));
  }

  lemma DelAdds(s: State, c: nat)
    requires Enabled(s, Del(c))
    ensures Unsent(Apply(s, Del(c)).pubs) == Unsent(s.pubs)
  {
    UnsentSame(s.pubs, Apply(s, Del(c)).pubs);
  }

  lemma StepSays(s: State, st: Step)
    requires Inv(s) && Enabled(s, st)
    ensures var t := Apply(s, st); multiset(t.log) + Unsent(t.pubs) == multiset(s.log) + Unsent(s.pubs) + Given(st)
  {
    match st
    case Add =>
    case Del(c) => DelAdds(s, c);
    case Publish(p, ev) => PublishAdds(s, p, ev);
    case _ => InternalStepProgresses(s, st);
  }

  /** Over every run the events in the log and in the Publish calls under way are the ones that
      were there and the ones published. */
  lemma {:induction false} LoggedIsPublished(s: State, steps: seq<Step>)
    requires Inv(s) && Runs(s, steps)
    ensures multiset(End(s, steps).log) + Unsent(End(s, steps).pubs) == multiset(s.log) + Unsent(s.pubs) + Published(steps)
    decreases |steps|
  {
    if steps == [] {
    } else {
      StepSays(s, steps[0]);
      InvStep(s, steps[0]);
      LoggedIsPublished(Apply(s, steps[0]), steps[1..]);
    }
  }

  lemma Within(log: seq<Event>, i: nat, j: nat)
    requires i <= j <= |log|
    ensures multiset(log[i..j]) <= multiset(log)
  {
    assert log == log[..i] + log[i..j] + log[j..];
  }

  lemma HandledIsLogged(maxQueue: int, log: seq<Event>, c: Consumer)
    requires ConsumerInv(maxQueue, log, c)
    ensures multiset(c.handled) <= multiset(log)
  {
    var owed, rest := Owed(log, c), Rest(c) + c.queue;
    assert owed == c.handled + rest;
    Within(log, c.born, Upto(log, c));
  }

  lemma LoggedFromStart(s0: State, steps: seq<Step>)
    requires Init(s0) && Runs(s0, steps)
    ensures Inv(End(s0, steps))
    ensures multiset(End(s0, steps).log) + Unsent(End(s0, steps).pubs) == Published(steps)
  {
    assert forall i :: 0 <= i < |s0.pubs| ==> s0.pubs[i] in s0.pubs;
    AllIdle(s0.pubs);
    InvRun(s0, steps);
    LoggedIsPublished(s0, steps);
  }

  /** So nothing is lost and nothing invented: the log and the Publish calls under way hold exactly
      the published events, and what a consumer has handled somebody has published, as often. */
  lemma NothingInvented(s0: State, steps: seq<Step>)
    requires Init(s0) && Runs(s0, steps)
    ensures var t := End(s0, steps);
            && multiset(t.log) + Unsent(t.pubs) == Published(steps)
            && forall i :: 0 <= i < |t.cons| ==> multiset(t.cons[i].handled) <= Published(steps)
  {
    LoggedFromStart(s0, steps);
    var t := End(s0, steps);
    forall i | 0 <= i < |t.cons| ensures multiset(t.cons[i].handled) <= Published(steps) {
      HandledIsLogged(t.maxQueue, t.log, t.cons[i]);
    }
  }

  function Unsaid(pub: Publisher): seq<Event> {
    if pub.Idle? then [] else [pub.ev]
  }

  lemma OnePublisherStep(s: State, st: Step, p: nat)
    requires Enabled(s, st) && p < |s.pubs| && (st.Publish? ==> st.p == p)
    requires forall q :: 0 <= q < |s.pubs| && q != p ==> s.pubs[q].Idle?
    ensures var t := Apply(s, st);
            && |t.pubs| == |s.pubs| && (forall q :: 0 <= q < |t.pubs| && q != p ==> t.pubs[q].Idle?)
            && t.log + Unsaid(t.pubs[p]) == s.log + Unsaid(s.pubs[p]) + (if st.Publish? then [st.ev] else [])
  {
  }

  lemma Associate(a: seq<Event>, b: seq<Event>, c: seq<Event>)
    ensures (a + b) + c == a + (b + c)
  {
  }

  lemma {:induction false} OnePublisherRun(s: State, steps: seq<Step>, p: nat)
    requires Runs(s, steps) && p < |s.pubs| && OnlyBy(p, steps)
    requires forall q :: 0 <= q < |s.pubs| && q != p ==> s.pubs[q].Idle?
    ensures |End(s, steps).pubs| == |s.pubs|
    ensures End(s, steps).log + Unsaid(End(s, steps).pubs[p]) == s.log + Unsaid(s.pubs[p]) + PublishedInOrder(steps)
    decreases |steps|
  {
    if steps == [] {
    } else {
      OnePublisherStep(s, steps[0], p);
      OnePublisherRun(Apply(s, steps[0]), steps[1..], p);
      Associate(s.log + Unsaid(s.pubs[p]), if steps[0].Publish? then [steps[0].ev] else [], PublishedInOrder(steps[1..]));
    }
  }

  /** One publisher's events enter the log in the order in which it publishes them. */
  lemma OnePublisherInOrder(s0: State, steps: seq<Step>, p: nat)
    requires Init(s0) && Runs(s0, steps) && p < |s0.pubs| && OnlyBy(p, steps)
    ensures End(s0, steps).log <= PublishedInOrder(steps) && |PublishedInOrder(steps)| <= |End(s0, steps).log| + 1
  {
    assert forall q :: 0 <= q < |s0.pubs| ==> s0.pubs[q] in s0.pubs;
    OnePublisherRun(s0, steps, p);
    var log, unsaid := End(s0, steps).log, Unsaid(End(s0, steps).pubs[p]);
    assert log + unsaid == PublishedInOrder(steps);
  }

  // ------------------------------------------------------------ subscriptions

  lemma {:induction false} RunsSplit(s: State, a: seq<Step>, b: seq<Step>)
    ensures Runs(s, a + b) <==> Runs(s, a) && Runs(End(s, a), b)
    ensures Runs(s, a + b) ==> End(s, a + b) == End(End(s, a), b)
    decreases |a|
  {
    if a == [] {
      assert a + b == b;
    } else {
      assert (a + b)[0] == a[0] && (a + b)[1..] == a[1..] + b;
      if Enabled(s, a[0]) {
        RunsSplit(Apply(s, a[0]), a[1..], b);
      }
    }
  }

  lemma {:induction false} HistoryRun(s: State, steps: seq<Step>, c: nat)
    requires Runs(s, steps) && c < |s.cons|
    ensures var t := End(s, steps);
            && c < |t.cons| && t.cons[c].born == s.cons[c].born
            && t.cons[c].subscribed == (s.cons[c].subscribed && Del(c) !in steps)
            && (!s.cons[c].subscribed ==> t.cons[c].cut == s.cons[c].cut)
    decreases |steps|
  {
    if steps == [] {
    } else {
      HistoryRun(Apply(s, steps[0]), steps[1..], c);
      assert Del(c) in steps <==> steps[0] == Del(c) || Del(c) in steps[1..];
    }
  }

  /** A consumer is subscribed from its Add until its Del, and what it is owed begins with the
      events that enter the log after its Add. */
  lemma SubscribedFromAdd(s0: State, a: seq<Step>, b: seq<Step>)
    requires Runs(s0, a + ([Add] + b))
    ensures Runs(s0, a)
    ensures var c, t := |End(s0, a).cons|, End(s0, a + ([Add] + b));
            && c < |t.cons| && t.cons[c].born == |End(s0, a).log| && (t.cons[c].subscribed <==> Del(c) !in b)
  {
    RunsSplit(s0, a, [Add] + b);
    assert ([Add] + b)[1..] == b;
    HistoryRun(Apply(End(s0, a), Add), b, |End(s0, a).cons|);
  }

  /** ... and ends with those that have entered it before its first Del. */
  lemma OwedUntilDel(s0: State, a: seq<Step>, c: nat, b: seq<Step>)
    requires Runs(s0, a + ([Del(c)] + b)) && Runs(s0, a) && c < |End(s0, a).cons| && End(s0, a).cons[c].subscribed
    ensures var t := End(s0, a + ([Del(c)] + b));
            c < |t.cons| && !t.cons[c].subscribed && Upto(t.log, t.cons[c]) == |End(s0, a).log|
  {
    RunsSplit(s0, a, [Del(c)] + b);
    assert ([Del(c)] + b)[1..] == b;
    HistoryRun(Apply(End(s0, a), Del(c)), b, c);
  }
}
