/** The table of benchmark jobs: cancel functions, completion and pruning. */
module BenchyJobs {

  const MAX_JOBS := 25

  datatype Status = Scheduled | Running | Done | Error | Canceled

  datatype FinishTime = NotFinished | FinishedAt(time: int)

  datatype Job = Job(status: Status, finished: FinishTime)

  predicate Finished(jobs: map<string, Job>, id: string) {
    id in jobs && jobs[id].finished.FinishedAt?
  }

  function FinishedIds(jobs: map<string, Job>): set<string> {
    set id | id in jobs && Finished(jobs, id)
  }

  predicate IsOldest(jobs: map<string, Job>, ids: set<string>, id: string) {
    && id in ids && Finished(jobs, id)
    && forall other <- ids :: Finished(jobs, other) && jobs[id].finished.time <= jobs[other].finished.time
  }

  lemma {:induction false} OldestExists(jobs: map<string, Job>, ids: set<string>) returns (id: string)
    requires ids != {} && ids <= FinishedIds(jobs)
    ensures IsOldest(jobs, ids, id)
    decreases |ids|
  {
    var one :| one in ids;
    id := one;
    forall other | other in ids ensures Finished(jobs, other) {
      assert other in FinishedIds(jobs);
    }
    var rest := ids - {one};
    assert forall other <- ids :: other == one || other in rest;
    if rest == {} {
    } else {
      var best := OldestExists(jobs, rest);
      if jobs[best].finished.time < jobs[one].finished.time {
        id := best;
      }
    }
  }

  /** What pruning leaves of `before`: it takes away finished jobs only, exactly as many as the
      table has too many (or all of them), and never a job that finished after one it keeps. */
  ghost predicate Pruned(before: map<string, Job>, after: map<string, Job>) {
    var removed := before.Keys - after.Keys;
    var excess := if |before| > MAX_JOBS then |before| - MAX_JOBS else 0;
    var candidates := |FinishedIds(before)|;
    && after == before - removed
    && removed <= FinishedIds(before)
    && |removed| == (if excess < candidates then excess else candidates)
    && forall r <- removed, k <- FinishedIds(after) :: before[r].finished.time <= after[k].finished.time
  }

  /** So the table fits again unless unfinished jobs alone exceed the limit, and those all stay. */
  lemma PrunedFits(before: map<string, Job>, after: map<string, Job>)
    requires Pruned(before, after)
    ensures |after| <= 25 || FinishedIds(after) == {}
    ensures |FinishedIds(after)| <= 25 && (|before| <= 25 ==> after == before)
    ensures forall id :: id in before && !Finished(before, id) ==> id in after && after[id] == before[id]
  {
    var removed := before.Keys - after.Keys;
    Sizes(before, removed);
    assert FinishedIds(after) <= after.Keys;
    SubsetSize(FinishedIds(after), after.Keys);
    assert |after.Keys| == |after|;
  }

  lemma Sizes(before: map<string, Job>, removed: set<string>)
    requires removed <= FinishedIds(before)
    ensures |before - removed| == |before| - |removed|
    ensures FinishedIds(before - removed) == FinishedIds(before) - removed
    ensures |FinishedIds(before - removed)| == |FinishedIds(before)| - |removed|
  {
    assert (before - removed).Keys == before.Keys - removed;
    assert removed <= before.Keys;
    assert |before.Keys - removed| == |before.Keys| - |removed|;
    assert |before.Keys| == |before|;
    assert |(before - removed).Keys| == |before - removed|;
  }

  lemma {:induction false} SubsetSize(a: set<string>, b: set<string>)
    requires a <= b
    ensures |a| <= |b|
  {
    assert b == a + (b - a);
  }

  /** Pruning in progress: `removed` is what the loop has taken away so far. */
  ghost predicate Pruning(before: map<string, Job>, removed: set<string>) {
    && removed <= FinishedIds(before)
    && |before| - |removed| >= MAX_JOBS
    && forall r <- removed, k <- FinishedIds(before) - removed ::
         before[r].finished.time <= before[k].finished.time
  }

  lemma PruningStep(before: map<string, Job>, removed: set<string>, rm: string)
    requires Pruning(before, removed) && |before - removed| > MAX_JOBS
    requires IsOldest(before - removed, FinishedIds(before - removed), rm)
    ensures Pruning(before, removed + {rm}) && before - removed - {rm} == before - (removed + {rm})
  {
    Sizes(before, removed);
  }

  lemma PruningEnds(before: map<string, Job>, removed: set<string>)
    requires Pruning(before, removed)
    requires |before - removed| <= MAX_JOBS || FinishedIds(before - removed) == {}
    ensures Pruned(before, before - removed)
  {
    Sizes(before, removed);
    assert before.Keys - (before - removed).Keys == removed;
  }

  /** The finish times of the jobs that pruning took away. */
  ghost function Times(before: map<string, Job>, after: map<string, Job>): set<int> {
    set id | id in before && id !in after && Finished(before, id) :: before[id].finished.time
  }

  /** No job that finished at one of these times finished after a job held. */
  ghost predicate NoneBefore(jobs: map<string, Job>, dropped: set<int>) {
    forall t, id :: t in dropped && Finished(jobs, id) ==> t <= jobs[id].finished.time
  }

  lemma TimesKept(before: map<string, Job>, after: map<string, Job>)
    requires Pruned(before, after)
    ensures NoneBefore(after, Times(before, after))
  {
    forall t, k | t in Times(before, after) && Finished(after, k) ensures t <= after[k].finished.time {
      assert k in FinishedIds(after);
    }
  }

  /** A table over the limit loses the oldest finished job. */
  lemma OldestGoes(before: map<string, Job>, after: map<string, Job>, id: string)
    requires Pruned(before, after) && |before| > MAX_JOBS && Finished(before, id)
    requires forall k :: Finished(before, k) && k != id ==> before[id].finished.time < before[k].finished.time
    ensures id !in after
  {
    var removed := before.Keys - after.Keys;
    assert id in FinishedIds(before) && |removed| > 0;
    var r :| r in removed;
    assert r in FinishedIds(before) && (id in after ==> id in FinishedIds(after));
  }

  lemma NothingGoes(before: map<string, Job>, after: map<string, Job>)
    requires Pruned(before, after) && |before| <= MAX_JOBS
    ensures after == before
  {
    assert |before.Keys - after.Keys| == 0;
  }

  /** The job `id` is recorded as finished at `now`, and the table pruned. */
  lemma OrderKeptIff(was: map<string, Job>, job: Job, after: map<string, Job>, dropped: set<int>, id: string)
    requires id in was && job.finished.FinishedAt? && NoneBefore(was, dropped) && Pruned(was[id := job], after)
    ensures NoneBefore(after, dropped + Times(was[id := job], after)) <==>
              (forall t <- dropped :: t <= job.finished.time) || |was| > MAX_JOBS
  {
    var before, now := was[id := job], job.finished.time;
    assert |before.Keys| == |before| && before.Keys == was.Keys && |was.Keys| == |was|;
    TimesKept(before, after);
    if t :| t in dropped && t > now {
      if |was| > MAX_JOBS {
        forall k | Finished(before, k) && k != id ensures now < before[k].finished.time {
          assert Finished(was, k);
        }
        OldestGoes(before, after, id);
      } else {
        NothingGoes(before, after);
        assert Finished(after, id);
      }
    }
    assert forall k :: Finished(after, k) && k != id ==> Finished(was, k) && after[k] == was[k];
  }

  class JobTable {
    var jobs: map<string, Job>
    var cancels: set<string>
    /** The times at which the jobs pruned so far had finished. */
    ghost var dropped: set<int>

    /** A cancel function is held exactly for every unfinished job, and a finished job has a final
        status. */
    ghost predicate Consistent()
      reads this
    {
      && (forall id :: id in cancels <==> id in jobs && !Finished(jobs, id))
      && (forall id :: Finished(jobs, id) ==> jobs[id].status in {Done, Error, Canceled})
    }

    /** Over the whole run, no job was pruned that finished after one that is still held. */
    ghost predicate OldestFirst()
      reads this
    {
      NoneBefore(jobs, dropped)
    }

    /** In addition at most MAX_JOBS finished jobs are held, at any time. */
    ghost predicate Valid()
      reads this
    {
      Consistent() && |FinishedIds(jobs)| <= MAX_JOBS
    }

    constructor ()
      ensures Valid() && jobs == map[] && cancels == {} && dropped == {}
    {
      jobs, cancels, dropped := map[], {}, {};
      new;
      assert FinishedIds(jobs) == {};
    }

    /** A new job, with its cancel function. */
    method Start(id: string, status: Status)
      requires Valid() && id !in jobs && status in {Running, Scheduled}
      modifies this`jobs, this`cancels
      ensures Valid() && jobs == old(jobs)[id := Job(status, NotFinished)]
      ensures cancels == old(cancels) + {id} && FinishedIds(jobs) == FinishedIds(old(jobs))
    {
      jobs := jobs[id := Job(status, NotFinished)];
      cancels := cancels + {id};
      assert FinishedIds(jobs) == FinishedIds(old(jobs));
    }

    /** setBenchyRuntimeStatus. The runner of a job calls it only before it finishes the job;
        a later call would write over the final status. */
    method SetRuntimeStatus(id: string, status: Status)
      requires Valid()
      modifies this`jobs
      ensures jobs == if id in old(jobs) then old(jobs)[id := old(jobs)[id].(status := status)] else old(jobs)
      ensures FinishedIds(jobs) == FinishedIds(old(jobs))
      ensures Valid() <==> (old(Finished(jobs, id)) ==> status in {Done, Error, Canceled})
    {
      if id !in jobs {
        return;
      }
      jobs := jobs[id := jobs[id].(status := status)];
      assert FinishedIds(jobs) == FinishedIds(old(jobs));
    }

    /** apiCancelBenchyJob: canceling is accepted exactly for the unfinished jobs. */
    method Cancel(id: string) returns (found: bool, accepted: bool)
      requires Valid()
      ensures found <==> id in jobs
      ensures accepted <==> id in jobs && jobs[id].finished.NotFinished?
    {
      found := id in jobs;
      accepted := found && id in cancels;
    }

    /** Marks a job as finished and releases its cancel function. */
    method Record(id: string, job: Job)
      requires Consistent() && id in jobs && job.finished.FinishedAt? && job.status in {Done, Error, Canceled}
      modifies this`jobs, this`cancels
      ensures Consistent() && jobs == old(jobs)[id := job] && cancels == old(cancels) - {id}
    {
      jobs := jobs[id := job];
      cancels := cancels - {id};
    }

    /** finishBenchyJob. The time is read before the lock is taken, so a job may be recorded after
        one that finished later: the order of pruning is kept exactly unless it is recorded after a
        job that finished later was pruned already, in a table that is not over the limit. */
    method Finish(id: string, status: Status, now: int)
      requires Valid() && status in {Done, Error, Canceled}
      modifies this
      ensures Valid()
      ensures id !in old(jobs) ==> jobs == old(jobs) && cancels == old(cancels) && dropped == old(dropped)
      ensures id in old(jobs) ==>
                && Pruned(old(jobs)[id := Job(status, FinishedAt(now))], jobs)
                && cancels == old(cancels) - {id}
                && (|jobs| <= MAX_JOBS || FinishedIds(jobs) == {})
                && dropped == old(dropped) + Times(old(jobs)[id := Job(status, FinishedAt(now))], jobs)
      ensures old(OldestFirst()) ==>
                (OldestFirst() <==> id !in old(jobs) || (forall t <- old(dropped) :: t <= now) || |old(jobs)| > MAX_JOBS)
    {
      if id !in jobs {
        return;
      }
      Record(id, Job(status, FinishedAt(now)));
      ghost var before := jobs;
      Prune();
      dropped := dropped + Times(before, jobs);
      PrunedFits(before, jobs);
      if old(OldestFirst()) {
        OrderKeptIff(old(jobs), Job(status, FinishedAt(now)), jobs, old(dropped), id);
      }
    }

    /** The body of the pruning loop. */
    method Drop(rm: string)
      requires Consistent() && IsOldest(jobs, FinishedIds(jobs), rm)
      modifies this`jobs, this`cancels
      ensures Consistent() && jobs == old(jobs) - {rm} && cancels == old(cancels)
      ensures FinishedIds(jobs) == FinishedIds(old(jobs)) - {rm}
    {
      jobs := jobs - {rm};
      cancels := cancels - {rm};
      assert forall k :: Finished(jobs, k) ==> k in FinishedIds(old(jobs));
    }

    /** pruneBenchyJobsLocked. Among jobs that finished at the same time any may go first. */
    method Prune()
      requires Consistent()
      modifies this`jobs, this`cancels
      ensures Consistent() && Pruned(old(jobs), jobs)
      ensures cancels == old(cancels)
    {
      if |jobs| <= MAX_JOBS {
        assert jobs == jobs - {};
        return;
      }
      ghost var before, removed: set<string> := jobs, {};
      assert jobs == before - removed;
      var finished := set id | id in jobs && jobs[id].status != Running && jobs[id].finished.FinishedAt?;
      while |jobs| > MAX_JOBS && finished != {}
        invariant Pruning(before, removed) && jobs == before - removed
        invariant Consistent() && finished == FinishedIds(jobs) && cancels == old(cancels)
        decreases |finished|
      {
        ghost var oldest := OldestExists(jobs, finished);
        var rm :| IsOldest(jobs, finished, rm);
        PruningStep(before, removed, rm);
        Drop(rm);
        finished := finished - {rm};
        removed := removed + {rm};
      }
      PruningEnds(before, removed);
    }
  }

  function Xs(n: nat): (s: string)
    ensures |s| == n
  {
    seq(n, _ => 'x')
  }

  function Unfinished(n: nat): map<string, Job> {
    if n == 0 then map[] else Unfinished(n - 1)[Xs(n - 1) := Job(Running, NotFinished)]
  }

  lemma {:induction false} UnfinishedShape(n: nat)
    ensures |Unfinished(n)| == n && FinishedIds(Unfinished(n)) == {}
    ensures forall id :: id in Unfinished(n) <==> |id| < n && id == Xs(|id|)
  {
    if n == 0 {
    } else {
      UnfinishedShape(n - 1);
      var rest := Unfinished(n - 1);
      assert Xs(n - 1) !in rest;
      assert forall id :: Finished(Unfinished(n), id) ==> id in FinishedIds(rest);
    }
  }

  /** A run that breaks the order: of 26 unfinished jobs one finishes at time 1 and, being the
      only finished one, is pruned; another, finished at time 0, is recorded after it and stays. */
  method LateRecord() returns (table: JobTable)
    ensures table.Valid() && !table.OldestFirst()
  {
    table := new JobTable();
    for i := 0 to MAX_JOBS + 1
      invariant fresh(table) && table.Valid() && table.dropped == {} && table.jobs == Unfinished(i)
    {
      UnfinishedShape(i);
      table.Start(Xs(i), Running);
    }
    UnfinishedShape(MAX_JOBS + 1);
    ghost var started := table.jobs;
    table.Finish(Xs(0), Done, 1);
    FirstGoes(started, table.jobs, Xs(0), 1);
    table.Finish(Xs(1), Done, 0);
  }

  /** Over the limit by one, the only finished job goes. */
  lemma FirstGoes(started: map<string, Job>, after: map<string, Job>, id: string, now: int)
    requires |started| == MAX_JOBS + 1 && FinishedIds(started) == {} && id in started
    requires Pruned(started[id := Job(Done, FinishedAt(now))], after)
    ensures after == started - {id} && |after| == MAX_JOBS
    ensures now in Times(started[id := Job(Done, FinishedAt(now))], after)
  {
    var before := started[id := Job(Done, FinishedAt(now))];
    assert before.Keys == started.Keys && |before.Keys| == |before| && |started.Keys| == |started|;
    forall k ensures Finished(before, k) <==> k == id {
      assert k != id ==> k !in FinishedIds(started);
    }
    OldestGoes(before, after, id);
    var removed := before.Keys - after.Keys;
    assert id in removed && FinishedIds(before) == {id};
    assert removed == {id};
    Sizes(before, removed);
    assert after == started - {id};
  }
}
