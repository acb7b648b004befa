/**
 One probe cycle as it runs: list the due jobs, probe until the time is spent, store the
 results, judge every job from the table, prune.
 */
module ProbeCycle {
  import opened Wrappers
  import opened ProbeTable
  import opened ProbeDamping
  import Queue = ProbeQueue

  /** A failing job and the facts its verdict is made from. */
  datatype Trouble = Trouble(job: string, transient: bool, streak: nat, noSuccess: nat)

  predicate Failing(h: seq<Probe>) { h != [] && !h[|h| - 1].ok }

  function FactsOf(rows: seq<Probe>, id: string, now: int): Trouble
    requires Failing(Of(rows, id))
  {
    var h := Of(rows, id);
    Trouble(id, h[|h| - 1].transient, StreakOf(h), NoSuccess(h, now))
  }

  /** The failing jobs of the registry, in its order. */
  function TroubleIn(rows: seq<Probe>, jobs: Queue.Registry, now: int): seq<Trouble> {
    if jobs == [] then []
    else
      var id := jobs[|jobs| - 1].id;
      TroubleIn(rows, jobs[..|jobs| - 1], now) + if Failing(Of(rows, id)) then [FactsOf(rows, id, now)] else []
  }

  /** The verdict as it is made from the facts, in order of precedence. */
  function Classify(t: Trouble, threshold: nat, window: int): Verdict {
    if !t.transient then Hard
    else if t.streak >= threshold then Streak
    else if window > 0 && t.noSuccess > window then Silence
    else Damped
  }

  predicate AnyTrips(trouble: seq<Trouble>, threshold: nat, window: int) {
    exists t | t in trouble :: Trips(Classify(t, threshold, window))
  }

  ghost predicate JobTrips(rows: seq<Probe>, job: Queue.Job, threshold: nat, window: int, now: int) {
    Trips(VerdictOf(Of(rows, job.id), threshold, window, now))
  }

  /** The list trips exactly when some probed job's own history does. */
  lemma {:induction false} TroubleTripsAsHistoriesDo(rows: seq<Probe>, jobs: Queue.Registry, threshold: nat, window: int, now: int)
    ensures AnyTrips(TroubleIn(rows, jobs, now), threshold, window)
       <==> exists job | job in jobs :: JobTrips(rows, job, threshold, window, now)
  {
    if jobs == [] {
    } else {
      var rest, last := jobs[..|jobs| - 1], jobs[|jobs| - 1];
      TroubleTripsAsHistoriesDo(rows, rest, threshold, window, now);
      assert jobs == rest + [last];
      var before, all := TroubleIn(rows, rest, now), TroubleIn(rows, jobs, now);
      if Failing(Of(rows, last.id)) {
        var t := FactsOf(rows, last.id, now);
        assert all == before + [t];
        assert Classify(t, threshold, window) == VerdictOf(Of(rows, last.id), threshold, window, now);
        assert t in all && JobTrips(rows, last, threshold, window, now) == Trips(Classify(t, threshold, window));
      } else {
        assert all == before && !JobTrips(rows, last, threshold, window, now);
      }
      if AnyTrips(before, threshold, window) {
        var t :| t in before && Trips(Classify(t, threshold, window));
        assert t in all;
      }
    }
  }

  /** A probe that failed for good trips the cycle it was made in. */
  lemma HardFailuresTrip(rows: seq<Probe>, jobs: Queue.Registry, c: Queue.Cycle, p: Probe, threshold: nat, window: int)
    requires p in Queue.ProbedRows(rows, jobs, c) && !p.ok && !p.transient
    ensures exists job | job in jobs :: JobTrips(rows + Queue.ProbedRows(rows, jobs, c), job, threshold, window, c.end)
  {
    var more := Queue.ProbedRows(rows, jobs, c);
    Queue.RowsAreTheAnswers(rows, jobs, c);
    Queue.NewestIsTheAnswer(rows, jobs, c, p.job);
    var k :| 0 <= k < |more| && more[k] == p;
    var job := jobs[Queue.DueList(rows, jobs, c.now)[k].index];
    assert job in jobs && JobTrips(rows + more, job, threshold, window, c.end);
  }

  /** A successful probe clears its own job, and a job that was not probed keeps the history it had. */
  lemma SuccessesClear(rows: seq<Probe>, jobs: Queue.Registry, c: Queue.Cycle, id: string, threshold: nat, window: int)
    ensures var more := Queue.ProbedRows(rows, jobs, c);
      var after := VerdictOf(Of(rows + more, id), threshold, window, c.end);
      if exists p :: p in more && p.job == id
      then (after == Healthy <==> c.answers(id).ok) && (after == Hard <==> !c.answers(id).ok && !c.answers(id).transient)
      else after == VerdictOf(Of(rows, id), threshold, window, c.end)
  {
    Queue.NewestIsTheAnswer(rows, jobs, c, id);
  }

  class Scheduler {
    const jobs: Queue.Registry
    const table: Table

    constructor (jobs: Queue.Registry, table: Table)
      ensures this.jobs == jobs && this.table == table
    {
      this.jobs, this.table := jobs, table;
    }

    /** The jobs whose interval has passed since their last row, least recently probed first. */
    method DueProbes(now: int) returns (due: seq<Queue.Due>)
      ensures due == Queue.DueList(table.rows, jobs, now)
    {
      due := [];
      for i := 0 to |jobs|
        invariant due == Queue.DueInRegistryOrder(table.rows, jobs[..i], now)
      {
        var job := jobs[i];
        var h := Of(table.rows, job.id);
        assert jobs[..i + 1][..i] == jobs[..i];
        if job.interval.Some? && h != [] && now - h[|h| - 1].at < job.interval.value { continue; }
        due := due + [Queue.Due(if h == [] then -1 else h[|h| - 1].at, i)];
      }
      assert jobs[..|jobs|] == jobs;
      due := Queue.SortByStamp(due);
    }

    /** Every probed job whose newest row is a failure. */
    method ProbeTrouble(now: int) returns (trouble: seq<Trouble>)
      ensures trouble == TroubleIn(table.rows, jobs, now)
    {
      trouble := [];
      for i := 0 to |jobs|
        invariant trouble == TroubleIn(table.rows, jobs[..i], now)
      {
        assert jobs[..i + 1][..i] == jobs[..i];
        var h := Of(table.rows, jobs[i].id);
        if h == [] || h[|h| - 1].ok { continue; }
        var streak := table.ProbeFailStreak(jobs[i].id, STREAK_SCAN_LIMIT);
        trouble := trouble + [Trouble(jobs[i].id, h[|h| - 1].transient, streak, NoSuccess(h, now))];
      }
      assert jobs[..|jobs|] == jobs;
    }

    /** Probes the due jobs one after another; `elapsed` is the time spent before each, from the second on. */
    method ProbeUntilSpent(due: seq<Queue.Due>, elapsed: nat -> int, budget: int) returns (stop: nat)
      ensures stop <= |due| && (due != [] ==> stop > 0)
      ensures forall i | 1 <= i < stop :: elapsed(i) < budget
      ensures stop < |due| ==> elapsed(stop) >= budget
    {
      stop := 0;
      while stop < |due|
        invariant stop <= |due|
        invariant forall i | 1 <= i < stop :: elapsed(i) < budget
      {
        if stop > 0 && elapsed(stop) >= budget { break; }
        stop := stop + 1;
      }
    }

    /**
     The whole cycle. `c.stop` is where the budget stopped it; the self-job's run says
     fail exactly when some probed job's history, new rows included, trips.
     */
    method RunProbeCycle(now: int, elapsed: nat -> int, total: nat, budget: int, answers: string -> Queue.Answer,
                         configured: int, noSuccess: int, interval: int)
      returns (c: Queue.Cycle, tripped: bool)
      modifies table
      ensures c.now == now && c.end == now + total && c.answers == answers
      ensures table.rows == Queue.After(old(table.rows), jobs, c)
      ensures c.stop == |Queue.DueList(old(table.rows), jobs, now)| || elapsed(c.stop) >= budget
      ensures forall i | 1 <= i < c.stop :: elapsed(i) < budget
      ensures tripped <==> exists job | job in jobs ::
        JobTrips(old(table.rows) + Queue.ProbedRows(old(table.rows), jobs, c), job,
                 EffectiveThreshold(configured), EffectiveNoSuccess(noSuccess, interval), c.end)
      ensures |Queue.ProbedRows(old(table.rows), jobs, c)| == c.stop
      ensures forall p | p in Queue.ProbedRows(old(table.rows), jobs, c) ::
        && p.at == c.end && p.ok == answers(p.job).ok && p.transient == answers(p.job).transient
        && (!p.ok && !p.transient ==> tripped)
    {
      ghost var was := table.rows;
      var due := DueProbes(now);
      var stop := ProbeUntilSpent(due, elapsed, budget);
      c := Queue.Cycle(now, now + total, stop, answers);
      Queue.DueListIs(table.rows, jobs, now);
      InsertResults(due, c, stop);
      var trouble := ProbeTrouble(c.end);
      tripped := AnyTrips(trouble, EffectiveThreshold(configured), EffectiveNoSuccess(noSuccess, interval));
      TroubleTripsAsHistoriesDo(table.rows, jobs, EffectiveThreshold(configured),
                                EffectiveNoSuccess(noSuccess, interval), c.end);
      Queue.RowsAreTheAnswers(was, jobs, c);
      forall p | p in Queue.ProbedRows(was, jobs, c) && !p.ok && !p.transient
        ensures tripped
      {
        HardFailuresTrip(was, jobs, c, p, EffectiveThreshold(configured), EffectiveNoSuccess(noSuccess, interval));
      }
      table.Prune();
    }

    method InsertResults(due: seq<Queue.Due>, c: Queue.Cycle, stop: nat)
      requires stop <= |due| && forall d | d in due :: d.index < |jobs|
      modifies table
      ensures table.rows == old(table.rows) + Queue.NewRows(jobs, due, c, stop)
    {
      for i := 0 to stop
        invariant table.rows == old(table.rows) + Queue.NewRows(jobs, due, c, i)
      {
        table.Insert(Queue.RowFor(c, jobs[due[i].index].id));
        assert Queue.NewRows(jobs, due, c, i + 1) == Queue.NewRows(jobs, due, c, i) + [Queue.RowFor(c, jobs[due[i].index].id)];
      }
    }
  }
}
