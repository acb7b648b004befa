/**
 How many pushes a job can send. The cooldown only holds first pages, yet it bounds
 everything: escalations and recoveries are paid for by the first page of their episode.
 */
module EpisodeRate {
  import opened Wrappers
  import opened Policy
  import opened EpisodeRules
  import opened EpisodeInvariant
  import opened EpisodeRuns

  function Landed(posts: seq<Post>): nat {
    if posts == [] then 0
    else Landed(posts[..|posts| - 1]) + if posts[|posts| - 1].landed then 1 else 0
  }

  lemma LandedSum(a: seq<Post>, b: seq<Post>)
    ensures Landed(a + b) == Landed(a) + Landed(b)
  {
    if b == [] {
      assert a + b == a;
    } else {
      assert (a + b)[..|a + b| - 1] == a + b[..|b| - 1];
      LandedSum(a, b[..|b| - 1]);
    }
  }

  lemma LandedOfMoment(m: Moment)
    ensures Landed(Posted(m))
         == (if m.out.page.Some? && m.input.pageLands then 1 else 0)
          + (if m.out.recovery.Some? && m.input.recoveryLands then 1 else 0)
  {
    var page := if m.out.page.Some? then [PagePost(m)] else [];
    var recovery := if m.out.recovery.Some? then [RecoveryPost(m)] else [];
    LandedSum(page, recovery);
    assert page != [] ==> page[..|page| - 1] == [];
    assert recovery != [] ==> recovery[..|recovery| - 1] == [];
  }

  /** The pushes an already paged episode may still send: an escalation unless it is loud, and a recovery. */
  function Owed(row: Row): nat {
    if row.alertedAt.None? || row.alertedState.None? then 0
    else if Severity(row.alertedState.value) == 2 then 1 else 2
  }

  /** This recompute sends an episode's first page and its stamp stays, whether or not the POST landed. */
  predicate KeepsFirstPage(m: Moment) {
    && m.out.page.Some? && m.out.page.value.kind == Alert
    && (m.input.pageLands || m.post.row.badSince.None?)
  }

  /** When the first pages whose stamp stayed were sent. */
  function FirstPages(run: Run): seq<int>
    decreases |run|
  {
    if run == [] then []
    else FirstPages(Before(run)) + if KeepsFirstPage(Final(run)) then [Final(run).input.now] else []
  }

  lemma PushesAreOwed(job: Job, m: Moment, clock: int)
    requires Observed(job, m, clock)
    ensures Landed(Posted(m)) + Owed(m.post.row) <= Owed(m.pre.row) + if KeepsFirstPage(m) then 3 else 0
  {
    LandedOfMoment(m);
    RowFacts(job, m, clock);
    if m.out.page.Some? {
      PageFacts(job, m, clock);
    }
    if m.out.recovery.Some? {
      RecoveryFacts(job, m, clock);
    }
  }

  lemma {:induction false} PushesPerFirstPage(job: Job, rec: Rec, from: int, run: Run)
    requires WellFormed(rec, from) && IsRun(job, rec, from, run)
    ensures Landed(Posts(run)) + Owed(After(rec, run).row) <= Owed(rec.row) + 3 * |FirstPages(run)|
    decreases |run|
  {
    if run != [] {
      LastMoment(job, rec, from, run);
      PushesPerFirstPage(job, rec, from, Before(run));
      PushesAreOwed(job, Final(run), End(from, Before(run)));
      LandedSum(Posts(Before(run)), Posted(Final(run)));
    }
  }

  // ---- First pages are a cooldown apart ----

  ghost predicate CooldownApart(times: seq<int>, cooldown: int) {
    forall k | 0 < k < |times| :: GapBefore(times, cooldown, k)
  }

  predicate GapBefore(times: seq<int>, cooldown: int, k: int)
    requires 0 < k < |times|
  {
    times[k - 1] + cooldown <= times[k]
  }

  lemma FirstPageWaitsOutTheCooldown(job: Job, m: Moment, clock: int)
    requires Observed(job, m, clock)
    ensures m.pre.row.lastPagedAt.Some? ==>
      m.post.row.lastPagedAt.Some? && m.pre.row.lastPagedAt.value <= m.post.row.lastPagedAt.value
    ensures KeepsFirstPage(m) ==>
      && m.post.row.lastPagedAt == Some(m.input.now)
      && (m.pre.row.lastPagedAt.Some? ==> m.pre.row.lastPagedAt.value + Cooldown(job) <= m.input.now)
  {
    RowFacts(job, m, clock);
    if m.out.page.Some? {
      PageFacts(job, m, clock);
    }
  }

  lemma {:induction false} FirstPagesAreApart(job: Job, rec: Rec, from: int, run: Run)
    requires WellFormed(rec, from) && IsRun(job, rec, from, run)
    ensures CooldownApart(FirstPages(run), Cooldown(job))
    ensures from <= End(from, run) && forall t | t in FirstPages(run) :: from <= t <= End(from, run)
    ensures var times, r := FirstPages(run), After(rec, run).row;
      times != [] ==> r.lastPagedAt.Some? && times[|times| - 1] <= r.lastPagedAt.value
    decreases |run|
  {
    if run != [] {
      LastMoment(job, rec, from, run);
      FirstPagesAreApart(job, rec, from, Before(run));
      FirstPageWaitsOutTheCooldown(job, Final(run), End(from, Before(run)));
      var earlier, times := FirstPages(Before(run)), FirstPages(run);
      forall k | 0 < k < |times|
        ensures GapBefore(times, Cooldown(job), k)
      {
        assert k < |earlier| ==> GapBefore(earlier, Cooldown(job), k);
      }
    }
  }

  lemma SpreadOut(times: seq<int>, cooldown: int, k: nat)
    requires CooldownApart(times, cooldown) && k < |times|
    ensures times[0] + k * cooldown <= times[k]
  {
    if k > 0 {
      SpreadOut(times, cooldown, k - 1);
      assert GapBefore(times, cooldown, k);
    }
  }

  lemma MultiplesFit(n: nat, cooldown: int, span: int)
    requires cooldown > 0 && n * cooldown <= span
    ensures n <= span / cooldown
  {
    var q := span / cooldown;
    assert span < (q + 1) * cooldown;
    if q + 1 <= n {
      ProductsGrow(q + 1, n, cooldown);
    }
  }

  lemma ProductsGrow(a: int, b: int, c: int)
    requires a <= b && c >= 0
    ensures a * c <= b * c
  {
  }

  lemma ApartFits(times: seq<int>, cooldown: int, start: int, end: int)
    requires CooldownApart(times, cooldown) && cooldown > 0
    requires start <= end && forall t | t in times :: start <= t <= end
    ensures |times| <= (end - start) / cooldown + 1
    ensures times != [] ==> |times| <= (end - times[0]) / cooldown + 1
  {
    if times != [] {
      var n := |times| - 1;
      SpreadOut(times, cooldown, n);
      assert times[0] in times && times[n] in times;
      MultiplesFit(n, cooldown, end - times[0]);
      MultiplesFit(n, cooldown, end - start);
    } else {
      MultiplesFit(0, cooldown, end - start);
    }
  }

  /**
   THE PUSH RATE. From a fresh row nothing lands before the first page stamp that
   stays, and in the T seconds after it at most three pushes per started cooldown do,
   pages, escalations and recoveries together; so too counted from the run's start.
   */
  lemma PushRate(job: Job, from: int, run: Run)
    requires IsRun(job, FRESH, from, run)
    ensures FirstPages(run) == [] ==> Landed(Posts(run)) == 0
    ensures FirstPages(run) != [] ==>
      Landed(Posts(run)) <= 3 * ((End(from, run) - FirstPages(run)[0]) / Cooldown(job) + 1)
    ensures Landed(Posts(run)) <= 3 * ((End(from, run) - from) / Cooldown(job) + 1)
  {
    FreshIsWellFormed(from);
    PushesPerFirstPage(job, FRESH, from, run);
    FirstPagesFit(job, FRESH, from, run);
  }

  lemma FirstPagesFit(job: Job, rec: Rec, from: int, run: Run)
    requires WellFormed(rec, from) && IsRun(job, rec, from, run)
    ensures |FirstPages(run)| <= (End(from, run) - from) / Cooldown(job) + 1
    ensures FirstPages(run) != [] ==> |FirstPages(run)| <= (End(from, run) - FirstPages(run)[0]) / Cooldown(job) + 1
  {
    FirstPagesAreApart(job, rec, from, run);
    ApartFits(FirstPages(run), Cooldown(job), from, End(from, run));
  }

  /** The same bound over any window of any run, plus the two pushes a page before it may still owe. */
  lemma PushRateOfAnyWindow(job: Job, rec: Rec, from: int, window: Run)
    requires WellFormed(rec, from) && IsRun(job, rec, from, window)
    ensures Landed(Posts(window)) <= 2 + 3 * ((End(from, window) - from) / Cooldown(job) + 1)
  {
    PushesPerFirstPage(job, rec, from, window);
    FirstPagesFit(job, rec, from, window);
  }
}
