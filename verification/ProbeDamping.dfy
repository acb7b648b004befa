/**
 Damping: when a failing probe turns the scheduler's own job red. The verdict is read off
 the pruned table, and is the one the whole history would have given.
 */
module ProbeDamping {
  import opened Wrappers
  import opened ProbeTable

  const MAX_FAIL_THRESHOLD := 10

  /** The configured threshold, at least 1 and at most ten whatever was typed. */
  function EffectiveThreshold(configured: int): (threshold: nat)
    ensures 1 <= threshold <= MAX_FAIL_THRESHOLD
    ensures 1 <= configured <= MAX_FAIL_THRESHOLD ==> threshold == configured
  {
    var capped := if configured < MAX_FAIL_THRESHOLD then configured else MAX_FAIL_THRESHOLD;
    if capped > 1 then capped else 1
  }

  /** The silence window: 0 is off, otherwise never shorter than one probe cycle. */
  function EffectiveNoSuccess(configured: int, interval: int): (window: int)
    ensures configured <= 0 ==> window == 0
    ensures configured > 0 ==> window >= configured && window >= interval && (window == configured || window == interval)
  {
    if configured <= 0 then 0 else if configured > interval then configured else interval
  }

  /** No trouble; or why the failing job trips; or that its failure is damped. */
  datatype Verdict = Healthy | Hard | Streak | Silence | Damped

  predicate Trips(v: Verdict) { v.Hard? || v.Streak? || v.Silence? }

  function StreakOf(h: seq<Probe>): nat {
    if Trailing(h) < STREAK_SCAN_LIMIT then Trailing(h) else STREAK_SCAN_LIMIT
  }

  /** The row the silence is measured from: the last success, or the oldest row there is. */
  function Reference(h: seq<Probe>): Probe
    requires h != []
  {
    var ok := LastOk(h);
    if ok.Some? then ok.value else h[0]
  }

  /** Seconds since the reference, never negative when the clock has stepped back. */
  function NoSuccess(h: seq<Probe>, now: int): nat
    requires h != []
  {
    if now > Reference(h).at then now - Reference(h).at else 0
  }

  function VerdictOf(h: seq<Probe>, threshold: nat, window: int, now: int): Verdict {
    if h == [] || h[|h| - 1].ok then Healthy
    else if !h[|h| - 1].transient then Hard
    else if StreakOf(h) >= threshold then Streak
    else if window > 0 && NoSuccess(h, now) > window then Silence
    else Damped
  }

  // ---- What a verdict means ----

  ghost predicate AllFailed(h: seq<Probe>, last: nat) {
    last <= |h| && forall i | |h| - last <= i < |h| :: !h[i].ok
  }

  /** `r` is where the silence of `h` began: its last success, or its oldest row if it never had one. */
  ghost predicate SilentSince(h: seq<Probe>, r: int) {
    && 0 <= r < |h| && (forall i | r < i < |h| :: !h[i].ok)
    && (h[r].ok || r == 0)
  }

  /**
   Damping delays and never cancels: a job trips exactly when its newest probe failed
   and the failure is hard, or the last `threshold` probes of the job all failed, or
   nothing has succeeded for longer than the window.
   */
  lemma TripsExactlyWhen(h: seq<Probe>, threshold: nat, window: int, now: int, r: nat)
    requires 1 <= threshold <= STREAK_SCAN_LIMIT && SilentSince(h, r)
    ensures Trips(VerdictOf(h, threshold, window, now)) <==>
      (&& !h[|h| - 1].ok
       && (!h[|h| - 1].transient || AllFailed(h, threshold) || (window > 0 && now - h[r].at > window)))
  {
    TrailingMeaning(h);
    LastOkEndsTheStreak(h);
  }

  /** Such a row exists for every history, and only one. */
  lemma SilenceBegins(h: seq<Probe>) returns (r: nat)
    requires h != []
    ensures SilentSince(h, r) && Reference(h) == h[r]
  {
    TrailingMeaning(h);
    LastOkEndsTheStreak(h);
    r := if Trailing(h) == |h| then 0 else |h| - Trailing(h) - 1;
  }

  /** One successful probe of the job clears it; a probe of another job changes nothing for it. */
  lemma OnlyItsOwnSuccessClears(rows: seq<Probe>, p: Probe, job: string, threshold: nat, window: int, now: int)
    requires threshold >= 1
    ensures p.job == job && p.ok ==> VerdictOf(Of(rows + [p], job), threshold, window, now) == Healthy
    ensures p.job != job ==> VerdictOf(Of(rows + [p], job), threshold, window, now) == VerdictOf(Of(rows, job), threshold, window, now)
    ensures p.job == job && !p.ok ==> StreakOf(Of(rows + [p], job)) >= StreakOf(Of(rows, job))
  {
    OfSnoc(rows, p, job);
    var h := Of(rows, job);
    if p.job == job {
      assert (h + [p])[..|h|] == h;
    } else {
      assert h + [] == h;
    }
  }

  // ---- Pruning cannot be seen ----

  /** A history short of its oldest rows gives the same verdict while `threshold` rows are left. */
  lemma SuffixGivesTheVerdict(h: seq<Probe>, cut: nat, threshold: nat, window: int, now: int)
    requires 1 <= threshold <= STREAK_SCAN_LIMIT
    requires cut <= |h| && (cut == 0 || |h| - cut >= threshold)
    ensures VerdictOf(h[cut..], threshold, window, now) == VerdictOf(h, threshold, window, now)
  {
    var s := h[cut..];
    TrailingMeaning(h);
    TrailingMeaning(s);
    LastOkEndsTheStreak(h);
    LastOkEndsTheStreak(s);
    if Trailing(h) < |s| {
      TrailingIs(s, Trailing(h));
    } else {
      TrailingIs(s, |s|);
    }
    if cut == 0 {
      assert s == h;
    }
  }

  /** The threshold is what a prune must leave room for: keep fewer rows and a streak is missed. */
  lemma KeepingFewerMissesTheStreak(job: string, threshold: nat, keep: nat, window: int)
    requires 1 <= keep < threshold <= STREAK_SCAN_LIMIT
    ensures var h := seq(threshold, _ => Probe(job, 0, false, true));
      && VerdictOf(h, threshold, window, 0) == Streak
      && !Trips(VerdictOf(Newest(h, keep), threshold, window, 0))
  {
    var h := seq(threshold, _ => Probe(job, 0, false, true));
    var s := Newest(h, keep);
    TrailingIs(h, threshold);
    TrailingIs(s, keep);
    LastOkEndsTheStreak(s);
  }

  // ---- Over whole runs ----

  /** The rows a probe cycle inserts, before it prunes. */
  type Cycle = seq<Probe>

  function Stored(cycles: seq<Cycle>): seq<Probe> {
    if cycles == [] then [] else Kept(Stored(cycles[..|cycles| - 1]) + cycles[|cycles| - 1], KEEP_PROBES)
  }

  /** The table, had nothing ever been pruned. */
  function Full(cycles: seq<Cycle>): seq<Probe> {
    if cycles == [] then [] else Full(cycles[..|cycles| - 1]) + cycles[|cycles| - 1]
  }

  lemma NewestOfNewest<T>(s: seq<T>, more: seq<T>, n: nat)
    ensures Newest(Newest(s, n) + more, n) == Newest(s + more, n)
  {
  }

  lemma {:induction false} StoredIsTheNewest(cycles: seq<Cycle>, job: string)
    ensures Of(Stored(cycles), job) == Newest(Of(Full(cycles), job), KEEP_PROBES)
  {
    if cycles == [] {
    } else {
      var earlier, last := cycles[..|cycles| - 1], cycles[|cycles| - 1];
      StoredIsTheNewest(earlier, job);
      PruneKeepsTheNewest(Stored(earlier) + last, KEEP_PROBES, job);
      OfConcat(Stored(earlier), last, job);
      OfConcat(Full(earlier), last, job);
      NewestOfNewest(Of(Full(earlier), job), Of(last, job), KEEP_PROBES);
    }
  }

  /**
   PRUNING IS INVISIBLE. In every run, whatever was configured, the verdict on every job
   right after any cycle's probes is the one the unpruned history gives, even once the
   job's last success has been deleted.
   */
  lemma PruningIsInvisible(cycles: seq<Cycle>, rows: Cycle, job: string, configured: int, window: int, now: int)
    ensures var threshold := EffectiveThreshold(configured);
      VerdictOf(Of(Stored(cycles) + rows, job), threshold, window, now)
      == VerdictOf(Of(Full(cycles) + rows, job), threshold, window, now)
  {
    var full, more := Of(Full(cycles), job), Of(rows, job);
    StoredIsTheNewest(cycles, job);
    OfConcat(Stored(cycles), rows, job);
    OfConcat(Full(cycles), rows, job);
    var cut := if |full| <= KEEP_PROBES then 0 else |full| - KEEP_PROBES;
    assert Newest(full, KEEP_PROBES) + more == (full + more)[cut..];
    SuffixGivesTheVerdict(full + more, cut, EffectiveThreshold(configured), window, now);
  }

  /**
   The bound in probes: in every run, once the last `threshold` probes of a job, however
   many cycles and other jobs' probes lie between them, have all failed, the job trips.
   */
  lemma ThresholdFailuresTrip(cycles: seq<Cycle>, rows: Cycle, job: string, configured: int, window: int, now: int)
    requires AllFailed(Of(Full(cycles) + rows, job), EffectiveThreshold(configured))
    ensures Trips(VerdictOf(Of(Stored(cycles) + rows, job), EffectiveThreshold(configured), window, now))
  {
    PruningIsInvisible(cycles, rows, job, configured, window, now);
    var r := SilenceBegins(Of(Full(cycles) + rows, job));
    TripsExactlyWhen(Of(Full(cycles) + rows, job), EffectiveThreshold(configured), window, now, r);
  }
}
