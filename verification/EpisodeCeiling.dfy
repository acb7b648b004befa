/** The hard ceiling, and the exact ways an episode can end without being heard. */
module EpisodeCeiling {
  import opened Wrappers
  import opened Policy
  import opened StateLog
  import opened EpisodeRules
  import opened EpisodeInvariant
  import opened EpisodeRuns

  /** The episode is past its bar, by the clock or by the accumulator, once this recompute's state is written. */
  predicate BarReached(job: Job, rec: Rec, i: Input) {
    PastBar(job, WithState(rec, i.obs.state, i.now).log, Subject(rec, i),
            if rec.row.badSince.Some? then rec.row.badSince.value else i.now, i.now)
  }

  /** The page of this recompute has no reason left to wait but the retry gap. */
  predicate CeilingReached(job: Job, rec: Rec, i: Input) {
    && !job.alertNever && !i.mute
    && Offers(rec, i)
    && Unspent(rec.row, Subject(rec, i))
    && BarReached(job, rec, i)
    && (rec.row.alertedAt.None? && rec.row.lastPagedAt.Some? ==>
          i.now >= rec.row.lastPagedAt.value + Cooldown(job))
  }

  // ---- The retry entry tells the truth ----

  ghost predicate Attempted(posts: seq<Post>, episode: int, rank: nat, at: int, landed: bool) {
    exists p | p in posts ::
      && p.kind != Recovery && p.episode == Some(episode)
      && Severity(p.state) == rank && p.at == at && p.landed == landed
  }

  /** A landed page has moved the cooldown stamp, and is a full cooldown older than any milder page after it. */
  predicate LandedLeavesItsMark(job: Job, row: Row, rank: nat, at: int) {
    && row.lastPagedAt.Some? && at <= row.lastPagedAt.value
    && (row.alertedAt.Some? && row.alertedState.Some? && Severity(row.alertedState.value) < rank ==>
          at + Cooldown(job) <= row.alertedAt.value)
  }

  ghost predicate TryIsTrue(job: Job, rec: Rec, posts: seq<Post>, rank: nat)
    requires rec.tries.Tries? && rank in rec.tries.when
  {
    var at := rec.tries.when[rank];
    || Attempted(posts, rec.tries.episode, rank, at, false)
    || (Attempted(posts, rec.tries.episode, rank, at, true) && LandedLeavesItsMark(job, rec.row, rank, at))
  }

  /** Every time the retry entry remembers is the time of a POST of that episode at that rank. */
  ghost predicate TriesAreTrue(job: Job, rec: Rec, posts: seq<Post>, clock: int) {
    rec.tries.Tries? ==>
      forall rank | rank in rec.tries.when :: TryIsTrue(job, rec, posts, rank) && rec.tries.when[rank] <= clock
  }

  lemma AttemptedGrows(posts: seq<Post>, more: seq<Post>, episode: int, rank: nat, at: int, landed: bool)
    requires Attempted(posts, episode, rank, at, landed)
    ensures Attempted(posts + more, episode, rank, at, landed)
  {
    var p :| p in posts && p.kind != Recovery && p.episode == Some(episode) && Severity(p.state) == rank
             && p.at == at && p.landed == landed;
    assert p in posts + more;
  }

  lemma MarkStays(job: Job, m: Moment, clock: int, rank: nat, at: int)
    requires Observed(job, m, clock) && at <= clock
    requires LandedLeavesItsMark(job, m.pre.row, rank, at)
    ensures LandedLeavesItsMark(job, m.post.row, rank, at)
  {
    RowFacts(job, m, clock);
    if m.out.page.Some? {
      PageFacts(job, m, clock);
    }
  }

  /** The attempt this recompute makes is in the retry entry, and true. */
  lemma NewTryIsTrue(job: Job, m: Moment, clock: int, posts: seq<Post>)
    requires Observed(job, m, clock) && m.out.page.Some?
    ensures var rank := Severity(m.out.page.value.state);
      && m.post.tries.Tries? && rank in m.post.tries.when && m.post.tries.when[rank] == m.input.now
      && TryIsTrue(job, m.post, posts + Posted(m), rank)
  {
    PageFacts(job, m, clock);
    RowFacts(job, m, clock);
    assert PagePost(m) in Posted(m);
    assert PagePost(m) in posts + Posted(m);
  }

  lemma OldTryStaysTrue(job: Job, m: Moment, clock: int, posts: seq<Post>, rank: nat)
    requires Observed(job, m, clock)
    requires m.pre.tries.Tries? && rank in m.pre.tries.when && m.pre.tries.when[rank] <= clock
    requires TryIsTrue(job, m.pre, posts, rank)
    requires && m.post.tries.Tries? && m.post.tries.episode == m.pre.tries.episode
             && rank in m.post.tries.when && m.post.tries.when[rank] == m.pre.tries.when[rank]
    ensures TryIsTrue(job, m.post, posts + Posted(m), rank)
  {
    var episode, at := m.pre.tries.episode, m.pre.tries.when[rank];
    if Attempted(posts, episode, rank, at, false) {
      AttemptedGrows(posts, Posted(m), episode, rank, at, false);
    } else {
      AttemptedGrows(posts, Posted(m), episode, rank, at, true);
      MarkStays(job, m, clock, rank, at);
    }
  }

  lemma TriesOverOneMoment(job: Job, m: Moment, clock: int, posts: seq<Post>)
    requires Observed(job, m, clock) && TriesAreTrue(job, m.pre, posts, clock)
    ensures TriesAreTrue(job, m.post, posts + Posted(m), m.input.now)
  {
    RowFacts(job, m, clock);
    if m.out.page.Some? {
      PageFacts(job, m, clock);
      NewTryIsTrue(job, m, clock, posts);
    }
    if m.post.tries.Tries? {
      forall rank | rank in m.post.tries.when
        ensures TryIsTrue(job, m.post, posts + Posted(m), rank) && m.post.tries.when[rank] <= m.input.now
      {
        if m.out.page.None? || rank != Severity(m.out.page.value.state) {
          OldTryStaysTrue(job, m, clock, posts, rank);
        }
      }
    }
  }

  /** In every run, restarts included, that begins with an empty retry map. */
  lemma {:induction false} TriesRememberAttempts(job: Job, rec: Rec, from: int, run: Run)
    requires WellFormed(rec, from) && rec.tries.NoTries? && IsRun(job, rec, from, run)
    ensures TriesAreTrue(job, After(rec, run), Posts(run), End(from, run))
    decreases |run|
  {
    if run != [] {
      LastMoment(job, rec, from, run);
      TriesRememberAttempts(job, rec, from, Before(run));
      TriesOverOneMoment(job, Final(run), End(from, Before(run)), Posts(Before(run)));
    }
  }

  // ---- The hard ceiling ----

  /** This page, of this episode and at this rank, was POSTed and refused within the last retry gap. */
  ghost predicate RefusedLately(posts: seq<Post>, m: Moment) {
    exists at | m.input.now - ALERT_RETRY_MIN_S < at <= m.input.now ::
      Attempted(posts, EpisodeStart(m), Severity(Subject(m.pre, m.input)), at, false)
  }

  lemma CeilingInOneMoment(job: Job, m: Moment, clock: int, posts: seq<Post>)
    requires Observed(job, m, clock) && TriesAreTrue(job, m.pre, posts, clock)
    requires CeilingReached(job, m.pre, m.input)
    ensures m.out.page.Some? || RefusedLately(posts, m)
  {
    PassShape(job, m.pre, m.input, clock);
    OfferShape(job, m.pre, m.input, clock);
    if m.out.page.None? {
      var b, rank := EpisodeStart(m), Severity(Subject(m.pre, m.input));
      assert !RetryDue(m.pre.tries, b, rank, m.input.now);
      assert TryIsTrue(job, m.pre, posts, rank);
      var at := m.pre.tries.when[rank];
      assert Attempted(posts, b, rank, at, false);
    }
  }

  /**
   THE HARD CEILING. In every run, restarts included, in every recompute that sees an
   open episode past its bar, a threshold old or a threshold accumulated, with a page to
   spend, nobody muting it and its cooldown over, whether the job reads not-OK, dwelling
   OK or held OK: the page goes out in that very recompute, or the same page was POSTed
   and refused less than a retry gap ago.
   */
  lemma HardCeiling(job: Job, from: int, run: Run)
    requires IsRun(job, FRESH, from, run) && run != []
    requires CeilingReached(job, Final(run).pre, Final(run).input)
    ensures Final(run).out.page.Some? || RefusedLately(Posts(Before(run)), Final(run))
  {
    FreshIsWellFormed(from);
    LastMoment(job, FRESH, from, run);
    TriesRememberAttempts(job, FRESH, from, Before(run));
    CeilingInOneMoment(job, Final(run), End(from, Before(run)), Posts(Before(run)));
  }

  /**
   The converse: a page only ever goes out for an episode that has run a whole
   threshold, or for a job that really spent a whole threshold in that state inside
   the accumulator's window, second by second.
   */
  lemma PagesAreEarned(job: Job, from: int, run: Run)
    requires IsRun(job, FRESH, from, run) && run != [] && Final(run).out.page.Some?
    ensures var m := Final(run); var page := m.out.page.value;
      || m.input.now - EpisodeStart(m) >= job.alertAfter
      || BadSeconds(m.post.log, m.input.now - BadWindow(job), m.input.now, {page.state}) >= job.alertAfter
  {
    FreshIsWellFormed(from);
    LastMoment(job, FRESH, from, run);
    var m := Final(run);
    PageFacts(job, m, End(from, Before(run)));
    StepKeepsWellFormed(job, m.pre, m.input, End(from, Before(run)));
    AccruedMeaning(m.post.log, m.input.now - BadWindow(job), m.input.now, {m.out.page.value.state}, BAD_SCAN_LIMIT);
  }

  // ---- How an episode can end unheard ----

  /**
   An episode past its bar and never paged for ends in a recompute without a landed page
   exactly when that recompute has one of these reasons: UNKNOWN, which never offers the
   page, past the bar or not; a job that opted out; a mute; its cooldown; the retry gap;
   or the POST of this very recompute failing, which nothing can hand back any more.
   */
  lemma EndsUnheardExactly(job: Job, m: Moment, clock: int)
    requires Observed(job, m, clock)
    requires m.pre.row.badSince.Some? && m.post.row.badSince.None? && m.pre.row.alertedAt.None?
    requires m.input.obs.state == UNKNOWN || BarReached(job, m.pre, m.input)
    ensures (m.out.page.None? || !m.input.pageLands) <==>
      || m.input.obs.state == UNKNOWN
      || job.alertNever
      || m.input.mute
      || Cooling(job, m.pre.row.lastPagedAt, m.input.now)
      || !RetryDue(m.pre.tries, m.pre.row.badSince.value, Severity(Subject(m.pre, m.input)), m.input.now)
      || !m.input.pageLands
  {
    PassShape(job, m.pre, m.input, clock);
    RowFacts(job, m, clock);
  }

  /**
   Page and close in one recompute. A verified OK sends the recovery after its page; a
   hold that ran out closes without one; either way the cooldown stamp survives, even
   when the POST failed.
   */
  lemma PageAndCloseTogether(job: Job, m: Moment, clock: int)
    requires Observed(job, m, clock)
    requires m.out.page.Some? && m.post.row.badSince.None?
    ensures m.out.recovery == if Holding(m.input.obs, Subject(m.pre, m.input)) then None
                              else Some(RecoveryIntent(job, m.out.page.value.state))
    ensures m.post.row.alertedAt.None? && m.post.row.lastPagedAt == Some(m.input.now)
  {
    PassShape(job, m.pre, m.input, clock);
    RowFacts(job, m, clock);
    PageFacts(job, m, clock);
  }
}
