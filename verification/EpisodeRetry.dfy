/** The retry backoff: how far apart the attempts at one page are, whatever the state does. */
module EpisodeRetry {
  import opened Wrappers
  import opened Policy
  import opened EpisodeRules
  import opened EpisodeInvariant
  import opened EpisodeRuns
  import opened EpisodeCeiling

  /** The retry entry covers every attempt of the newest episode key; older keys are gone for good. */
  ghost predicate TriesCover(rec: Rec, posts: seq<Post>, clock: int) {
    && (forall p | p in posts && p.kind != Recovery :: PostCovered(rec.tries, p))
    && (rec.tries.Tries? ==> rec.tries.episode <= clock)
    && (rec.tries.Tries? && rec.row.badSince.Some? ==> rec.tries.episode <= rec.row.badSince.value)
  }

  predicate PostCovered(tries: Tries, p: Post) {
    && Alertable(p.state)
    && p.episode.Some? && tries.Tries? && p.episode.value <= tries.episode
    && (p.episode.value == tries.episode ==>
          Severity(p.state) in tries.when && p.at <= tries.when[Severity(p.state)])
  }

  /** Two attempts at one rank of one episode keep their distance. */
  predicate Apart(p: Post, q: Post) {
    p.kind != Recovery && q.kind != Recovery && p.episode == q.episode && Severity(p.state) == Severity(q.state)
    ==> p.at + ALERT_RETRY_MIN_S <= q.at
  }

  ghost predicate Spaced(posts: seq<Post>) {
    forall j, k | 0 <= j < k < |posts| :: Apart(posts[j], posts[k])
  }

  lemma CoverOverOneMoment(job: Job, m: Moment, clock: int, posts: seq<Post>)
    requires Observed(job, m, clock)
    requires TriesCover(m.pre, posts, clock) && TriesAreTrue(job, m.pre, posts, clock)
    ensures TriesCover(m.post, posts + Posted(m), m.input.now)
  {
    RowFacts(job, m, clock);
    if m.out.page.Some? {
      PageFacts(job, m, clock);
    }
    if m.out.recovery.Some? {
      RecoveryFacts(job, m, clock);
    }
    forall p | p in posts + Posted(m) && p.kind != Recovery
      ensures PostCovered(m.post.tries, p)
    {
      if p in posts {
        assert PostCovered(m.pre.tries, p);
      }
    }
  }

  lemma SpacedOverOneMoment(job: Job, m: Moment, clock: int, posts: seq<Post>)
    requires Observed(job, m, clock)
    requires TriesCover(m.pre, posts, clock) && TriesAreTrue(job, m.pre, posts, clock)
    requires Spaced(posts)
    ensures Spaced(posts + Posted(m))
  {
    var all := posts + Posted(m);
    if m.out.page.Some? {
      PageFacts(job, m, clock);
    }
    if m.out.recovery.Some? {
      RecoveryFacts(job, m, clock);
    }
    forall j, k | 0 <= j < k < |all|
      ensures Apart(all[j], all[k])
    {
      if k < |posts| {
        assert Apart(posts[j], posts[k]);
      } else if j < |posts| {
        assert posts[j] in posts;
        assert posts[j].kind != Recovery ==> PostCovered(m.pre.tries, posts[j]);
      }
    }
  }

  /** From an empty retry map, the process is not restarted: nothing after the first recompute finds less than was left. */
  ghost predicate OneLife(rec: Rec, run: Run) {
    rec.tries.NoTries? && forall k | 0 <= k < |run| :: run[k].pre == After(rec, run[..k])
  }

  lemma OneLifeBefore(rec: Rec, run: Run)
    requires run != [] && OneLife(rec, run)
    ensures OneLife(rec, Before(run)) && Final(run).pre == After(rec, Before(run))
  {
    forall k | 0 <= k < |Before(run)|
      ensures Before(run)[k].pre == After(rec, Before(run)[..k])
    {
      assert Before(run)[..k] == run[..k];
    }
  }

  /**
   In every life of the process, from any record it may have come up with, two attempts
   at the same rank of the same episode are at least a retry gap apart, however the state
   flips between ranks and whatever POST fails. No attempt ever names OK or UNKNOWN.
   */
  lemma {:induction false} AttemptsKeepTheirDistance(job: Job, rec: Rec, from: int, run: Run)
    requires WellFormed(rec, from) && IsRun(job, rec, from, run) && OneLife(rec, run)
    ensures Spaced(Posts(run)) && TriesCover(After(rec, run), Posts(run), End(from, run))
    ensures forall p | p in Posts(run) && p.kind != Recovery :: Alertable(p.state)
    decreases |run|
  {
    if run != [] {
      LastMoment(job, rec, from, run);
      OneLifeBefore(rec, run);
      AttemptsKeepTheirDistance(job, rec, from, Before(run));
      TriesRememberAttempts(job, rec, from, Before(run));
      var m, clock, posts := Final(run), End(from, Before(run)), Posts(Before(run));
      CoverOverOneMoment(job, m, clock, posts);
      SpacedOverOneMoment(job, m, clock, posts);
    }
    forall p | p in Posts(run) && p.kind != Recovery
      ensures Alertable(p.state)
    {
      assert PostCovered(After(rec, run).tries, p);
    }
  }

  lemma {:induction false} PostsAreInOrder(job: Job, rec: Rec, from: int, run: Run)
    requires IsRun(job, rec, from, run)
    ensures forall j, k | 0 <= j <= k < |Posts(run)| :: Posts(run)[j].at <= Posts(run)[k].at
    ensures forall p | p in Posts(run) :: p.at <= End(from, run)
    decreases |run|
  {
    if run != [] {
      Unroll(job, rec, from, run);
      PostsAreInOrder(job, rec, from, Before(run));
      var posts, all := Posts(Before(run)), Posts(run);
      assert forall k | |posts| <= k < |all| :: all[k].at == Final(run).input.now;
      assert forall k | 0 <= k < |posts| :: all[k] == posts[k] && posts[k] in posts;
    }
  }

  // ---- The ceiling and the gap together ----

  /** An attempt at this recompute's page, of its episode and at its rank, less than a retry gap ago. */
  ghost predicate TriedLately(posts: seq<Post>, m: Moment) {
    exists p | p in posts ::
      p.kind != Recovery && p.episode == Some(EpisodeStart(m)) && Severity(p.state) == Severity(Subject(m.pre, m.input))
      && m.input.now - ALERT_RETRY_MIN_S < p.at
  }

  lemma AttemptedIsTried(posts: seq<Post>, m: Moment, at: int)
    requires Attempted(posts, EpisodeStart(m), Severity(Subject(m.pre, m.input)), at, false)
    requires m.input.now - ALERT_RETRY_MIN_S < at
    ensures TriedLately(posts, m)
  {
  }

  /** What the retry entry covers was tried a whole gap ago once the entry says a retry is due. */
  lemma DueIsNotTried(job: Job, m: Moment, clock: int, posts: seq<Post>)
    requires Observed(job, m, clock) && TriesCover(m.pre, posts, clock) && TriesAreTrue(job, m.pre, posts, clock)
    requires RetryDue(m.pre.tries, EpisodeStart(m), Severity(Subject(m.pre, m.input)), m.input.now)
    ensures !TriedLately(posts, m)
  {
    forall p | p in posts && p.kind != Recovery && p.episode == Some(EpisodeStart(m))
               && Severity(p.state) == Severity(Subject(m.pre, m.input))
      ensures p.at <= m.input.now - ALERT_RETRY_MIN_S
    {
      assert PostCovered(m.pre.tries, p);
      assert TryIsTrue(job, m.pre, posts, Severity(p.state));
    }
  }

  lemma CeilingExactlyInOneLife(job: Job, rec: Rec, from: int, run: Run)
    requires WellFormed(rec, from) && IsRun(job, rec, from, run) && OneLife(rec, run) && run != []
    requires CeilingReached(job, Final(run).pre, Final(run).input)
    ensures Final(run).out.page.Some? <==> !TriedLately(Posts(Before(run)), Final(run))
  {
    var m, clock, posts := Final(run), End(from, Before(run)), Posts(Before(run));
    LastMoment(job, rec, from, run);
    OneLifeBefore(rec, run);
    AttemptsKeepTheirDistance(job, rec, from, Before(run));
    TriesRememberAttempts(job, rec, from, Before(run));
    if m.out.page.Some? {
      PageFacts(job, m, clock);
      DueIsNotTried(job, m, clock, posts);
    } else {
      CeilingInOneMoment(job, m, clock, posts);
      var at :| m.input.now - ALERT_RETRY_MIN_S < at <= m.input.now
                && Attempted(posts, EpisodeStart(m), Severity(Subject(m.pre, m.input)), at, false);
      AttemptedIsTried(posts, m, at);
    }
  }

  /** The process that makes the last recompute of the run came up, its retry map empty, before recompute `up`. */
  ghost predicate UpSince(run: Run, up: int) {
    0 <= up < |run| && run[up].pre.tries.NoTries? && forall k | up < k < |run| :: run[k].pre == run[k - 1].post
  }

  /** There always is one. */
  lemma {:induction false} SomeProcessIsUp(job: Job, from: int, run: Run) returns (up: int)
    requires IsRun(job, FRESH, from, run) && run != []
    ensures UpSince(run, up)
    decreases |run|
  {
    Unroll(job, FRESH, from, run);
    up := |run| - 1;
    if Final(run).pre.tries.Tries? {
      up := SomeProcessIsUp(job, from, Before(run));
    }
  }

  /** What one life of the process makes of a run is a run of its own. */
  lemma LifeIsARun(job: Job, from: int, run: Run, up: int)
    requires IsRun(job, FRESH, from, run) && UpSince(run, up)
    ensures var rec, since := run[up].pre, End(from, run[..up]);
      WellFormed(rec, since) && IsRun(job, rec, since, run[up..]) && OneLife(rec, run[up..])
  {
    var rec, since, life := run[up].pre, End(from, run[..up]), run[up..];
    FreshIsWellFormed(from);
    var upTo := run[..up + 1];
    forall k | 0 <= k < |upTo|
      ensures Link(job, FRESH, from, upTo, k)
    {
      assert Link(job, FRESH, from, run, k);
      assert upTo[..k] == run[..k];
    }
    LastMoment(job, FRESH, from, upTo);
    assert Before(upTo) == run[..up];
    forall k | 0 <= k < |life|
      ensures Link(job, rec, since, life, k) && life[k].pre == After(rec, life[..k])
    {
      assert Link(job, FRESH, from, run, up + k);
      assert k > 0 ==> Final(life[..k]) == run[up + k - 1] && Final(run[..up + k]) == run[up + k - 1];
    }
  }

  /**
   THE CEILING, EXACTLY. In every run, restarts included, a recompute that sees its
   ceiling reached pages if and only if the process that makes it has not tried the same
   page, of that episode and at that rank, within the last retry gap.
   */
  lemma CeilingExactly(job: Job, from: int, run: Run, up: int)
    requires IsRun(job, FRESH, from, run) && UpSince(run, up)
    requires CeilingReached(job, Final(run).pre, Final(run).input)
    ensures Final(run).out.page.Some? <==> !TriedLately(Posts(run[up..|run| - 1]), Final(run))
  {
    LifeIsARun(job, from, run, up);
    var life := run[up..];
    assert Final(life) == Final(run) && Before(life) == run[up..|run| - 1];
    CeilingExactlyInOneLife(job, run[up].pre, End(from, run[..up]), life);
  }

  // ---- How often ----

  /** Any three attempts of one episode in one life span a whole retry gap: a shorter window holds at most two. */
  lemma AtMostTwoAttemptsPerGap(job: Job, rec: Rec, from: int, run: Run, a: nat, b: nat, c: nat)
    requires WellFormed(rec, from) && IsRun(job, rec, from, run) && OneLife(rec, run)
    requires a < b < c < |Posts(run)|
    requires forall k | k in {a, b, c} :: Posts(run)[k].kind != Recovery && Posts(run)[k].episode == Posts(run)[a].episode
    ensures Posts(run)[a].at + ALERT_RETRY_MIN_S <= Posts(run)[c].at
  {
    AttemptsKeepTheirDistance(job, rec, from, run);
    PostsAreInOrder(job, rec, from, run);
    var p, q, r := Posts(run)[a], Posts(run)[b], Posts(run)[c];
    assert Apart(p, q) && Apart(q, r) && Apart(p, r);
  }

  /** The first attempt at each rank is never held back: the backoff only holds what was POSTed within the last gap. */
  lemma BackoffOnlyHoldsRetries(job: Job, from: int, run: Run, episode: int, rank: nat, now: int)
    requires IsRun(job, FRESH, from, run) && End(from, run) <= now
    requires !RetryDue(After(FRESH, run).tries, episode, rank, now)
    ensures exists p | p in Posts(run) ::
      p.kind != Recovery && p.episode == Some(episode) && Severity(p.state) == rank
      && now - ALERT_RETRY_MIN_S < p.at <= now
  {
    TriesRememberAttempts(job, FRESH, from, run);
    assert TryIsTrue(job, After(FRESH, run), Posts(run), rank);
  }
}
