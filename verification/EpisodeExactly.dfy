/**
 One recompute from outside: exactly when it opens an episode, pages, closes and sends a
 recovery, in terms of the row, the log and the clock alone; and what that comes to over
 whole runs.
 */
module EpisodeExactly {
  import opened Wrappers
  import opened Policy
  import opened StateLog
  import opened EpisodeRules
  import opened EpisodeInvariant
  import opened EpisodeRuns
  import opened EpisodeStamps

  predicate Broken(s: State) { s == LATE || s == FAIL || s == STALE_DEST || s == BEHIND }

  predicate Loud(s: State) { s == FAIL || s == STALE_DEST }

  /** `s` is the state of the log's latest entry that is not OK. */
  ghost predicate LastBad(log: Log, s: State) { exists i :: IsLatestNonOk(log, i) && log[i].to == s }

  /** What the recompute has to say of the job is about `s`: what it reads, or what it was before it read OK. */
  ghost predicate IsAbout(m: Moment, s: State) {
    if m.input.obs.state != OK then s == m.input.obs.state else LastBad(m.post.log, s)
  }

  /** There is an episode to speak of: one was open and the job is not UNKNOWN, or it is broken now. */
  predicate InTrouble(m: Moment) {
    m.input.obs.state != UNKNOWN && (m.pre.row.badSince.Some? || Broken(m.input.obs.state))
  }

  /** How long the job had been OK, without a break. */
  function OkSeconds(m: Moment): int {
    if m.pre.row.state == OK && m.pre.row.since.Some? then m.input.now - m.pre.row.since.value else 0
  }

  /** The OK cannot be believed: a probe failure is damped, or nobody looked at the destination that was in trouble. */
  predicate Unverified(m: Moment, about: State) {
    m.input.obs.dampedFailure || (m.input.obs.destUnverified && (about == STALE_DEST || about == BEHIND))
  }

  /** Of the accumulator's window, twice the threshold long, the part that the newest rows of the log reach. */
  function WindowStart(job: Job, log: Log, now: int): int { Max(now - 2 * job.alertAfter, ScanFloor(log, BAD_SCAN_LIMIT, now)) }

  /** The same page was attempted less than 300 s ago, as the process remembers. */
  predicate JustTried(m: Moment, about: State) {
    && m.pre.tries.Tries? && m.pre.tries.episode == EpisodeStart(m) && Severity(about) in m.pre.tries.when
    && m.pre.tries.when[Severity(about)] <= m.input.now < m.pre.tries.when[Severity(about)] + 300
  }

  // ---- What the recompute is about ----

  lemma LastBadIs(log: Log, s: State)
    ensures LastBad(log, s) <==> LastNonOk(log).Some? && LastNonOk(log).value.to == s
  {
    LastNonOkIsTheLatest(log);
    if LastNonOk(log).Some? {
      var i :| IsLatestNonOk(log, i) && LastNonOk(log) == Some(log[i]);
      forall j | IsLatestNonOk(log, j)
        ensures j == i
      {
      }
    } else {
      forall j | 0 <= j < |log|
        ensures log[j].to == OK
      {
        assert log[j] in log;
      }
    }
  }

  lemma AboutIs(job: Job, m: Moment, clock: int, about: State)
    requires Observed(job, m, clock) && InTrouble(m)
    ensures IsAbout(m, about) <==> about == Subject(m.pre, m.input)
  {
    StepShape(job, m.pre, m.input, clock);
    SubjectIs(m.pre, m.input, clock);
    LastBadIs(m.post.log, about);
  }

  lemma SubjectIs(rec: Rec, i: Input, clock: int)
    requires WellFormed(rec, clock) && clock <= i.now && (rec.row.badSince.Some? || i.obs.state != OK)
    ensures var last := LastNonOk(WithState(rec, i.obs.state, i.now).log);
      if i.obs.state != OK then Subject(rec, i) == i.obs.state else last.Some? && Subject(rec, i) == last.value.to
  {
    WriteIsTheNewest(rec, i.obs.state, clock, i.now);
    if i.obs.state == OK && rec.row.state != OK {
      LastIsLatest(rec.log);
    }
  }

  lemma LastIsLatest(log: Log)
    requires Monotone(log) && log != [] && Last(log).to != OK
    ensures LastNonOk(log) == Some(Last(log))
  {
    LastNonOkIsTheLatest(Front(log));
    if LastNonOk(Front(log)).Some? {
      var i :| IsLatestNonOk(Front(log), i) && LastNonOk(Front(log)) == Some(Front(log)[i]);
      assert log[i].at <= log[|log| - 1].at;
    }
  }

  // ---- The episode's clock ----

  /**
   An episode opens when the job is broken and none is open, and keeps its start until it
   closes. It closes exactly when the job reads UNKNOWN, or has been OK for its whole dwell,
   or its whole hold while nobody can verify that.
   */
  lemma ClosesExactly(job: Job, m: Moment, clock: int, about: State)
    requires Observed(job, m, clock) && (InTrouble(m) ==> IsAbout(m, about))
    ensures m.pre.row.badSince.None? ==>
      m.post.row.badSince == if Broken(m.input.obs.state) then Some(m.input.now) else None
    ensures m.pre.row.badSince.Some? ==>
      (m.post.row.badSince.None? <==>
        || m.input.obs.state == UNKNOWN
        || (m.input.obs.state == OK
            && 10 * OkSeconds(m) >= if Unverified(m, about) then OkHoldTenths(job) else OkDwellTenths(job)))
    ensures m.pre.row.badSince.Some? && m.post.row.badSince.Some? ==> m.post.row.badSince == m.pre.row.badSince
  {
    RowFacts(job, m, clock);
    if InTrouble(m) {
      AboutIs(job, m, clock, about);
    }
  }

  // ---- The page ----

  lemma BarIs(job: Job, log: Log, about: State, began: int, now: int)
    requires Monotone(log) && Broken(about)
    ensures PastBar(job, log, about, began, now) <==>
      || now - began >= job.alertAfter
      || (job.alertAfter > 0 && BadSeconds(log, WindowStart(job, log, now), now, {about}) >= job.alertAfter)
  {
    if job.alertAfter > 0 {
      WalkIsPointwise(log, BAD_SCAN_LIMIT, now - BadWindow(job), now, {about});
    }
  }

  lemma LogIsMonotone(job: Job, m: Moment, clock: int)
    requires Observed(job, m, clock)
    ensures Monotone(m.post.log)
  {
    StepKeepsWellFormed(job, m.pre, m.input, clock);
  }

  /**
   THE PAGE, EXACTLY. A recompute pages if and only if the job is in trouble and may page
   at all, nobody mutes it, its episode is unpaged or has become loud after a mild page, a
   first page is not inside the cooldown, a whole threshold has passed on the clock or been
   spent in that very state, second by second, and the page was not just tried. It says
   which of the two it was.
   */
  lemma PagesExactly(job: Job, m: Moment, clock: int, about: State)
    requires Observed(job, m, clock) && (InTrouble(m) ==> IsAbout(m, about))
    ensures m.out.page.Some? <==>
      && InTrouble(m) && !job.alertNever && !m.input.mute
      && (m.pre.row.alertedAt.None? || (!Loud(m.pre.row.alertedState.value) && Loud(about)))
      && (m.pre.row.alertedAt.None? && m.pre.row.lastPagedAt.Some? ==>
            m.input.now - m.pre.row.lastPagedAt.value >= Max(job.alertAfter, 21600))
      && (|| m.input.now - EpisodeStart(m) >= job.alertAfter
          || (job.alertAfter > 0
              && BadSeconds(m.post.log, WindowStart(job, m.post.log, m.input.now), m.input.now, {about}) >= job.alertAfter))
      && !JustTried(m, about)
    ensures m.out.page.Some? ==>
      && m.out.page.value.state == about && m.out.page.value.badSince == Some(EpisodeStart(m))
      && m.out.page.value.within == (if m.input.now - EpisodeStart(m) >= job.alertAfter then None else Some(2 * job.alertAfter))
      && m.out.page.value.kind == if m.pre.row.alertedAt.None? then Alert else Escalation
  {
    PagesIs(job, m, clock);
    if InTrouble(m) {
      AboutIs(job, m, clock, about);
      SubjectIsAlertable(m.pre, m.input, clock);
      LogIsMonotone(job, m, clock);
      BarIs(job, m.post.log, about, EpisodeStart(m), m.input.now);
    }
  }

  lemma PagesIs(job: Job, m: Moment, clock: int)
    requires Observed(job, m, clock)
    ensures m.out.page.Some? <==>
      && InTrouble(m) && !job.alertNever && !m.input.mute
      && Unspent(m.pre.row, Subject(m.pre, m.input))
      && (m.pre.row.alertedAt.None? ==> !Cooling(job, m.pre.row.lastPagedAt, m.input.now))
      && PastBar(job, m.post.log, Subject(m.pre, m.input), EpisodeStart(m), m.input.now)
      && RetryDue(m.pre.tries, EpisodeStart(m), Severity(Subject(m.pre, m.input)), m.input.now)
    ensures m.out.page.Some? ==>
      && m.out.page.value.state == Subject(m.pre, m.input) && m.out.page.value.badSince == Some(EpisodeStart(m))
      && m.out.page.value.within == (if m.input.now - EpisodeStart(m) >= job.alertAfter then None else Some(2 * job.alertAfter))
      && m.out.page.value.kind == if m.pre.row.alertedAt.None? then Alert else Escalation
  {
    PassShape(job, m.pre, m.input, clock);
    LogIsWritten(job, m, clock);
    if InTrouble(m) {
      OfferedIs(m, clock);
    }
  }

  lemma LogIsWritten(job: Job, m: Moment, clock: int)
    requires Observed(job, m, clock)
    ensures m.post.log == WithState(m.pre, m.input.obs.state, m.input.now).log
  {
    StepShape(job, m.pre, m.input, clock);
  }

  lemma OfferedIs(m: Moment, clock: int)
    requires WellFormed(m.pre, clock) && InTrouble(m)
    ensures var o := Offered(m.pre, m.input);
      && o.row.badSince == Some(EpisodeStart(m)) && o.tries == m.pre.tries
      && o.log == WithState(m.pre, m.input.obs.state, m.input.now).log
      && o.row.alertedAt == m.pre.row.alertedAt && o.row.alertedState == m.pre.row.alertedState
  {
  }

  // ---- The recovery ----

  /**
   THE RECOVERY, EXACTLY. A recompute sends one if and only if the job reads an OK that can
   be believed, the episode closes, it was paged for before or is now, and the job may push
   and is not muted. It names the page that is on the phone.
   */
  lemma RecoversExactly(job: Job, m: Moment, clock: int, about: State)
    requires Observed(job, m, clock) && (InTrouble(m) ==> IsAbout(m, about))
    ensures m.out.recovery.Some? <==>
      && m.input.obs.state == OK && m.pre.row.badSince.Some? && m.post.row.badSince.None?
      && !Unverified(m, about)
      && (m.pre.row.alertedAt.Some? || m.out.page.Some?)
      && !job.alertNever && !m.input.mute
    ensures m.out.recovery.Some? ==>
      && m.out.recovery.value.kind == Recovery
      && Some(m.out.recovery.value.state)
         == if m.out.page.Some? then Some(m.out.page.value.state) else m.pre.row.alertedState
  {
    PassShape(job, m.pre, m.input, clock);
    StepShape(job, m.pre, m.input, clock);
    if InTrouble(m) {
      AboutIs(job, m, clock, about);
      OfferShape(job, m.pre, m.input, clock);
    }
  }

  lemma {:induction false} NeverPaged(job: Job, from: int, run: Run)
    requires IsRun(job, FRESH, from, run) && job.alertNever
    ensures EpisodePages(run) == []
    decreases |run|
  {
    if run != [] {
      FreshIsWellFormed(from);
      LastMoment(job, FRESH, from, run);
      NeverPaged(job, from, Before(run));
      if Final(run).out.page.Some? {
        PageFacts(job, Final(run), End(from, Before(run)));
      }
    }
  }

  /**
   In every run, when a believed OK closes an episode that a page of reached the phone, and
   nobody mutes it, the recovery is posted, and names the last of those pages, or the one
   that goes out in the same recompute.
   */
  lemma LandedPagesAreTakenBack(job: Job, from: int, run: Run, about: State)
    requires IsRun(job, FRESH, from, run) && run != [] && EpisodePages(Before(run)) != []
    requires var m := Final(run);
      && m.input.obs.state == OK && !m.input.mute && m.post.row.badSince.None?
      && IsAbout(m, about) && !Unverified(m, about)
    ensures var m, pages := Final(run), EpisodePages(Before(run));
      && m.out.recovery.Some? && RecoveryPost(m) in Posts(run)
      && RecoveryPost(m).state == if m.out.page.Some? then m.out.page.value.state else pages[|pages| - 1].state
  {
    FreshIsWellFormed(from);
    LastMoment(job, FRESH, from, run);
    StampsTellTheTruth(job, from, Before(run));
    if job.alertNever {
      NeverPaged(job, from, Before(run));
    }
    RecoversExactly(job, Final(run), End(from, Before(run)), about);
    assert RecoveryPost(Final(run)) in Posted(Final(run));
  }

  // ---- Rows of another time ----

  /** A page that was sent before its state was kept is named by what the job is about now, and not sent again. */
  lemma NamelessPagesAreNamed(job: Job, rec: Rec, i: Input)
    requires rec.row.badSince.Some? && rec.row.badSince.value <= i.now && Broken(i.obs.state) && !job.alertNever
    requires rec.row.alertedAt.Some? && rec.row.alertedState.None?
    ensures var out := Pass(job, rec, i);
      && out.page.None? && out.rec.row.alertedState == Some(i.obs.state)
      && out.rec.row.alertedAt == rec.row.alertedAt && out.rec.row.badSince == rec.row.badSince
  {
  }

  // ---- A clock that was stepped ----

  lemma PageStepKeeps(job: Job, paged: Stamp, rec: Rec, about: State, mute: bool, now: int)
    requires rec.row.badSince.Some?
    ensures var row := PageStep(job, paged, rec, about, mute, now).rec.row;
      row.badSince == rec.row.badSince && (row.lastPagedAt == rec.row.lastPagedAt || row.lastPagedAt == Some(now))
  {
  }

  /** Whatever a row says, what a pass writes says nothing of the future, and no page without an episode. */
  lemma NothingFromTheFuture(job: Job, rec: Rec, i: Input)
    ensures var row := Pass(job, rec, i).rec.row;
      && (row.lastPagedAt.Some? ==> row.lastPagedAt.value <= i.now)
      && (row.badSince.Some? ==> row.badSince.value <= i.now)
      && (row.alertedAt.Some? ==> row.badSince.Some?)
  {
    var w := WithState(rec, i.obs.state, i.now);
    var healed := w.(row := Heal(w.row, i.now));
    var open := if healed.row.badSince.Some? then healed
                else healed.(row := WithEpisode(healed.row, Some(i.now), None, None));
    PageStepKeeps(job, rec.row.lastPagedAt, open, About(rec.row.state, i.obs.state, w.log), i.mute, i.now);
  }

  /** An episode that starts in the future is none: the pass goes as if the row had no episode. */
  lemma FutureEpisodesAreNone(job: Job, rec: Rec, i: Input)
    requires rec.row.badSince.Some? && rec.row.badSince.value > i.now
    ensures Pass(job, rec, i) == Pass(job, rec.(row := WithEpisode(rec.row, None, None, None)), i)
  {
  }

  lemma NoStampNoCooldown(job: Job, paged: Stamp, rec: Rec, about: State, mute: bool, now: int)
    requires rec.row.badSince.Some? && paged.Some? && paged.value > now
    ensures var with, without := PageStep(job, paged, rec, about, mute, now), PageStep(job, None, rec, about, mute, now);
      with.rec == without.rec && (with.page.Some? <==> without.page.Some?)
  {
    assert !Cooling(job, paged, now) && !Cooling(job, None, now);
  }

  /** A cooldown stamp from the future holds nothing back: the pass pages as if there were none. */
  lemma FutureStampsHoldNothing(job: Job, rec: Rec, i: Input)
    requires rec.row.lastPagedAt.Some? && rec.row.lastPagedAt.value > i.now
    ensures var with, without := Pass(job, rec, i), Pass(job, rec.(row := rec.row.(lastPagedAt := None)), i);
      with.rec == without.rec && (with.page.Some? <==> without.page.Some?) && with.recovery == without.recovery
  {
    var bare := rec.(row := rec.row.(lastPagedAt := None));
    var w, v := WithState(rec, i.obs.state, i.now), WithState(bare, i.obs.state, i.now);
    var healed := w.(row := Heal(w.row, i.now));
    assert v == w.(row := w.row.(lastPagedAt := None)) && Heal(v.row, i.now) == healed.row;
    var open := if healed.row.badSince.Some? then healed
                else healed.(row := WithEpisode(healed.row, Some(i.now), None, None));
    var about := About(rec.row.state, i.obs.state, w.log);
    NoStampNoCooldown(job, rec.row.lastPagedAt, open, about, i.mute, i.now);
  }
}
