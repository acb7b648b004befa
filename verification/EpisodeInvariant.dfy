/** What every recompute keeps about one job's stored record, under a clock that never runs back. */
module EpisodeInvariant {
  import opened Wrappers
  import opened Policy
  import opened StateLog
  import opened EpisodeRules

  ghost predicate LogFits(rec: Rec, clock: int) {
    && Monotone(rec.log)
    && (forall c | c in rec.log :: c.at <= clock)
    && (rec.log == [] ==> rec.row.state == UNKNOWN && rec.row.since.None?)
    && (rec.log != [] ==> Last(rec.log).to == rec.row.state && rec.row.since == Some(Last(rec.log).at))
  }

  /** A spent page belongs to an open episode and is dated by the cooldown stamp. */
  ghost predicate RowFits(row: Row, clock: int) {
    && (row.badSince.None? ==> row.alertedAt.None?)
    && (row.badSince.Some? ==> row.badSince.value <= clock)
    && (row.alertedAt.Some? <==> row.alertedState.Some?)
    && (row.alertedState.Some? ==> Alertable(row.alertedState.value))
    && (row.alertedAt.Some? ==> row.lastPagedAt == row.alertedAt && row.badSince.value <= row.alertedAt.value)
    && (row.lastPagedAt.Some? ==> row.lastPagedAt.value <= clock)
  }

  /**
   The whole invariant. Besides the two parts: an alertable state has an open
   episode and UNKNOWN has none, and an open episode's newest transition that is
   not OK is one worth paging about.
   */
  ghost predicate WellFormed(rec: Rec, clock: int) {
    && LogFits(rec, clock)
    && RowFits(rec.row, clock)
    && (Alertable(rec.row.state) ==> rec.row.badSince.Some?)
    && (rec.row.state == UNKNOWN ==> rec.row.badSince.None?)
    && (rec.row.badSince.Some? ==> LastNonOk(rec.log).Some? && Alertable(LastNonOk(rec.log).value.to))
  }

  lemma FreshIsWellFormed(clock: int)
    ensures WellFormed(FRESH, clock)
  {
  }

  lemma LastNonOkAppend(log: Log, c: Change)
    requires forall d | d in log :: d.at <= c.at
    ensures LastNonOk(log + [c]) == if c.to == OK then LastNonOk(log) else Some(c)
  {
    assert Front(log + [c]) == log && Last(log + [c]) == c;
    LastNonOkIsTheLatest(log);
  }

  lemma LogGrows(log: Log, c: Change, clock: int)
    requires Monotone(log) && (forall d | d in log :: d.at <= clock) && clock <= c.at
    ensures Monotone(log + [c]) && (forall d | d in log + [c] :: d.at <= c.at) && Last(log + [c]) == c
  {
    forall k | 0 <= k < |log|
      ensures log[k].at <= c.at
    {
      assert log[k] in log;
    }
  }

  lemma WriteFits(rec: Rec, s: State, clock: int, now: int)
    requires LogFits(rec, clock) && clock <= now
    ensures LogFits(WithState(rec, s, now), now)
    ensures WithState(rec, s, now).row.state == s
  {
    if rec.row.state != s {
      LogGrows(rec.log, Change(now, s), clock);
    }
  }

  /** Writing a state makes it the newest that is not OK, if it is not OK and is a change. */
  lemma WriteIsTheNewest(rec: Rec, s: State, clock: int, now: int)
    requires LogFits(rec, clock) && clock <= now
    ensures LastNonOk(WithState(rec, s, now).log)
         == if s == OK || s == rec.row.state then LastNonOk(rec.log) else Some(Change(now, s))
  {
    if rec.row.state != s {
      LastNonOkAppend(rec.log, Change(now, s));
    }
  }

  /** The state a pass would page this job about. */
  function Subject(rec: Rec, i: Input): State {
    About(rec.row.state, i.obs.state, WithState(rec, i.obs.state, i.now).log)
  }

  /** Whatever a pass speaks about in an open episode is worth a page: never OK, never UNKNOWN. */
  lemma SubjectIsAlertable(rec: Rec, i: Input, clock: int)
    requires WellFormed(rec, clock) && clock <= i.now
    requires i.obs.state != UNKNOWN && (rec.row.badSince.Some? || Alertable(i.obs.state))
    ensures Alertable(Subject(rec, i))
  {
    WriteIsTheNewest(rec, i.obs.state, clock, i.now);
  }

  /** The record a pass offers its page to: the open episode, or the one this pass opens. */
  function Offered(rec: Rec, i: Input): Rec {
    var w := WithState(rec, i.obs.state, i.now);
    if rec.row.badSince.None? && Alertable(i.obs.state)
    then w.(row := WithEpisode(w.row, Some(i.now), None, None)) else w
  }

  /** A pass over an open episode, seen whole: offer the page, then keep the episode or close it. */
  predicate Offers(rec: Rec, i: Input) {
    i.obs.state != UNKNOWN && (rec.row.badSince.Some? || Alertable(i.obs.state))
  }

  function Offer(job: Job, rec: Rec, i: Input): Paged
    requires Offers(rec, i)
  {
    PageStep(job, rec.row.lastPagedAt, Offered(rec, i), Subject(rec, i), i.mute, i.now)
  }

  /** The episode ends in this pass. */
  predicate Closes(job: Job, rec: Rec, i: Input) {
    && rec.row.badSince.Some?
    && (i.obs.state == UNKNOWN
        || (i.obs.state == OK
            && 10 * OkHeld(rec.row.state, rec.row.since, i.now)
               >= if Holding(i.obs, Subject(rec, i)) then OkHoldTenths(job) else OkDwellTenths(job)))
  }

  lemma PassShape(job: Job, rec: Rec, i: Input, clock: int)
    requires WellFormed(rec, clock) && clock <= i.now
    ensures !Offers(rec, i) ==> Pass(job, rec, i).page.None? && Pass(job, rec, i).recovery.None?
    ensures !Offers(rec, i) ==>
      Pass(job, rec, i).rec == WithState(rec, i.obs.state, i.now)
                               .(row := WithEpisode(WithState(rec, i.obs.state, i.now).row, None, None, None))
    ensures Offers(rec, i) ==>
      var p := Offer(job, rec, i);
      && Pass(job, rec, i).page == p.page
      && Pass(job, rec, i).rec == if Closes(job, rec, i) then Close(p.rec) else p.rec
    ensures Pass(job, rec, i).recovery.Some? ==>
      && Offers(rec, i) && Closes(job, rec, i)
      && Offer(job, rec, i).rec.row.alertedAt.Some?
      && Pass(job, rec, i).recovery.value.kind == Recovery
      && Some(Pass(job, rec, i).recovery.value.state) == Offer(job, rec, i).rec.row.alertedState
  {
    assert Heal(WithState(rec, i.obs.state, i.now).row, i.now) == WithState(rec, i.obs.state, i.now).row;
  }

  /** What offering the page changes, in one place. */
  lemma OfferShape(job: Job, rec: Rec, i: Input, clock: int)
    requires WellFormed(rec, clock) && clock <= i.now && Offers(rec, i)
    ensures var o, p := Offered(rec, i), Offer(job, rec, i);
      && RowFits(o.row, i.now) && o.row.badSince.Some?
      && p.rec.log == o.log && p.rec.row.state == o.row.state && p.rec.row.since == o.row.since
      && p.rec.row.badSince == o.row.badSince
      && (p.page.None? ==> p.rec == o)
      && (p.page.Some? ==> p.page.value == PageIntent(job, rec.row.lastPagedAt, o.row, Subject(rec, i), i.now))
      && (p.page.Some? ==> p.rec.row == WithEpisode(o.row, o.row.badSince, Some(i.now), Some(Subject(rec, i)))
                                        .(lastPagedAt := Some(i.now)))
  {
    SubjectIsAlertable(rec, i, clock);
  }

  /**
   One recompute from start to end. A page that did not land leaves the row exactly
   as it was offered, cooldown stamp included, unless its episode closed in the same
   pass: then the stamp is all that stays of it.
   */
  lemma StepShape(job: Job, rec: Rec, i: Input, clock: int)
    requires WellFormed(rec, clock) && clock <= i.now
    ensures var w, r := WithState(rec, i.obs.state, i.now), Step(job, rec, i);
      && r.log == w.log && r.row.state == i.obs.state && r.row.since == w.row.since
      && (!Offers(rec, i) ==> r.row == WithEpisode(w.row, None, None, None) && r.tries == rec.tries)
    ensures Offers(rec, i) ==>
      var o, p, r := Offered(rec, i), Offer(job, rec, i), Step(job, rec, i);
      && r.tries == p.rec.tries
      && r.row == if Closes(job, rec, i) then WithEpisode(p.rec.row, None, None, None)
                  else if p.page.Some? && !i.pageLands then o.row
                  else p.rec.row
  {
    PassShape(job, rec, i, clock);
    if Offers(rec, i) {
      OfferShape(job, rec, i, clock);
    }
  }

  lemma {:induction false} StepKeepsWellFormed(job: Job, rec: Rec, i: Input, clock: int)
    requires WellFormed(rec, clock) && clock <= i.now
    ensures WellFormed(Step(job, rec, i), i.now)
  {
    var r := Step(job, rec, i);
    WriteFits(rec, i.obs.state, clock, i.now);
    WriteIsTheNewest(rec, i.obs.state, clock, i.now);
    StepShape(job, rec, i, clock);
    assert LogFits(r, i.now);
    if Offers(rec, i) {
      OfferShape(job, rec, i, clock);
      SubjectIsAlertable(rec, i, clock);
    }
  }

  /** No episode survives a pass that sees the whole hold of continuous OK. */
  lemma HeldOkEndsTheEpisode(job: Job, rec: Rec, i: Input, clock: int)
    requires WellFormed(rec, clock) && clock <= i.now
    requires i.obs.state == OK && rec.row.state == OK
    requires 10 * (i.now - rec.row.since.value) >= OkHoldTenths(job)
    ensures Step(job, rec, i).row.badSince.None?
  {
    PassShape(job, rec, i, clock);
  }
}
