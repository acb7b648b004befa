/**
 One job's alert episode: what a recompute pass does to its row, its log and its
 retry entry, and what a dispatch whose POST failed gives back.

 The rules are stated here as conditions on the row; `Services.Core` carries them
 out step by step, and `EpisodeRuns` proves what they add up to over whole runs.
 */
module EpisodeRules {
  import opened Wrappers
  import opened Policy
  import opened StateLog

  type Stamp = Option<int>

  /** The alert columns of one row of the jobs table. */
  datatype Row = Row(state: State, since: Stamp, badSince: Stamp,
                     alertedAt: Stamp, alertedState: Option<State>, lastPagedAt: Stamp)

  /** The retry entry of one job: the last attempt at each rank of one episode. */
  datatype Tries = NoTries | Tries(episode: int, when: map<nat, int>)

  /** Everything stored about one job. */
  datatype Rec = Rec(row: Row, log: Log, tries: Tries)

  const FRESH: Rec := Rec(Row(UNKNOWN, None, None, None, None, None), [], NoTries)

  /** What the state computation answered for one job in one pass. */
  datatype Obs = Obs(state: State, destUnverified: bool, dampedFailure: bool)

  datatype Kind = Alert | Escalation | Recovery

  /** One push decided by a pass and already written to the row. */
  datatype Intent = Intent(job: string, kind: Kind, state: State, badSince: Stamp, alertedAt: Stamp,
                           prevPagedAt: Stamp, prevAlertedAt: Stamp, prevAlertedState: Option<State>,
                           within: Option<nat>)

  // ---- Table writes ----

  function WithState(rec: Rec, s: State, now: int): Rec {
    if rec.row.state == s then rec
    else rec.(row := rec.row.(state := s, since := Some(now)), log := rec.log + [Change(now, s)])
  }

  function WithEpisode(row: Row, badSince: Stamp, alertedAt: Stamp, alertedState: Option<State>): Row {
    row.(badSince := badSince, alertedAt := alertedAt, alertedState := alertedState)
  }

  // ---- Conditions ----

  predicate Cooling(job: Job, lastPagedAt: Stamp, now: int) {
    !job.alertNever && lastPagedAt.Some?
    && lastPagedAt.value <= now < lastPagedAt.value + Cooldown(job)
  }

  /** Past the bar on the episode clock. */
  predicate PastClock(job: Job, began: int, now: int) { now - began >= job.alertAfter }

  /** Past the bar on the accumulator: a whole threshold in this state inside the window. */
  predicate PastAccumulator(job: Job, log: Log, about: State, now: int) {
    BadWindow(job) > 0 && Alertable(about)
    && Accrued(log, now - BadWindow(job), now, {about}, BAD_SCAN_LIMIT) >= job.alertAfter
  }

  predicate PastBar(job: Job, log: Log, about: State, began: int, now: int) {
    PastClock(job, began, now) || PastAccumulator(job, log, about, now)
  }

  function WithinOf(job: Job, began: int, now: int): Option<nat> {
    if PastClock(job, began, now) then None else Some(BadWindow(job))
  }

  predicate RetryDue(tries: Tries, episode: int, rank: nat, now: int) {
    tries.NoTries? || tries.episode != episode || rank !in tries.when
    || now - tries.when[rank] >= ALERT_RETRY_MIN_S || now < tries.when[rank]
  }

  function NoteAttempt(tries: Tries, episode: int, rank: nat, now: int): Tries {
    if tries.NoTries? || tries.episode != episode then Tries(episode, map[rank := now])
    else tries.(when := tries.when[rank := now])
  }

  /** How long the job has been continuously OK. */
  function OkHeld(prev: State, since: Stamp, now: int): nat {
    if prev == OK && since.Some? && since.value <= now then now - since.value else 0
  }

  predicate Holding(obs: Obs, about: State) {
    obs.dampedFailure || (obs.destUnverified && about in {STALE_DEST, BEHIND})
  }

  /** The state the episode is about: the current one, or the last one that was not OK. */
  function About(prev: State, state: State, log: Log): State {
    if state != OK then state
    else if prev != OK then prev
    else if LastNonOk(log).Some? then LastNonOk(log).value.to else prev
  }

  // ---- The page ----

  /** The episode of `row` has a page to spend: none was sent, or a strictly milder one. */
  predicate Unspent(row: Row, about: State) {
    row.alertedAt.None?
    || (row.alertedState.Some? && Severity(row.alertedState.value) < Severity(about))
  }

  /** The page goes out now. `paged` is the cooldown stamp as it was before this pass. */
  predicate Pages(job: Job, paged: Stamp, rec: Rec, about: State, mute: bool, now: int)
    requires rec.row.badSince.Some?
  {
    && !job.alertNever
    && Unspent(rec.row, about)
    && PastBar(job, rec.log, about, rec.row.badSince.value, now)
    && (rec.row.alertedAt.None? ==> !Cooling(job, paged, now))
    && !mute
    && RetryDue(rec.tries, rec.row.badSince.value, Severity(about), now)
  }

  function PageIntent(job: Job, paged: Stamp, row: Row, about: State, now: int): Intent
    requires row.badSince.Some?
  {
    Intent(job.id, if row.alertedAt.None? then Alert else Escalation, about, row.badSince, Some(now),
           paged, row.alertedAt, row.alertedState, WithinOf(job, row.badSince.value, now))
  }

  datatype Paged = Paged(rec: Rec, page: Option<Intent>)

  /** What spending the page, or holding it, leaves behind. */
  function PageStep(job: Job, paged: Stamp, rec: Rec, about: State, mute: bool, now: int): Paged
    requires rec.row.badSince.Some?
  {
    if Pages(job, paged, rec, about, mute, now) then
      Paged(Rec(WithEpisode(rec.row, rec.row.badSince, Some(now), Some(about)).(lastPagedAt := Some(now)),
                rec.log, NoteAttempt(rec.tries, rec.row.badSince.value, Severity(about), now)),
            Some(PageIntent(job, paged, rec.row, about, now)))
    else if !job.alertNever && rec.row.alertedAt.Some? && rec.row.alertedState.None? then
      Paged(rec.(row := rec.row.(alertedState := Some(about))), None)
    else
      Paged(rec, None)
  }

  // ---- One pass ----

  /** Drops a cooldown stamp, an episode start or a spent page no clock can honour. */
  function Heal(row: Row, now: int): Row {
    var r := if row.lastPagedAt.Some? && row.lastPagedAt.value > now then row.(lastPagedAt := None) else row;
    if (r.badSince.Some? && r.badSince.value > now) || (r.badSince.None? && r.alertedAt.Some?)
    then WithEpisode(r, None, None, None) else r
  }

  /** What a pass decided for one job: the record as written, and the pushes still to send. */
  datatype Out = Out(rec: Rec, page: Option<Intent>, recovery: Option<Intent>)

  function Close(rec: Rec): Rec { rec.(row := WithEpisode(rec.row, None, None, None)) }

  function RecoveryIntent(job: Job, state: State): Intent {
    Intent(job.id, Recovery, state, None, None, None, None, None, None)
  }

  /** The OK branch, entered with an open episode: page first, then hold, dwell or close. */
  function ResolveOk(job: Job, pre: Row, rec: Rec, obs: Obs, about: State, mute: bool, now: int): Out
    requires rec.row.badSince.Some?
  {
    var p := PageStep(job, pre.lastPagedAt, rec, about, mute, now);
    var held := 10 * OkHeld(pre.state, pre.since, now);
    if Holding(obs, about) then
      Out(if held < OkHoldTenths(job) then p.rec else Close(p.rec), p.page, None)
    else if held < OkDwellTenths(job) then
      Out(p.rec, p.page, None)
    else
      Out(Close(p.rec), p.page,
          if p.rec.row.alertedAt.Some? && !job.alertNever && !mute
          then Some(RecoveryIntent(job, if p.rec.row.alertedState.Some? then p.rec.row.alertedState.value
                                        else about))
          else None)
  }

  /** The episode pass for one job, after its state was written. `pre` is the row before that. */
  function Resolve(job: Job, pre: Row, written: Rec, obs: Obs, mute: bool, now: int): Out {
    var rec := written.(row := Heal(written.row, now));
    if obs.state == OK then
      if rec.row.badSince.None? then Out(rec, None, None)
      else ResolveOk(job, pre, rec, obs, About(pre.state, obs.state, rec.log), mute, now)
    else if !Alertable(obs.state) then
      Out(if rec.row.badSince.Some? then Close(rec) else rec, None, None)
    else
      var open := if rec.row.badSince.Some? then rec
                  else rec.(row := WithEpisode(rec.row, Some(now), None, None));
      var p := PageStep(job, pre.lastPagedAt, open, obs.state, mute, now);
      Out(p.rec, p.page, None)
  }

  // ---- Dispatch ----

  /** The page of a POST that failed goes back, to the same episode only. */
  function Rollback(row: Row, page: Intent): Row {
    if row.badSince != page.badSince || row.alertedAt != page.alertedAt then row
    else WithEpisode(row, page.badSince, page.prevAlertedAt, page.prevAlertedState).(lastPagedAt := page.prevPagedAt)
  }

  /** One job's whole recompute: pass, dispatch, and the return of a page that did not land. */
  datatype Input = Input(now: int, obs: Obs, mute: bool, pageLands: bool, recoveryLands: bool)

  function Pass(job: Job, rec: Rec, i: Input): Out {
    Resolve(job, rec.row, WithState(rec, i.obs.state, i.now), i.obs, i.mute, i.now)
  }

  function Settle(o: Out, pageLands: bool): Rec {
    if o.page.Some? && !pageLands then o.rec.(row := Rollback(o.rec.row, o.page.value)) else o.rec
  }

  function Step(job: Job, rec: Rec, i: Input): Rec { Settle(Pass(job, rec, i), i.pageLands) }
}
