/**
 Whole runs of one job's episode machine, under a clock that never runs back, with
 POSTs failing and the process restarting wherever they like.
 */
module EpisodeRuns {
  import opened Wrappers
  import opened Policy
  import opened StateLog
  import opened EpisodeRules
  import opened EpisodeInvariant

  /** One recompute as it happened: the record before, the input, the decision, the record after. */
  datatype Moment = Moment(pre: Rec, input: Input, out: Out, post: Rec)

  predicate Happens(job: Job, m: Moment) {
    m.out == Pass(job, m.pre, m.input) && m.post == Settle(m.out, m.input.pageLands)
  }

  type Run = seq<Moment>

  function Before(run: Run): Run
    requires run != []
  {
    run[..|run| - 1]
  }

  function Final(run: Run): Moment
    requires run != []
  {
    run[|run| - 1]
  }

  /** The record a run leaves behind, and the clock it stops at. */
  function After(rec: Rec, run: Run): Rec { if run == [] then rec else Final(run).post }

  function End(from: int, run: Run): int { if run == [] then from else Final(run).input.now }

  /** What a restart of the process leaves: the tables, and an empty retry map. */
  function Forget(rec: Rec): Rec { rec.(tries := NoTries) }

  /** The record a recompute finds: the one left behind, or what is left of it after a restart. */
  predicate Follows(pre: Rec, before: Rec) { pre == before || pre == Forget(before) }

  /** The k-th recompute starts where the one before it ended, the process restarted or not, and no earlier. */
  ghost predicate Link(job: Job, rec: Rec, from: int, run: Run, k: int)
    requires 0 <= k < |run|
  {
    && Happens(job, run[k])
    && Follows(run[k].pre, After(rec, run[..k]))
    && End(from, run[..k]) <= run[k].input.now
  }

  ghost predicate IsRun(job: Job, rec: Rec, from: int, run: Run) {
    forall k {:trigger Link(job, rec, from, run, k)} | 0 <= k < |run| :: Link(job, rec, from, run, k)
  }

  /** Taking a run apart at its last recompute. */
  lemma Unroll(job: Job, rec: Rec, from: int, run: Run)
    requires IsRun(job, rec, from, run) && run != []
    ensures IsRun(job, rec, from, Before(run))
    ensures Happens(job, Final(run)) && Follows(Final(run).pre, After(rec, Before(run)))
    ensures End(from, Before(run)) <= Final(run).input.now
  {
    var front := Before(run);
    assert Link(job, rec, from, run, |run| - 1);
    forall k | 0 <= k < |front|
      ensures Link(job, rec, from, front, k)
    {
      assert Link(job, rec, from, run, k);
      assert front[..k] == run[..k];
    }
  }

  /** Every input sequence has its run, so nothing said of all runs is said of none. */
  function ExtendFrom(job: Job, run: Run, pre: Rec, i: Input): Run {
    run + [Moment(pre, i, Pass(job, pre, i), Step(job, pre, i))]
  }

  function Extend(job: Job, rec: Rec, run: Run, i: Input): Run { ExtendFrom(job, run, After(rec, run), i) }

  lemma ExtendIsRun(job: Job, rec: Rec, from: int, run: Run, pre: Rec, i: Input)
    requires IsRun(job, rec, from, run) && Follows(pre, After(rec, run)) && End(from, run) <= i.now
    ensures IsRun(job, rec, from, ExtendFrom(job, run, pre, i))
  {
    var longer := ExtendFrom(job, run, pre, i);
    forall k | 0 <= k < |longer|
      ensures Link(job, rec, from, longer, k)
    {
      if k < |run| {
        assert Link(job, rec, from, run, k);
        assert longer[..k] == run[..k];
      } else {
        assert longer[..k] == run;
      }
    }
  }

  /** Every reachable record is well formed. */
  lemma {:induction false} ReachableIsWellFormed(job: Job, rec: Rec, from: int, run: Run)
    requires WellFormed(rec, from) && IsRun(job, rec, from, run)
    ensures WellFormed(After(rec, run), End(from, run))
    decreases |run|
  {
    if run != [] {
      Unroll(job, rec, from, run);
      ReachableIsWellFormed(job, rec, from, Before(run));
      StepKeepsWellFormed(job, Final(run).pre, Final(run).input, End(from, Before(run)));
    }
  }

  /** The last recompute of a run, with what is known before it. */
  lemma LastMoment(job: Job, rec: Rec, from: int, run: Run)
    requires WellFormed(rec, from) && IsRun(job, rec, from, run) && run != []
    ensures IsRun(job, rec, from, Before(run))
    ensures Observed(job, Final(run), End(from, Before(run)))
    ensures Follows(Final(run).pre, After(rec, Before(run)))
  {
    Unroll(job, rec, from, run);
    ReachableIsWellFormed(job, rec, from, Before(run));
  }

  /** A recompute of a well formed record, at a clock that has not run back. */
  ghost predicate Observed(job: Job, m: Moment, clock: int) {
    Happens(job, m) && WellFormed(m.pre, clock) && clock <= m.input.now
  }

  // ---- What was pushed ----

  /** One POST, as the phone's owner would list it. */
  datatype Post = Post(at: int, kind: Kind, state: State, episode: Stamp, landed: bool)

  function PagePost(m: Moment): Post
    requires m.out.page.Some?
  {
    Post(m.input.now, m.out.page.value.kind, m.out.page.value.state, m.out.page.value.badSince, m.input.pageLands)
  }

  function RecoveryPost(m: Moment): Post
    requires m.out.recovery.Some?
  {
    Post(m.input.now, Recovery, m.out.recovery.value.state, None, m.input.recoveryLands)
  }

  function Posted(m: Moment): seq<Post> {
    (if m.out.page.Some? then [PagePost(m)] else []) + if m.out.recovery.Some? then [RecoveryPost(m)] else []
  }

  /** Every POST of the run, in order. */
  function Posts(run: Run): seq<Post>
    decreases |run|
  {
    if run == [] then [] else Posts(Before(run)) + Posted(Final(run))
  }

  // ---- One recompute in the terms the run theorems use ----

  /** The episode a recompute is about starts here. */
  function EpisodeStart(m: Moment): int { if m.pre.row.badSince.Some? then m.pre.row.badSince.value else m.input.now }

  /** What a page says and what it takes to send one. */
  lemma PageFacts(job: Job, m: Moment, clock: int)
    requires Observed(job, m, clock) && m.out.page.Some?
    ensures var page, row := m.out.page.value, m.pre.row;
      && Offers(m.pre, m.input) && page.state == Subject(m.pre, m.input) && Alertable(page.state)
      && page.badSince == Some(EpisodeStart(m)) && page.alertedAt == Some(m.input.now)
      && page.kind == (if row.alertedAt.None? then Alert else Escalation)
      && (row.alertedAt.None? ==> !Cooling(job, row.lastPagedAt, m.input.now))
      && (row.alertedAt.Some? ==> Severity(row.alertedState.value) < Severity(page.state))
      && !job.alertNever && !m.input.mute
      && PastBar(job, m.post.log, page.state, EpisodeStart(m), m.input.now)
      && RetryDue(m.pre.tries, EpisodeStart(m), Severity(page.state), m.input.now)
      && m.post.tries == NoteAttempt(m.pre.tries, EpisodeStart(m), Severity(page.state), m.input.now)
  {
    PassShape(job, m.pre, m.input, clock);
    StepShape(job, m.pre, m.input, clock);
    OfferShape(job, m.pre, m.input, clock);
    SubjectIsAlertable(m.pre, m.input, clock);
  }

  /** Whether the episode is open afterwards, and what its stamps say then. */
  lemma RowFacts(job: Job, m: Moment, clock: int)
    requires Observed(job, m, clock)
    ensures var row, r, page := m.pre.row, m.post.row, m.out.page;
      && (page.None? ==> m.post.tries == m.pre.tries)
      && r.badSince == (if !Offers(m.pre, m.input) || Closes(job, m.pre, m.input) then None
                        else Some(EpisodeStart(m)))
      && (r.badSince.None? ==> r.alertedAt.None? && r.alertedState.None?)
      && r.lastPagedAt == (if page.Some? && (m.input.pageLands || r.badSince.None?) then Some(m.input.now)
                           else row.lastPagedAt)
      && (r.badSince.Some? && page.Some? && m.input.pageLands ==>
            r.alertedAt == Some(m.input.now) && r.alertedState == Some(page.value.state))
      && (r.badSince.Some? && !(page.Some? && m.input.pageLands) ==>
            r.alertedAt == row.alertedAt && r.alertedState == row.alertedState)
  {
    PassShape(job, m.pre, m.input, clock);
    StepShape(job, m.pre, m.input, clock);
    if Offers(m.pre, m.input) {
      OfferShape(job, m.pre, m.input, clock);
    }
  }

  /** A recovery ends an episode that was paged for, in this recompute or before, and names the page. */
  lemma RecoveryFacts(job: Job, m: Moment, clock: int)
    requires Observed(job, m, clock) && m.out.recovery.Some?
    ensures m.post.row.badSince.None? && m.pre.row.badSince.Some? && m.out.recovery.value.kind == Recovery
    ensures m.out.page.Some? || m.pre.row.alertedAt.Some?
    ensures Some(m.out.recovery.value.state)
         == if m.out.page.Some? then Some(m.out.page.value.state) else m.pre.row.alertedState
  {
    PassShape(job, m.pre, m.input, clock);
    StepShape(job, m.pre, m.input, clock);
    OfferShape(job, m.pre, m.input, clock);
  }
}
