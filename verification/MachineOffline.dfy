/**
 Whole runs of the board: a page withheld because a machine's probe job is LATE is
 always spoken for by that probe job.
 */
module MachineOffline {
  import opened Wrappers
  import opened Policy
  import opened StateLog
  import opened EpisodeRules
  import opened EpisodeInvariant
  import opened EpisodeRuns
  import opened EpisodeCeiling
  import opened Board

  /** One recompute of the board as it happened. */
  datatype BoardMoment = BoardMoment(pre: Records, input: BoardInput, post: Records)

  type BoardRun = seq<BoardMoment>

  function RecordsAfter(board: Records, run: BoardRun): Records {
    if run == [] then board else run[|run| - 1].post
  }

  function ClockAfter(from: int, run: BoardRun): int { if run == [] then from else run[|run| - 1].input.now }

  /** What a restart of the process leaves of the board. */
  function Forgotten(board: Records): Records { map id | id in board :: Forget(board[id]) }

  /** The k-th recompute starts where the one before it ended, the process restarted or not. */
  ghost predicate BoardLink(jobs: Registry, board: Records, from: int, run: BoardRun, k: int)
    requires 0 <= k < |run|
  {
    && BoardStep(jobs, run[k].pre, run[k].input, run[k].post)
    && (run[k].pre == RecordsAfter(board, run[..k]) || run[k].pre == Forgotten(RecordsAfter(board, run[..k])))
    && ClockAfter(from, run[..k]) <= run[k].input.now
  }

  /** A run of the board, from fresh rows. */
  ghost predicate IsBoardRun(jobs: Registry, board: Records, from: int, run: BoardRun) {
    && (forall job | job in jobs :: job.id in board && board[job.id] == FRESH)
    && forall k {:trigger BoardLink(jobs, board, from, run, k)} | 0 <= k < |run| :: BoardLink(jobs, board, from, run, k)
  }

  /** One job's share of a recompute of the board. */
  function Share(jobs: Registry, m: BoardMoment, job: Job): Moment
    requires Covers(jobs, m.pre, m.input) && job in jobs
  {
    var i := InputFor(jobs, m.pre, m.input, job);
    Moment(m.pre[job.id], i, Pass(job, m.pre[job.id], i), Step(job, m.pre[job.id], i))
  }

  ghost predicate Shares(jobs: Registry, run: BoardRun, job: Job, own: Run)
    requires job in jobs
  {
    && |own| == |run|
    && forall k | 0 <= k < |run| :: Covers(jobs, run[k].pre, run[k].input) && own[k] == Share(jobs, run[k], job)
  }

  /** Seen from one job, a run of the board is a run of that job: every theorem about those applies. */
  lemma RunOfOneJob(jobs: Registry, board: Records, from: int, run: BoardRun, job: Job) returns (own: Run)
    requires IsBoardRun(jobs, board, from, run) && job in jobs
    ensures Shares(jobs, run, job, own) && IsRun(job, FRESH, from, own)
  {
    forall k | 0 <= k < |run|
      ensures Covers(jobs, run[k].pre, run[k].input)
    {
      assert BoardLink(jobs, board, from, run, k);
    }
    own := seq(|run|, k requires 0 <= k < |run| => Share(jobs, run[k], job));
    forall k | 0 <= k < |own|
      ensures Link(job, FRESH, from, own, k)
    {
      assert BoardLink(jobs, board, from, run, k);
      if k > 0 {
        assert BoardLink(jobs, board, from, run, k - 1);
      }
    }
  }

  // ---- What a mute rests on ----

  /** A mute leaves the page, the stamps and the retry entry of the sibling alone. */
  lemma MuteSpendsNothing(job: Job, m: Moment, clock: int)
    requires Observed(job, m, clock) && m.input.mute
    ensures m.out.page.None? && m.out.recovery.None?
    ensures m.post.row.lastPagedAt == m.pre.row.lastPagedAt && m.post.tries == m.pre.tries
    ensures m.post.row.badSince.Some? ==>
      m.post.row.alertedAt == m.pre.row.alertedAt && m.post.row.alertedState == m.pre.row.alertedState
  {
    RowFacts(job, m, clock);
    PassShape(job, m.pre, m.input, clock);
    if m.out.page.Some? {
      PageFacts(job, m, clock);
    }
  }

  /** No probe job that speaks for its machine is ever muted itself. */
  lemma ProbeIsNeverMuted(jobs: Registry, board: Records, i: BoardInput, job: Job)
    requires Covers(jobs, board, i) && job in jobs
    requires MachineProbe(jobs, job.machine) == Some(job)
    ensures !InputFor(jobs, board, i, job).mute
  {
  }

  lemma ProbeOfItsMachine(jobs: Registry, machine: string)
    requires MachineProbe(jobs, machine).Some?
    ensures MachineProbe(jobs, MachineProbe(jobs, machine).value.machine) == MachineProbe(jobs, machine)
  {
  }

  /** The probe has an open episode, and its page is out or not held by its cooldown. */
  predicate Speaks(probe: Job, row: Row, clock: int) {
    && !probe.alertNever && row.badSince.Some?
    && (row.alertedAt.Some? || !Cooling(probe, row.lastPagedAt, clock))
  }

  /** Speaking lasts for as long as the probe reads LATE and is not muted. */
  lemma KeepsSpeaking(probe: Job, m: Moment, clock: int)
    requires Observed(probe, m, clock)
    requires m.input.obs.state == LATE && !m.input.mute && !probe.alertNever
    requires m.pre.row.alertedAt.Some? || !Cooling(probe, m.pre.row.lastPagedAt, m.input.now)
    ensures Speaks(probe, m.post.row, m.input.now)
    ensures m.post.row.badSince == Some(EpisodeStart(m))
  {
    RowFacts(probe, m, clock);
    if m.out.page.Some? {
      PageFacts(probe, m, clock);
    }
  }

  /**
   EVERY MUTE IS SPOKEN FOR. Whenever a job's page or recovery is withheld while its
   machine's probe job is LATE, that probe job may page, is not muted itself, and
   after the recompute has an open episode which it has paged for or whose page no
   cooldown holds.
   */
  lemma MuteIsSpokenFor(jobs: Registry, board: Records, from: int, run: BoardRun, job: Job, k: nat)
      returns (probe: Job, own: Run)
    requires DistinctIds(jobs) && IsBoardRun(jobs, board, from, run) && job in jobs && k < |run|
    requires Covers(jobs, run[k].pre, run[k].input)
    requires InputFor(jobs, run[k].pre, run[k].input, job).mute
    requires MachineProbe(jobs, job.machine).Some?
    requires run[k].input.obs[MachineProbe(jobs, job.machine).value.id].state == LATE
    ensures probe in jobs && probe != job && probe.machine == job.machine && MachineProbeJob(probe)
    ensures Some(probe) == MachineProbe(jobs, job.machine)
    ensures Shares(jobs, run, probe, own) && IsRun(probe, FRESH, from, own)
    ensures forall j | 0 <= j < |own| :: !own[j].input.mute
    ensures Speaks(probe, own[k].post.row, run[k].input.now)
  {
    probe := MachineProbe(jobs, job.machine).value;
    own := RunOfOneJob(jobs, board, from, run, probe);
    ProbeOfItsMachine(jobs, job.machine);
    forall j | 0 <= j < |own|
      ensures !own[j].input.mute
    {
      ProbeIsNeverMuted(jobs, run[j].pre, run[j].input, probe);
    }
    var m := own[k];
    PrefixIsRun(probe, FRESH, from, own, k + 1);
    FreshIsWellFormed(from);
    LastMoment(probe, FRESH, from, own[..k + 1]);
    KeepsSpeaking(probe, m, End(from, own[..k + 1][..k]));
  }

  lemma PrefixIsRun(job: Job, rec: Rec, from: int, run: Run, n: nat)
    requires IsRun(job, rec, from, run) && n <= |run|
    ensures IsRun(job, rec, from, run[..n])
  {
    forall k | 0 <= k < n
      ensures Link(job, rec, from, run[..n], k)
    {
      assert Link(job, rec, from, run, k);
      assert run[..n][..k] == run[..k];
    }
  }

  lemma {:induction false} SpeaksWhileLate(probe: Job, from: int, own: Run, k: nat, n: nat)
    requires IsRun(probe, FRESH, from, own) && k < n <= |own|
    requires Speaks(probe, own[k].post.row, own[k].input.now)
    requires forall j | k < j < n :: own[j].input.obs.state == LATE && !own[j].input.mute
    ensures Speaks(probe, own[n - 1].post.row, own[n - 1].input.now)
    ensures own[n - 1].post.row.badSince == own[k].post.row.badSince
    ensures own[k].input.now <= own[n - 1].input.now
    decreases n
  {
    if k < n - 1 {
      SpeaksWhileLate(probe, from, own, k, n - 1);
      PrefixIsRun(probe, FRESH, from, own, n);
      FreshIsWellFormed(from);
      LastMoment(probe, FRESH, from, own[..n]);
      assert Before(own[..n]) == own[..n - 1];
      KeepsSpeaking(probe, own[n - 1], End(from, own[..n - 1]));
    }
  }

  /**
   ... and if the probe stays LATE, it speaks by its own threshold: at the first
   recompute past it the machine's one alert is out, goes out now, or was POSTed and
   refused less than a retry gap ago.
   */
  lemma ProbeSpeaksByItsThreshold(probe: Job, from: int, own: Run, k: nat)
    requires IsRun(probe, FRESH, from, own) && k + 1 < |own|
    requires Speaks(probe, own[k].post.row, own[k].input.now)
    requires forall j | k < j < |own| :: own[j].input.obs.state == LATE && !own[j].input.mute
    requires Final(own).input.now >= own[k].post.row.badSince.value + probe.alertAfter
    ensures
      || Final(own).pre.row.alertedAt.Some?
      || Final(own).out.page.Some?
      || RefusedLately(Posts(Before(own)), Final(own))
  {
    SpeaksWhileLate(probe, from, own, k, |own| - 1);
    FreshIsWellFormed(from);
    LastMoment(probe, FRESH, from, own);
    if Final(own).pre.row.alertedAt.None? {
      HardCeiling(probe, from, own);
    }
  }
}
