/**
 Whom the machine-offline rule mutes, exactly: a sibling of the machine's probe job that is
 LATE with it, or is OK after LATE while the probe is on its way back, and nobody else.
 */
module MachineMute {
  import opened Wrappers
  import opened Policy
  import opened StateLog
  import opened EpisodeRules
  import opened EpisodeInvariant
  import opened EpisodeRuns
  import opened EpisodeCeiling
  import opened EpisodeExactly
  import opened Board
  import opened MachineOffline

  /** The state a job reads in this recompute, and its log once that is written. */
  function Reads(i: BoardInput, id: string): State
    requires id in i.obs
  {
    i.obs[id].state
  }

  function LogNow(board: Records, i: BoardInput, id: string): Log
    requires id in board && id in i.obs
  {
    WithState(board[id], Reads(i, id), i.now).log
  }

  /** The probe may page, and has, or its own cooldown is over. */
  predicate CanSpeak(probe: Job, row: Row, now: int) {
    && !probe.alertNever
    && (row.alertedAt.Some? || row.lastPagedAt.None? || row.lastPagedAt.value > now
        || now - row.lastPagedAt.value >= Max(probe.alertAfter, 21600))
  }

  /** The probe is LATE, was until now, or is still in an episode that was LATE last. */
  ghost predicate OnItsWayBack(board: Records, i: BoardInput, probe: Job)
    requires probe.id in board && probe.id in i.obs
  {
    || Reads(i, probe.id) == LATE
    || board[probe.id].row.state == LATE
    || (board[probe.id].row.badSince.Some? && LastBad(LogNow(board, i, probe.id), LATE))
  }

  /** The job is LATE with the probe, or is OK after LATE while the probe comes back. */
  ghost predicate SameFact(board: Records, i: BoardInput, job: Job, probe: Job)
    requires job.id in board && job.id in i.obs && probe.id in board && probe.id in i.obs
  {
    || (Reads(i, job.id) == LATE && Reads(i, probe.id) == LATE)
    || (Reads(i, job.id) == OK && LastBad(LogNow(board, i, job.id), LATE) && OnItsWayBack(board, i, probe))
  }

  lemma AboutLate(rec: Rec, i: Input, clock: int)
    requires WellFormed(rec, clock) && clock <= i.now && i.obs.state == OK
    ensures About(rec.row.state, OK, WithState(rec, OK, i.now).log) == LATE
       <==> LastBad(WithState(rec, OK, i.now).log, LATE)
  {
    var log := WithState(rec, OK, i.now).log;
    LastBadIs(log, LATE);
    WriteIsTheNewest(rec, OK, clock, i.now);
    if rec.row.state != OK && rec.log != [] {
      LastIsLatest(rec.log);
    }
  }

  lemma ReturningIs(rec: Rec, s: State, clock: int, now: int)
    requires WellFormed(rec, clock) && clock <= now
    ensures (s == LATE || rec.row.state == LATE || Returning(rec.row, WithState(rec, s, now).log))
       <==> (s == LATE || rec.row.state == LATE || (rec.row.badSince.Some? && LastBad(WithState(rec, s, now).log, LATE)))
  {
    LastBadIs(WithState(rec, s, now).log, LATE);
    WriteIsTheNewest(rec, s, clock, now);
    if rec.row.state != OK && rec.log != [] {
      LastIsLatest(rec.log);
    }
  }

  /** THE MUTE, EXACTLY, on any board that a run reaches. */
  lemma MuteExactly(jobs: Registry, board: Records, i: BoardInput, job: Job, clock: int)
    requires Covers(jobs, board, i) && job in jobs && clock <= i.now
    requires forall j | j in jobs :: WellFormed(board[j.id], clock)
    ensures var probe := MachineProbe(jobs, job.machine);
      InputFor(jobs, board, i, job).mute <==>
        && probe.Some? && probe.value.id != job.id
        && CanSpeak(probe.value, board[probe.value.id].row, i.now)
        && SameFact(board, i, job, probe.value)
  {
    var probe := MachineProbe(jobs, job.machine);
    if probe.Some? {
      var own := Input(i.now, i.obs[job.id], false, true, true);
      if own.obs.state == OK {
        AboutLate(board[job.id], own, clock);
      }
      ReturningIs(board[probe.value.id], Reads(i, probe.value.id), clock, i.now);
    }
  }

  /** Nobody is muted but a job that reads LATE, or reads OK and was last LATE: never a job with news of its own. */
  lemma OnlyLateIsMuted(jobs: Registry, board: Records, i: BoardInput, job: Job, clock: int)
    requires Covers(jobs, board, i) && job in jobs && clock <= i.now
    requires forall j | j in jobs :: WellFormed(board[j.id], clock)
    requires InputFor(jobs, board, i, job).mute
    ensures Reads(i, job.id) == LATE || (Reads(i, job.id) == OK && LastBad(LogNow(board, i, job.id), LATE))
  {
    MuteExactly(jobs, board, i, job, clock);
  }

  lemma LoudIsNotMuted(jobs: Registry, board: Records, i: BoardInput, job: Job, clock: int)
    requires Covers(jobs, board, i) && job in jobs && clock <= i.now
    requires forall j | j in jobs :: WellFormed(board[j.id], clock)
    requires Reads(i, job.id) in {FAIL, STALE_DEST, BEHIND}
    ensures !InputFor(jobs, board, i, job).mute
  {
    MuteExactly(jobs, board, i, job, clock);
  }

  /** And a LATE sibling of a LATE probe job that can speak always is. */
  lemma LateSiblingsAreMuted(jobs: Registry, board: Records, i: BoardInput, job: Job, probe: Job)
    requires Covers(jobs, board, i) && job in jobs && probe in jobs
    requires MachineProbe(jobs, job.machine) == Some(probe) && probe.id != job.id
    requires CanSpeak(probe, board[probe.id].row, i.now)
    requires Reads(i, job.id) == LATE && Reads(i, probe.id) == LATE
    ensures InputFor(jobs, board, i, job).mute
  {
  }

  lemma RecordIsWellFormed(jobs: Registry, board: Records, from: int, run: BoardRun, k: nat, job: Job)
    requires IsBoardRun(jobs, board, from, run) && k < |run| && job in jobs
    ensures Covers(jobs, run[k].pre, run[k].input) && ClockAfter(from, run[..k]) <= run[k].input.now
    ensures WellFormed(run[k].pre[job.id], ClockAfter(from, run[..k]))
  {
    assert BoardLink(jobs, board, from, run, k);
    var own := RunOfOneJob(jobs, board, from, run, job);
    EachIsObserved(job, from, own, k);
    assert own[k].pre == run[k].pre[job.id];
    assert End(from, own[..k]) == ClockAfter(from, run[..k]);
  }

  lemma EachIsObserved(job: Job, from: int, own: Run, k: nat)
    requires IsRun(job, FRESH, from, own) && k < |own|
    ensures Observed(job, own[k], End(from, own[..k]))
  {
    var upTo := own[..k + 1];
    PrefixIsRun(job, FRESH, from, own, k + 1);
    FreshIsWellFormed(from);
    LastMoment(job, FRESH, from, upTo);
    assert Final(upTo) == own[k] && Before(upTo) == own[..k];
  }

  /** In every run of the board every record that a recompute finds is well formed, and its clock is not behind. */
  lemma BoardsAreWellFormed(jobs: Registry, board: Records, from: int, run: BoardRun, k: nat) returns (clock: int)
    requires IsBoardRun(jobs, board, from, run) && k < |run|
    ensures clock <= run[k].input.now && Covers(jobs, run[k].pre, run[k].input)
    ensures forall j | j in jobs :: WellFormed(run[k].pre[j.id], clock)
  {
    clock := ClockAfter(from, run[..k]);
    assert BoardLink(jobs, board, from, run, k);
    forall j | j in jobs
      ensures WellFormed(run[k].pre[j.id], clock)
    {
      RecordIsWellFormed(jobs, board, from, run, k, j);
    }
  }

  /**
   LOUD JOBS ARE HEARD. In every run of the board a job that reads FAIL, STALE_DEST or
   BEHIND is never muted, whatever its machine's probe job does: past its bar and its
   cooldown its page goes out, or was POSTed and refused within the last retry gap.
   */
  lemma LoudJobsAreHeard(jobs: Registry, board: Records, from: int, run: BoardRun, job: Job) returns (own: Run)
    requires IsBoardRun(jobs, board, from, run) && job in jobs && run != []
    requires job.id in run[|run| - 1].input.obs && run[|run| - 1].input.obs[job.id].state in {FAIL, STALE_DEST, BEHIND}
    ensures Shares(jobs, run, job, own) && IsRun(job, FRESH, from, own)
    ensures !Final(own).input.mute
    ensures CeilingReached(job, Final(own).pre, Final(own).input) ==>
      Final(own).out.page.Some? || RefusedLately(Posts(Before(own)), Final(own))
  {
    own := RunOfOneJob(jobs, board, from, run, job);
    var last := |run| - 1;
    var clock := BoardsAreWellFormed(jobs, board, from, run, last);
    assert own[last] == Share(jobs, run[last], job);
    LoudIsNotMuted(jobs, run[last].pre, run[last].input, job, clock);
    if CeilingReached(job, Final(own).pre, Final(own).input) {
      HardCeiling(job, from, own);
    }
  }
}
