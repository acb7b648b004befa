/**
 The whole board: one record per declared job, and the machine-offline rule that
 lets a machine's probe job speak for the other jobs of that machine.
 */
module Board {
  import opened Wrappers
  import opened Policy
  import opened StateLog
  import opened EpisodeRules
  import opened EpisodeInvariant

  type Registry = seq<Job>

  ghost predicate DistinctIds(jobs: Registry) {
    forall j, k | 0 <= j < k < |jobs| :: jobs[j].id != jobs[k].id
  }

  function Ids(jobs: Registry): set<string> { set k | 0 <= k < |jobs| :: jobs[k].id }

  type Records = map<string, Rec>

  /** What one recompute of the board is given: the clock, each job's state, and the POSTs ntfy refuses. */
  datatype BoardInput = BoardInput(now: int, obs: map<string, Obs>,
                                   refusedPages: set<string>, refusedRecoveries: set<string>)

  predicate Covers(jobs: Registry, board: Records, i: BoardInput) {
    forall job | job in jobs :: job.id in board && job.id in i.obs
  }

  predicate MachineProbeJob(j: Job) { j.isProbe && j.id != SELF_JOB_ID }

  ghost predicate IsFirstProbe(jobs: Registry, machine: string, k: int) {
    && 0 <= k < |jobs| && MachineProbeJob(jobs[k]) && jobs[k].machine == machine
    && forall j | 0 <= j < k :: !(MachineProbeJob(jobs[j]) && jobs[j].machine == machine)
  }

  /** The first declared probe job of a machine, the dashboard's own excepted. */
  function MachineProbe(jobs: Registry, machine: string): (p: Option<Job>)
    ensures p.None? ==> forall j | j in jobs :: !(MachineProbeJob(j) && j.machine == machine)
    ensures p.Some? ==> p.value in jobs && MachineProbeJob(p.value) && p.value.machine == machine
    ensures p.Some? ==> exists k :: IsFirstProbe(jobs, machine, k) && p == Some(jobs[k])
  {
    if jobs == [] then None
    else if MachineProbeJob(jobs[0]) && jobs[0].machine == machine then Some(jobs[0])
    else MachineProbe(jobs[1..], machine)
  }

  /** The probe is still inside the LATE episode it is coming back from. `log` is after the write. */
  predicate Returning(pre: Row, log: Log) {
    && pre.badSince.Some?
    && (if pre.state != OK then pre.state == LATE
        else LastNonOk(log).Some? && LastNonOk(log).value.to == LATE)
  }

  /** The probe's own page is held by its own cooldown, and it has not paged for this episode. */
  predicate Cooled(probe: Job, pre: Row, now: int) {
    pre.alertedAt.None? && Cooling(probe, pre.lastPagedAt, now)
  }

  /** The machine-offline rule, for a page or a recovery about `about` of a job that now reads `state`. */
  predicate Suppressed(jobs: Registry, board: Records, i: BoardInput, job: Job, about: State, state: State)
    requires Covers(jobs, board, i)
  {
    var p := MachineProbe(jobs, job.machine);
    p.Some? && p.value.id != job.id && ProbeSpeaks(p.value, board, i, about, state)
  }

  predicate ProbeSpeaks(probe: Job, board: Records, i: BoardInput, about: State, state: State)
    requires probe.id in board && probe.id in i.obs
  {
    var pre, now := board[probe.id], i.obs[probe.id].state;
    && !probe.alertNever
    && !Cooled(probe, pre.row, i.now)
    && ((state == LATE && now == LATE)
        || (about == LATE && state == OK
            && (now == LATE
                || (pre.row.state == LATE && now != LATE)
                || Returning(pre.row, WithState(pre, now, i.now).log))))
  }

  /** One job's share of a recompute of the board. */
  function InputFor(jobs: Registry, board: Records, i: BoardInput, job: Job): Input
    requires Covers(jobs, board, i) && job in jobs
  {
    var obs := i.obs[job.id];
    var about := About(board[job.id].row.state, obs.state, WithState(board[job.id], obs.state, i.now).log);
    Input(i.now, obs, Suppressed(jobs, board, i, job, about, obs.state),
          job.id !in i.refusedPages, job.id !in i.refusedRecoveries)
  }

  /** What the pass decides for one job of the board. */
  function OutFor(jobs: Registry, board: Records, i: BoardInput, job: Job): Out
    requires Covers(jobs, board, i) && job in jobs
  {
    Pass(job, board[job.id], InputFor(jobs, board, i, job))
  }

  /** The board after a recompute and its dispatch: one `Step` of every job. */
  ghost predicate BoardStep(jobs: Registry, board: Records, i: BoardInput, after: Records) {
    && Covers(jobs, board, i)
    && forall job | job in jobs ::
         job.id in after && after[job.id] == Step(job, board[job.id], InputFor(jobs, board, i, job))
  }
}
