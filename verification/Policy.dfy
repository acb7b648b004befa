/**
 The states a job can be in and the alert policy derived from one job's
 declaration.

 Times are whole seconds. The shortest credible recovery is a tenth of a
 threshold, so dwells are counted in tenths of a second to stay exact.
 */
module Policy {

  datatype State = OK | LATE | FAIL | STALE_DEST | BEHIND | UNKNOWN

  /** What the registry declares about a job. `cadence` is 0 for a job without one. */
  datatype Job = Job(id: string, machine: string, isProbe: bool,
                     cadence: nat, alertAfter: nat, alertNever: bool)

  const SELF_JOB_ID := "dashboard-probes"

  const MAX_OK_DWELL_S := 300
  const CADENCE_DWELL_SAMPLES := 2
  const MAX_CADENCE_DWELL_S := 900
  const COOLDOWN_FLOOR_S := 21600
  const BAD_WINDOW_MULTIPLE := 2
  const BAD_SCAN_LIMIT := 2000
  const ALERT_RETRY_MIN_S := 300

  function Min(a: int, b: int): int { if a <= b then a else b }

  function Max(a: int, b: int): int { if a <= b then b else a }

  predicate Alertable(s: State) { s in {LATE, FAIL, STALE_DEST, BEHIND} }

  predicate HighPriority(s: State) { s in {FAIL, STALE_DEST} }

  /** The rank an escalation compares: 2 is louder than 1, 0 is never paged about. */
  function Severity(s: State): (rank: nat)
    ensures rank <= 2
    ensures rank > 0 <==> Alertable(s)
  {
    if HighPriority(s) then 2 else if Alertable(s) then 1 else 0
  }

  /** Continuous verified OK needed to end an episode, in tenths of a second. */
  function OkDwellTenths(job: Job): (d: nat)
    ensures d <= 10 * MAX_CADENCE_DWELL_S
    ensures d == 0 <==> job.alertAfter == 0 && job.cadence == 0
    ensures d < job.alertAfter ==> d >= 10 * MAX_OK_DWELL_S
    ensures d < 10 * CADENCE_DWELL_SAMPLES * job.cadence ==> d == 10 * MAX_CADENCE_DWELL_S
    ensures d > job.alertAfter || d > 10 * MAX_OK_DWELL_S ==>
      job.cadence > 0 && d <= 10 * CADENCE_DWELL_SAMPLES * job.cadence
  {
    var dwell := Min(10 * MAX_OK_DWELL_S, job.alertAfter);
    if job.cadence > 0
    then Max(dwell, 10 * Min(CADENCE_DWELL_SAMPLES * job.cadence, MAX_CADENCE_DWELL_S))
    else dwell
  }

  /** How long an OK nobody could verify may hold an episode open, in tenths. */
  function OkHoldTenths(job: Job): (h: nat)
    ensures OkDwellTenths(job) <= h && 10 * job.alertAfter <= h && 10 * MAX_OK_DWELL_S <= h
    ensures h == OkDwellTenths(job) || h == 10 * job.alertAfter || h == 10 * MAX_OK_DWELL_S
  {
    Max(10 * MAX_OK_DWELL_S, Max(OkDwellTenths(job), 10 * job.alertAfter))
  }

  /** How long after a page the next first page of this job is held back. */
  function Cooldown(job: Job): (c: nat)
    ensures c >= COOLDOWN_FLOOR_S && c >= job.alertAfter
    ensures c == COOLDOWN_FLOOR_S || c == job.alertAfter
  {
    Max(job.alertAfter, COOLDOWN_FLOOR_S)
  }

  function BadWindow(job: Job): nat { BAD_WINDOW_MULTIPLE * job.alertAfter }
}
