/**
 The write-side core: one recompute of the whole board, step by step as it is done,
 proved to be one `Step` of every job under the machine-offline rule.
 */
module Services {
  import opened Wrappers
  import opened Policy
  import opened StateLog
  import opened EpisodeRules
  import opened Board
  import Rules = EpisodeRules

  /** One job's finished recompute, handed to the episode pass. `row` is from before it. */
  datatype Episode = Episode(job: Job, obs: Obs, row: Row)

  /** The pushes of one job, page before recovery. */
  function IntentsOf(o: Out): seq<Intent> {
    (if o.page.Some? then [o.page.value] else []) + if o.recovery.Some? then [o.recovery.value] else []
  }

  class Core {
    const jobs: Registry
    var rows: map<string, Row>
    var log: map<string, Log>
    var attempted: map<string, Tries>

    ghost predicate Valid()
      reads this
    {
      && DistinctIds(jobs)
      && (forall job | job in jobs :: job.id in rows)
      && rows.Keys == log.Keys
      && (forall id | id in attempted :: attempted[id].Tries?)
    }

    /** Everything stored about one job. */
    function RecOf(id: string): Rec
      reads this
      requires id in rows && rows.Keys == log.Keys
    {
      Rec(rows[id], log[id], if id in attempted then attempted[id] else NoTries)
    }

    /** Everything stored, as the value the rules speak of. */
    ghost function Records(): (board: Board.Records)
      reads this
      requires Valid()
      ensures forall id | id in rows :: id in board && board[id] == RecOf(id)
    {
      map id | id in rows :: RecOf(id)
    }

    constructor (jobs: Registry)
      requires DistinctIds(jobs)
      ensures Valid() && this.jobs == jobs
      ensures forall job | job in jobs :: Records()[job.id] == FRESH
    {
      this.jobs := jobs;
      rows := map id | id in Ids(jobs) :: FRESH.row;
      log := map id | id in Ids(jobs) :: [];
      attempted := map[];
    }

    /** The process comes up again over the same tables: the retry map was only in memory. */
    method Restart()
      requires Valid()
      modifies this`attempted
      ensures Valid() && rows == old(rows) && log == old(log)
      ensures forall id | id in rows :: RecOf(id) == old(RecOf(id)).(tries := NoTries)
    {
      attempted := map[];
    }

    // ---- Table writes ----

    /** Persists a computed state and logs the transition, if it is one. */
    method SetState(id: string, s: State, now: int) returns (prev: Option<State>)
      requires Valid() && id in rows
      modifies this`rows, this`log
      ensures Valid()
      ensures rows == old(rows)[id := WithState(old(RecOf(id)), s, now).row]
      ensures log == old(log)[id := WithState(old(RecOf(id)), s, now).log]
      ensures prev == if old(rows[id].state) == s then None else Some(old(rows[id].state))
    {
      var before := rows[id].state;
      if before == s {
        return None;
      }
      rows := rows[id := rows[id].(state := s, since := Some(now))];
      log := log[id := log[id] + [Change(now, s)]];
      return Some(before);
    }

    method SetAlertEpisode(id: string, badSince: Stamp, alertedAt: Stamp, alertedState: Option<State>)
      requires Valid() && id in rows
      modifies this`rows
      ensures Valid()
      ensures rows == old(rows)[id := WithEpisode(old(rows[id]), badSince, alertedAt, alertedState)]
    {
      rows := rows[id := rows[id].(badSince := badSince, alertedAt := alertedAt, alertedState := alertedState)];
    }

    method SetLastPagedAt(id: string, at: Stamp)
      requires Valid() && id in rows
      modifies this`rows
      ensures Valid()
      ensures rows == old(rows)[id := old(rows[id]).(lastPagedAt := at)]
    {
      rows := rows[id := rows[id].(lastPagedAt := at)];
    }

    // ---- The retry map ----

    method RetryDue(id: string, episode: int, rank: nat, now: int) returns (due: bool)
      requires Valid() && id in rows
      ensures due == Rules.RetryDue(RecOf(id).tries, episode, rank, now)
    {
      if id !in attempted || attempted[id].episode != episode {
        return true;
      }
      var entry := attempted[id];
      if rank !in entry.when {
        return true;
      }
      var waited := now - entry.when[rank];
      return waited >= ALERT_RETRY_MIN_S || waited < 0;
    }

    method NoteAttempt(id: string, episode: int, rank: nat, now: int)
      requires Valid() && id in rows
      modifies this`attempted
      ensures Valid()
      ensures attempted == old(attempted)[id := Rules.NoteAttempt(old(RecOf(id)).tries, episode, rank, now)]
    {
      var entry := if id !in attempted || attempted[id].episode != episode then Tries(episode, map[])
                   else attempted[id];
      attempted := attempted[id := entry.(when := entry.when[rank := now])];
    }

    // ---- The page ----

    method PastBar(job: Job, about: State, began: int, now: int) returns (past: bool, within: Option<nat>)
      requires Valid() && job.id in log
      ensures past == Rules.PastBar(job, log[job.id], about, began, now)
      ensures past ==> within == WithinOf(job, began, now)
    {
      if now - began >= job.alertAfter {
        return true, None;
      }
      var window := BadWindow(job);
      if window <= 0 {
        return false, None;
      }
      if Severity(about) == 0 {
        return false, None;
      }
      var bad := NotOkSeconds(log[job.id], now - window, now, {about}, BAD_SCAN_LIMIT);
      if bad >= job.alertAfter {
        return true, Some(window);
      }
      return false, None;
    }

    /** When the cooldown ends, or None when the job is not cooling. */
    method CoolingUntil(job: Job, lastPagedAt: Stamp, now: int) returns (until: Option<int>)
      ensures until.Some? <==> Cooling(job, lastPagedAt, now)
      ensures until.Some? ==> until.value == lastPagedAt.value + Cooldown(job) > now
    {
      if job.alertNever {
        return None;
      }
      if lastPagedAt.None? || lastPagedAt.value > now {
        return None;
      }
      var end := lastPagedAt.value + Cooldown(job);
      return if end > now then Some(end) else None;
    }

    /** Every reason to hold the page, in the order they are asked. `muted` is the machine-offline rule. */
    method PageIsDue(ep: Episode, about: State, muted: bool, now: int) returns (due: bool, within: Option<nat>)
      requires Valid() && ep.job.id in rows && rows[ep.job.id].badSince.Some?
      ensures due == Pages(ep.job, ep.row.lastPagedAt, RecOf(ep.job.id), about, muted, now)
      ensures due ==> within == WithinOf(ep.job, rows[ep.job.id].badSince.value, now)
    {
      var job, row := ep.job, rows[ep.job.id];
      if job.alertNever {
        return false, None;
      }
      var escalation := row.alertedAt.Some?;
      if escalation && (row.alertedState.None? || Severity(about) <= Severity(row.alertedState.value)) {
        return false, None;
      }
      var past;
      past, within := PastBar(job, about, row.badSince.value, now);
      if !past {
        return false, None;
      }
      if !escalation {
        var until := CoolingUntil(job, ep.row.lastPagedAt, now);
        if until.Some? {
          return false, None;
        }
      }
      if muted {
        return false, None;
      }
      due := RetryDue(job.id, row.badSince.value, Severity(about), now);
    }

    /**
     Spends the page of the open episode, if everything says so, and answers the
     stamps as they now stand.
     */
    method Page(ep: Episode, about: State, muted: bool, now: int)
      returns (alertedAt: Stamp, alertedState: Option<State>, intent: Option<Intent>)
      requires Valid() && ep.job.id in rows && rows[ep.job.id].badSince.Some?
      modifies this`rows, this`attempted
      ensures Valid()
      ensures var p := PageStep(ep.job, ep.row.lastPagedAt, old(RecOf(ep.job.id)), about, muted, now);
        && RecOf(ep.job.id) == p.rec && intent == p.page
        && alertedAt == p.rec.row.alertedAt && alertedState == p.rec.row.alertedState
      ensures OthersUnchanged(ep.job.id)
    {
      var job, row := ep.job, rows[ep.job.id];
      if !job.alertNever && row.alertedAt.Some? && row.alertedState.None? {
        // Paged before the paged state was recorded: name it now, send nothing.
        SetAlertEpisode(job.id, row.badSince, row.alertedAt, Some(about));
        return row.alertedAt, Some(about), None;
      }
      var due, within := PageIsDue(ep, about, muted, now);
      if !due {
        return row.alertedAt, row.alertedState, None;
      }
      NoteAttempt(job.id, row.badSince.value, Severity(about), now);
      SetAlertEpisode(job.id, row.badSince, Some(now), Some(about));
      SetLastPagedAt(job.id, Some(now));
      return Some(now), Some(about),
             Some(Intent(job.id, if row.alertedAt.Some? then Escalation else Alert, about, row.badSince, Some(now),
                         ep.row.lastPagedAt, row.alertedAt, row.alertedState, within));
    }

    /** Nothing stored about any other job has changed. */
    twostate predicate OthersUnchanged(id: string)
      requires old(Valid()) && Valid()
      reads this
    {
      && rows.Keys == old(rows).Keys
      && forall other | other in rows && other != id :: RecOf(other) == old(RecOf(other))
    }

    // ---- The machine-offline rule ----

    method ReturningProbes(episodes: seq<Episode>) returns (returning: set<string>)
      requires Valid() && forall ep | ep in episodes :: ep.job.id in log
      ensures forall id :: id in returning <==>
        exists ep | ep in episodes :: ep.job.id == id && MachineProbeJob(ep.job) && Returning(ep.row, log[id])
    {
      returning := {};
      for k := 0 to |episodes|
        invariant forall id :: id in returning <==>
          exists ep | ep in episodes[..k] :: ep.job.id == id && MachineProbeJob(ep.job) && Returning(ep.row, log[id])
      {
        var ep := episodes[k];
        assert episodes[..k + 1] == episodes[..k] + [ep];
        if !ep.job.isProbe || ep.job.id == SELF_JOB_ID || ep.row.badSince.None? {
          continue;
        }
        var last := LastNonOk(log[ep.job.id]);
        var late := if ep.row.state != OK then ep.row.state == LATE else last.Some? && last.value.to == LATE;
        if late {
          returning := returning + {ep.job.id};
        }
      }
      assert episodes[..|episodes|] == episodes;
    }

    method CooledProbes(episodes: seq<Episode>, now: int) returns (cooled: set<string>)
      ensures forall id :: id in cooled <==>
        exists ep | ep in episodes :: ep.job.id == id && MachineProbeJob(ep.job) && Cooled(ep.job, ep.row, now)
    {
      cooled := {};
      for k := 0 to |episodes|
        invariant forall id :: id in cooled <==>
          exists ep | ep in episodes[..k] :: ep.job.id == id && MachineProbeJob(ep.job) && Cooled(ep.job, ep.row, now)
      {
        var ep := episodes[k];
        assert episodes[..k + 1] == episodes[..k] + [ep];
        if !ep.job.isProbe || ep.job.id == SELF_JOB_ID || ep.row.alertedAt.Some? {
          continue;
        }
        var until := CoolingUntil(ep.job, ep.row.lastPagedAt, now);
        if until.Some? {
          cooled := cooled + {ep.job.id};
        }
      }
      assert episodes[..|episodes|] == episodes;
    }

    /**
     Is a page or a recovery about `prev` of a job that now reads `state` somebody
     else's news? `states` and `transitions` are what the whole pass computed.
     */
    method SuppressedOffline(job: Job, prev: State, state: State, states: map<string, State>,
                             transitions: map<string, State>, returning: set<string>, cooled: set<string>,
                             ghost board: Board.Records, ghost i: BoardInput)
      returns (muted: bool)
      requires Covers(jobs, board, i)
      requires PassKnows(board, i, states, transitions, returning, cooled)
      ensures muted == Suppressed(jobs, board, i, job, prev, state)
    {
      var probe := MachineProbe(jobs, job.machine);
      if probe.None? || probe.value.id == job.id {
        return false;
      }
      var id := probe.value.id;
      if probe.value.alertNever || id in cooled {
        return false;
      }
      if state == LATE && states[id] == LATE {
        return true;
      }
      if prev == LATE && state == OK {
        if states[id] == LATE {
          return true;
        }
        if id in transitions && transitions[id] == LATE {
          return true;
        }
        if id in returning {
          return true;
        }
      }
      return false;
    }

    /** The tables of a pass say of every job what its record and its observation say. */
    ghost predicate PassKnows(board: Board.Records, i: BoardInput, states: map<string, State>,
                              transitions: map<string, State>, returning: set<string>, cooled: set<string>)
      requires Covers(jobs, board, i)
    {
      forall job | job in jobs ::
        var pre, now := board[job.id], i.obs[job.id].state;
        && StateKnown(board, i, states, transitions, job.id)
        && (MachineProbeJob(job) ==>
              && (job.id in returning <==> Returning(pre.row, WithState(pre, now, i.now).log))
              && (job.id in cooled <==> Cooled(job, pre.row, i.now)))
    }

    // ---- The episode pass ----

    /** Drops stamps no clock can honour, as a pass does before it reads anything else. */
    method HealRow(ep: Episode, now: int)
      requires Valid() && ep.job.id in rows
      modifies this`rows
      ensures Valid() && rows == old(rows)[ep.job.id := Heal(old(rows[ep.job.id]), now)]
    {
      var id := ep.job.id;
      var row := rows[id];
      if row.lastPagedAt.Some? && row.lastPagedAt.value > now {
        SetLastPagedAt(id, None);
      }
      if row.badSince.Some? && row.badSince.value > now {
        SetAlertEpisode(id, None, None, None);
      } else if row.badSince.None? && row.alertedAt.Some? {
        SetAlertEpisode(id, None, None, None);
      }
    }

    /** The OK branch over an open episode: page first, then hold it, let it dwell, or close it. */
    method ResolveOkJob(ep: Episode, about: State, muted: bool, now: int)
      returns (page: Option<Intent>, recovery: Option<Intent>)
      requires Valid() && ep.job.id in rows && rows[ep.job.id].badSince.Some?
      modifies this`rows, this`attempted
      ensures Valid()
      ensures var o := ResolveOk(ep.job, ep.row, old(RecOf(ep.job.id)), ep.obs, about, muted, now);
        RecOf(ep.job.id) == o.rec && page == o.page && recovery == o.recovery
      ensures OthersUnchanged(ep.job.id)
    {
      var job, id := ep.job, ep.job.id;
      var alertedAt, alertedState;
      alertedAt, alertedState, page := Page(ep, about, muted, now);
      recovery := None;
      var held := 10 * OkHeld(ep.row.state, ep.row.since, now);
      if Holding(ep.obs, about) {
        if held < OkHoldTenths(job) {
          return;
        }
      } else if held < OkDwellTenths(job) {
        return;
      } else if alertedAt.Some? && !job.alertNever && !muted {
        recovery := Some(RecoveryIntent(job, if alertedState.Some? then alertedState.value else about));
      }
      SetAlertEpisode(id, None, None, None);
    }

    /** One job of the pass. */
    method ResolveJob(ep: Episode, about: State, muted: bool, now: int)
      returns (page: Option<Intent>, recovery: Option<Intent>)
      requires Valid() && ep.job.id in rows
      requires about == About(ep.row.state, ep.obs.state, log[ep.job.id])
      modifies this`rows, this`attempted
      ensures Valid()
      ensures var o := Resolve(ep.job, ep.row, old(RecOf(ep.job.id)), ep.obs, muted, now);
        RecOf(ep.job.id) == o.rec && page == o.page && recovery == o.recovery
      ensures OthersUnchanged(ep.job.id)
    {
      var id, state := ep.job.id, ep.obs.state;
      page, recovery := None, None;
      HealRow(ep, now);
      assert RecOf(id) == old(RecOf(id)).(row := Heal(old(rows[id]), now));
      if state == OK {
        if rows[id].badSince.Some? {
          page, recovery := ResolveOkJob(ep, about, muted, now);
        }
      } else if !Alertable(state) {
        if rows[id].badSince.Some? {
          SetAlertEpisode(id, None, None, None);
        }
      } else {
        if rows[id].badSince.None? {
          SetAlertEpisode(id, Some(now), None, None);
        }
        var _, _, sent := Page(ep, about, muted, now);
        page := sent;
      }
    }

    /** One job of the pass under the machine-offline rule, as the board's rules decide it. */
    method ResolveOne(ep: Episode, states: map<string, State>, transitions: map<string, State>,
                      returning: set<string>, cooled: set<string>, now: int,
                      ghost board: Board.Records, ghost i: BoardInput, ghost outs: seq<Out>, ghost k: nat)
      returns (intents: seq<Intent>)
      requires Valid() && Covers(jobs, board, i) && now == i.now
      requires k < |jobs| && ep.job == jobs[k] && ep == EpisodeOf(board, i, ep.job)
      requires Decided(jobs, board, i, outs)
      requires RecOf(ep.job.id) == Written(board, i, ep.job)
      requires PassKnows(board, i, states, transitions, returning, cooled)
      modifies this`rows, this`attempted
      ensures Valid() && OthersUnchanged(ep.job.id)
      ensures RecOf(ep.job.id) == outs[k].rec && intents == IntentsOf(outs[k])
    {
      assert DecidedAt(jobs, board, i, outs, k);
      var about := About(ep.row.state, ep.obs.state, log[ep.job.id]);
      var muted := SuppressedOffline(ep.job, about, ep.obs.state, states, transitions, returning, cooled, board, i);
      var page, recovery := ResolveJob(ep, about, muted, now);
      intents := (if page.Some? then [page.value] else []) + (if recovery.Some? then [recovery.value] else []);
    }

    /** Which probes are coming back from a LATE episode, and which cannot page for their cooldown. */
    method AskProbes(episodes: seq<Episode>, ghost states: map<string, State>, ghost transitions: map<string, State>,
                     now: int, ghost board: Board.Records, ghost i: BoardInput)
      returns (returning: set<string>, cooled: set<string>)
      requires Valid() && Covers(jobs, board, i) && now == i.now
      requires forall k | 0 <= k < |jobs| :: RecOf(jobs[k].id) == Written(board, i, jobs[k])
      requires |episodes| == |jobs| && forall k | 0 <= k < |jobs| :: episodes[k] == EpisodeOf(board, i, jobs[k])
      requires forall job | job in jobs :: StateKnown(board, i, states, transitions, job.id)
      ensures PassKnows(board, i, states, transitions, returning, cooled)
    {
      returning := ReturningProbes(episodes);
      cooled := CooledProbes(episodes, now);
      ProbeSetsAreKnown(episodes, states, transitions, returning, cooled, board, i);
    }

    /** Advances every job's episode and decides what reaches ntfy. */
    method ResolveAlerts(episodes: seq<Episode>, states: map<string, State>, transitions: map<string, State>,
                         now: int, ghost board: Board.Records, ghost i: BoardInput, ghost outs: seq<Out>)
      returns (intents: seq<Intent>)
      requires Valid() && Covers(jobs, board, i) && now == i.now
      requires Decided(jobs, board, i, outs)
      requires forall k | 0 <= k < |jobs| :: RecOf(jobs[k].id) == Written(board, i, jobs[k])
      requires |episodes| == |jobs| && forall k | 0 <= k < |jobs| :: episodes[k] == EpisodeOf(board, i, jobs[k])
      requires forall job | job in jobs :: StateKnown(board, i, states, transitions, job.id)
      modifies this`rows, this`attempted
      ensures Valid()
      ensures forall k | 0 <= k < |jobs| :: RecOf(jobs[k].id) == outs[k].rec
      ensures intents == AllIntents(outs)
    {
      intents := [];
      var returning, cooled := AskProbes(episodes, states, transitions, now, board, i);
      for k := 0 to |episodes|
        invariant Valid()
        invariant forall j | 0 <= j < k :: RecOf(jobs[j].id) == outs[j].rec
        invariant forall j | k <= j < |jobs| :: RecOf(jobs[j].id) == Written(board, i, jobs[j])
        invariant intents == AllIntents(outs[..k])
      {
        var more := ResolveOne(episodes[k], states, transitions, returning, cooled, now, board, i, outs, k);
        assert outs[..k + 1][..k] == outs[..k];
        intents := intents + more;
      }
      assert outs[..|outs|] == outs;
    }

    /** What a pass finds out about the probes, in terms of the records before it. */
    lemma ProbeSetsAreKnown(episodes: seq<Episode>, states: map<string, State>, transitions: map<string, State>,
                            returning: set<string>, cooled: set<string>, board: Board.Records, i: BoardInput)
      requires Valid() && Covers(jobs, board, i)
      requires forall k | 0 <= k < |jobs| :: RecOf(jobs[k].id) == Written(board, i, jobs[k])
      requires |episodes| == |jobs| && forall k | 0 <= k < |jobs| :: episodes[k] == EpisodeOf(board, i, jobs[k])
      requires forall job | job in jobs :: StateKnown(board, i, states, transitions, job.id)
      requires forall id :: id in returning <==>
        exists ep | ep in episodes ::
          ep.job.id == id && MachineProbeJob(ep.job) && id in log && Returning(ep.row, log[id])
      requires forall id :: id in cooled <==>
        exists ep | ep in episodes :: ep.job.id == id && MachineProbeJob(ep.job) && Cooled(ep.job, ep.row, i.now)
      ensures PassKnows(board, i, states, transitions, returning, cooled)
    {
      forall job | job in jobs && MachineProbeJob(job)
        ensures var pre, now := board[job.id], i.obs[job.id].state;
          && (job.id in returning <==> Returning(pre.row, WithState(pre, now, i.now).log))
          && (job.id in cooled <==> Cooled(job, pre.row, i.now))
      {
        var k :| 0 <= k < |jobs| && jobs[k] == job;
        OneEpisodePerJob(jobs, board, i, episodes, k);
        assert episodes[k] in episodes;
      }
    }

    /** One job's recompute, before any episode moves: its state is written, its row from before remembered. */
    method RecomputeLocked(job: Job, obs: Obs, now: int) returns (ep: Episode, prev: Option<State>)
      requires Valid() && job.id in rows
      modifies this`rows, this`log
      ensures Valid() && OthersUnchanged(job.id)
      ensures RecOf(job.id) == WithState(old(RecOf(job.id)), obs.state, now)
      ensures ep == Episode(job, obs, old(rows[job.id]))
      ensures prev == if old(rows[job.id].state) == obs.state then None else Some(old(rows[job.id].state))
    {
      ep := Episode(job, obs, rows[job.id]);
      prev := SetState(job.id, obs.state, now);
    }

    /** Writes every declared job's state, remembering its row from before and any transition. */
    method RecomputeJobs(now: int, obs: map<string, Obs>, ghost i: BoardInput)
      returns (episodes: seq<Episode>, states: map<string, State>, transitions: map<string, State>)
      requires Valid() && i.now == now && i.obs == obs && Covers(jobs, Records(), i)
      modifies this`rows, this`log
      ensures Valid()
      ensures |episodes| == |jobs| && forall k | 0 <= k < |jobs| :: episodes[k] == EpisodeOf(old(Records()), i, jobs[k])
      ensures forall k | 0 <= k < |jobs| :: RecOf(jobs[k].id) == Written(old(Records()), i, jobs[k])
      ensures KnownUpTo(jobs, old(Records()), i, states, transitions, |jobs|)
    {
      ghost var board := Records();
      states, transitions, episodes := map[], map[], [];
      for k := 0 to |jobs|
        invariant Valid()
        invariant |episodes| == k && forall j | 0 <= j < k :: episodes[j] == EpisodeOf(board, i, jobs[j])
        invariant forall j | 0 <= j < k :: RecOf(jobs[j].id) == Written(board, i, jobs[j])
        invariant forall j | k <= j < |jobs| :: RecOf(jobs[j].id) == board[jobs[j].id]
        invariant KnownUpTo(jobs, board, i, states, transitions, k)
      {
        var job := jobs[k];
        assert job in jobs;
        KnownOneMore(jobs, board, i, states, transitions, k);
        var ep, prev := RecomputeLocked(job, obs[job.id], now);
        states := states[job.id := obs[job.id].state];
        if prev.Some? {
          transitions := transitions[job.id := prev.value];
        }
        episodes := episodes + [ep];
      }
    }

    /** Recomputes every declared job, then runs the episode pass over the finished batch. */
    method RecomputePass(now: int, obs: map<string, Obs>, ghost i: BoardInput, ghost outs: seq<Out>)
      returns (intents: seq<Intent>)
      requires Valid() && i.now == now && i.obs == obs && Covers(jobs, Records(), i)
      requires Decided(jobs, Records(), i, outs)
      modifies this
      ensures Valid()
      ensures forall k | 0 <= k < |jobs| :: RecOf(jobs[k].id) == outs[k].rec
      ensures intents == AllIntents(outs)
    {
      ghost var board := Records();
      var episodes, states, transitions := RecomputeJobs(now, obs, i);
      forall job | job in jobs
        ensures StateKnown(board, i, states, transitions, job.id)
      {
        var k :| 0 <= k < |jobs| && jobs[k] == job;
      }
      intents := ResolveAlerts(episodes, states, transitions, now, board, i, outs);
    }

    // ---- Dispatch ----

    /** Hands back the page of every POST that failed, to the episode it was decided for. */
    method ReturnUnsentPages(unsent: seq<Intent>)
      requires Valid() && forall intent | intent in unsent :: intent.job in rows
      modifies this`rows
      ensures Valid() && rows.Keys == old(rows).Keys
      ensures forall id | id in rows :: rows[id] == Rolled(old(rows[id]), id, unsent)
    {
      for k := 0 to |unsent|
        invariant Valid() && rows.Keys == old(rows).Keys
        invariant forall id | id in rows :: rows[id] == Rolled(old(rows[id]), id, unsent[..k])
      {
        var intent := unsent[k];
        assert intent in unsent && unsent[..k + 1] == unsent[..k] + [intent];
        var row := rows[intent.job];
        RolledAppend(unsent[..k], intent);
        if row.badSince != intent.badSince || row.alertedAt != intent.alertedAt {
          continue;
        }
        SetAlertEpisode(intent.job, intent.badSince, intent.prevAlertedAt, intent.prevAlertedState);
        SetLastPagedAt(intent.job, intent.prevPagedAt);
      }
      assert unsent[..|unsent|] == unsent;
    }

    /** Sends each decided push and gives back the page of any alert or escalation that did not land. */
    method Dispatch(intents: seq<Intent>, refusedPages: set<string>, refusedRecoveries: set<string>)
      returns (landed: seq<Intent>)
      requires Valid() && forall intent | intent in intents :: intent.job in rows
      modifies this`rows
      ensures Valid() && rows.Keys == old(rows).Keys
      ensures forall id | id in rows :: rows[id] == Rolled(old(rows[id]), id, Unsent(intents, refusedPages))
      ensures landed == LandedOf(intents, refusedPages, refusedRecoveries)
    {
      var unsent := [];
      landed := [];
      for k := 0 to |intents|
        invariant unsent == Unsent(intents[..k], refusedPages)
        invariant landed == LandedOf(intents[..k], refusedPages, refusedRecoveries)
        invariant forall intent | intent in unsent :: intent in intents
      {
        var intent := intents[k];
        assert intents[..k + 1][..k] == intents[..k];
        var sent := intent.job !in (if intent.kind == Recovery then refusedRecoveries else refusedPages);
        if sent {
          landed := landed + [intent];
        }
        if intent.kind != Recovery && !sent {
          unsent := unsent + [intent];
        }
      }
      assert intents[..|intents|] == intents;
      ReturnUnsentPages(unsent);
    }

    /**
     The ticker: one recompute of every declared job, and its dispatch. The records are one
     step of every job, and the pushes that landed are those of the deciding pass, in
     registry order, that ntfy did not refuse.
     */
    method RecomputeAll(now: int, obs: map<string, Obs>, refusedPages: set<string>, refusedRecoveries: set<string>)
      returns (landed: seq<Intent>)
      requires Valid() && Covers(jobs, Records(), BoardInput(now, obs, refusedPages, refusedRecoveries))
      modifies this
      ensures Valid()
      ensures BoardStep(jobs, old(Records()), BoardInput(now, obs, refusedPages, refusedRecoveries), Records())
      ensures var i := BoardInput(now, obs, refusedPages, refusedRecoveries);
        landed == LandedOf(AllIntents(Decide(jobs, old(Records()), i)), refusedPages, refusedRecoveries)
    {
      ghost var board, i := Records(), BoardInput(now, obs, refusedPages, refusedRecoveries);
      ghost var outs := Decide(jobs, board, i);
      var intents := RecomputePass(now, obs, i, outs);
      IntentsBelong(jobs, board, i, outs);
      label passed:
      landed := Dispatch(intents, refusedPages, refusedRecoveries);
      forall k | 0 <= k < |jobs|
        ensures RecOf(jobs[k].id) == Step(jobs[k], board[jobs[k].id], InputFor(jobs, board, i, jobs[k]))
      {
        assert old@passed(RecOf(jobs[k].id)) == outs[k].rec;
        RolledIsTheStep(jobs, board, i, outs, k);
      }
    }
  }

  // ---- What the dispatch adds up to ----

  /** The row of `id` after the pages in `unsent` were handed back in turn. */
  function Rolled(row: Row, id: string, unsent: seq<Intent>): Row {
    if unsent == [] then row
    else
      var r, last := Rolled(row, id, unsent[..|unsent| - 1]), unsent[|unsent| - 1];
      if last.job == id then Rollback(r, last) else r
  }

  function Unsent(intents: seq<Intent>, refused: set<string>): seq<Intent> {
    if intents == [] then []
    else
      var last := intents[|intents| - 1];
      Unsent(intents[..|intents| - 1], refused) + if last.kind != Recovery && last.job in refused then [last] else []
  }

  function LandedOf(intents: seq<Intent>, refusedPages: set<string>, refusedRecoveries: set<string>): seq<Intent> {
    if intents == [] then []
    else
      var last := intents[|intents| - 1];
      LandedOf(intents[..|intents| - 1], refusedPages, refusedRecoveries)
      + if last.job in (if last.kind == Recovery then refusedRecoveries else refusedPages) then [] else [last]
  }

  lemma RolledAppend(unsent: seq<Intent>, intent: Intent)
    ensures forall row, id {:trigger Rolled(row, id, unsent + [intent])} ::
      var r := Rolled(row, id, unsent);
      Rolled(row, id, unsent + [intent]) == (if intent.job == id then Rollback(r, intent) else r)
  {
    assert (unsent + [intent])[..|unsent|] == unsent;
  }

  lemma RolledConcat(row: Row, id: string, a: seq<Intent>, b: seq<Intent>)
    ensures Rolled(row, id, a + b) == Rolled(Rolled(row, id, a), id, b)
  {
    if b == [] {
      assert a + b == a;
    } else {
      assert (a + b)[..|a + b| - 1] == a + b[..|b| - 1];
      RolledConcat(row, id, a, b[..|b| - 1]);
    }
  }

  lemma UnsentConcat(a: seq<Intent>, b: seq<Intent>, refused: set<string>)
    ensures Unsent(a + b, refused) == Unsent(a, refused) + Unsent(b, refused)
  {
    if b == [] {
      assert a + b == a;
    } else {
      assert (a + b)[..|a + b| - 1] == a + b[..|b| - 1];
      UnsentConcat(a, b[..|b| - 1], refused);
    }
  }

  function Decide(jobs: Registry, board: Board.Records, i: BoardInput): (outs: seq<Out>)
    requires Covers(jobs, board, i)
    ensures Decided(jobs, board, i, outs)
  {
    seq(|jobs|, k requires 0 <= k < |jobs| => OutFor(jobs, board, i, jobs[k]))
  }

  /** A job's pushes carry its own id, and only the first of them can be a page. */
  lemma OutBelongs(jobs: Registry, board: Board.Records, i: BoardInput, job: Job)
    requires Covers(jobs, board, i) && job in jobs
    ensures OwnedBy(OutFor(jobs, board, i, job), job.id)
  {
    PassBelongs(job, board[job.id], InputFor(jobs, board, i, job));
  }

  lemma PassBelongs(job: Job, rec: Rec, i: Input)
    ensures OwnedBy(Pass(job, rec, i), job.id)
  {
  }

  lemma IntentsBelong(jobs: Registry, board: Board.Records, i: BoardInput, outs: seq<Out>)
    requires Decided(jobs, board, i, outs)
    ensures forall intent | intent in AllIntents(outs) :: exists job | job in jobs :: job.id == intent.job
  {
    IntentsUpToBelong(jobs, board, i, outs, |outs|);
    assert outs[..|outs|] == outs;
  }

  lemma IntentsUpToBelong(jobs: Registry, board: Board.Records, i: BoardInput, outs: seq<Out>, n: nat)
    requires Decided(jobs, board, i, outs) && n <= |outs|
    ensures forall intent | intent in AllIntents(outs[..n]) :: exists job | job in jobs :: job.id == intent.job
  {
    if n > 0 {
      IntentsUpToBelong(jobs, board, i, outs, n - 1);
      assert outs[..n][..n - 1] == outs[..n - 1];
      assert DecidedAt(jobs, board, i, outs, n - 1);
      OutBelongs(jobs, board, i, jobs[n - 1]);
      assert jobs[n - 1] in jobs;
    }
  }

  /** The pushes in `o` are those of the job `id`. */
  predicate OwnedBy(o: Out, id: string) {
    && (o.page.Some? ==> o.page.value.job == id && o.page.value.kind != Recovery)
    && (o.recovery.Some? ==> o.recovery.value.job == id && o.recovery.value.kind == Recovery)
  }

  /** The n-th job's pushes, after all earlier ones were handed back. */
  lemma RolledOneMore(outs: seq<Out>, n: nat, owner: string, refused: set<string>, id: string, row: Row)
    requires n < |outs| && OwnedBy(outs[n], owner)
    ensures var before := Rolled(row, id, Unsent(AllIntents(outs[..n]), refused));
      Rolled(row, id, Unsent(AllIntents(outs[..n + 1]), refused))
      == if owner == id && outs[n].page.Some? && owner in refused then Rollback(before, outs[n].page.value) else before
  {
    var earlier, own := AllIntents(outs[..n]), IntentsOf(outs[n]);
    assert outs[..n + 1][..n] == outs[..n];
    UnsentConcat(earlier, own, refused);
    OwnUnsent(outs[n], owner, refused);
    RolledConcat(row, id, Unsent(earlier, refused), Unsent(own, refused));
    if outs[n].page.Some? {
      RolledAppend([], outs[n].page.value);
      assert [] + [outs[n].page.value] == [outs[n].page.value];
    }
  }

  /** A row after the pushes of the first `n` jobs, seen from the one job it belongs to. */
  function RolledUpTo(jobs: Registry, outs: seq<Out>, refused: set<string>, n: nat, id: string, row: Row): Row
    requires n <= |outs| == |jobs|
  {
    if n == 0 then row
    else
      var before := RolledUpTo(jobs, outs, refused, n - 1, id, row);
      if jobs[n - 1].id == id && outs[n - 1].page.Some? && id in refused then Rollback(before, outs[n - 1].page.value)
      else before
  }

  lemma {:induction false} RolledJobByJob(jobs: Registry, outs: seq<Out>, refused: set<string>, n: nat, id: string, row: Row)
    requires n <= |outs| == |jobs| && forall j | 0 <= j < |jobs| :: OwnedBy(outs[j], jobs[j].id)
    ensures Rolled(row, id, Unsent(AllIntents(outs[..n]), refused)) == RolledUpTo(jobs, outs, refused, n, id, row)
  {
    if n > 0 {
      RolledJobByJob(jobs, outs, refused, n - 1, id, row);
      RolledOneMore(outs, n - 1, jobs[n - 1].id, refused, id, row);
    }
  }

  /** Handing back one job's refused page from the whole list is settling that job alone. */
  lemma {:induction false} RolledIsSettled(jobs: Registry, outs: seq<Out>, refused: set<string>, n: nat, k: nat, row: Row)
    requires DistinctIds(jobs) && n <= |outs| == |jobs| && k < |jobs|
    ensures RolledUpTo(jobs, outs, refused, n, jobs[k].id, row)
         == if k < n && outs[k].page.Some? && jobs[k].id in refused then Rollback(row, outs[k].page.value) else row
  {
    if n > 0 {
      RolledIsSettled(jobs, outs, refused, n - 1, k, row);
    }
  }

  lemma AllOwned(jobs: Registry, board: Board.Records, i: BoardInput, outs: seq<Out>)
    requires Decided(jobs, board, i, outs)
    ensures forall j | 0 <= j < |jobs| :: OwnedBy(outs[j], jobs[j].id)
  {
    forall j | 0 <= j < |jobs|
      ensures OwnedBy(outs[j], jobs[j].id)
    {
      assert DecidedAt(jobs, board, i, outs, j);
      OutBelongs(jobs, board, i, jobs[j]);
    }
  }

  lemma OwnUnsent(o: Out, id: string, refused: set<string>)
    requires OwnedBy(o, id)
    ensures Unsent(IntentsOf(o), refused) == if o.page.Some? && id in refused then [o.page.value] else []
  {
    var page := if o.page.Some? then [o.page.value] else [];
    var recovery := if o.recovery.Some? then [o.recovery.value] else [];
    UnsentConcat(page, recovery, refused);
    assert page != [] ==> page[..0] == [];
    assert recovery != [] ==> recovery[..0] == [];
  }

  function EpisodeOf(board: Board.Records, i: BoardInput, job: Job): Episode
    requires job.id in board && job.id in i.obs
  {
    Episode(job, i.obs[job.id], board[job.id].row)
  }

  /** So a job's record, its row rolled back by the whole list, is one step of that job. */
  lemma RolledIsTheStep(jobs: Registry, board: Board.Records, i: BoardInput, outs: seq<Out>, k: nat)
    requires DistinctIds(jobs) && Decided(jobs, board, i, outs) && k < |jobs|
    ensures var rec := outs[k].rec;
      rec.(row := Rolled(rec.row, jobs[k].id, Unsent(AllIntents(outs), i.refusedPages)))
      == Step(jobs[k], board[jobs[k].id], InputFor(jobs, board, i, jobs[k]))
  {
    assert DecidedAt(jobs, board, i, outs, k);
    AllOwned(jobs, board, i, outs);
    RolledJobByJob(jobs, outs, i.refusedPages, |outs|, jobs[k].id, outs[k].rec.row);
    RolledIsSettled(jobs, outs, i.refusedPages, |outs|, k, outs[k].rec.row);
    assert outs[..|outs|] == outs;
  }

  /** A job has one episode in the batch. */
  lemma OneEpisodePerJob(jobs: Registry, board: Board.Records, i: BoardInput, episodes: seq<Episode>, k: nat)
    requires DistinctIds(jobs) && Covers(jobs, board, i) && k < |jobs|
    requires |episodes| == |jobs| && forall j | 0 <= j < |jobs| :: episodes[j] == EpisodeOf(board, i, jobs[j])
    ensures forall ep | ep in episodes && ep.job.id == jobs[k].id :: ep == episodes[k]
  {
    forall ep | ep in episodes && ep.job.id == jobs[k].id
      ensures ep == episodes[k]
    {
      var j :| 0 <= j < |episodes| && episodes[j] == ep;
      assert jobs[j].id == jobs[k].id;
    }
  }

  /** The record of a job once its new state is written, before the episode pass. */
  function Written(board: Board.Records, i: BoardInput, job: Job): Rec
    requires job.id in board && job.id in i.obs
  {
    WithState(board[job.id], i.obs[job.id].state, i.now)
  }

  predicate StateKnown(board: Board.Records, i: BoardInput, states: map<string, State>,
                       transitions: map<string, State>, id: string)
    requires id in board && id in i.obs
  {
    && id in states && states[id] == i.obs[id].state
    && (id in transitions <==> board[id].row.state != i.obs[id].state)
    && (id in transitions ==> transitions[id] == board[id].row.state)
  }

  /** The states and transitions of the first `n` jobs are noted, and no other job's transition. */
  ghost predicate KnownUpTo(jobs: Registry, board: Board.Records, i: BoardInput, states: map<string, State>,
                            transitions: map<string, State>, n: nat)
    requires Covers(jobs, board, i) && n <= |jobs|
  {
    && (forall j | 0 <= j < n :: StateKnown(board, i, states, transitions, jobs[j].id))
    && (forall j | n <= j < |jobs| :: jobs[j].id !in transitions)
  }

  lemma KnownOneMore(jobs: Registry, board: Board.Records, i: BoardInput, states: map<string, State>,
                     transitions: map<string, State>, n: nat)
    requires DistinctIds(jobs) && Covers(jobs, board, i) && n < |jobs|
    requires KnownUpTo(jobs, board, i, states, transitions, n)
    ensures var id := jobs[n].id;
      var was, now := board[id].row.state, i.obs[id].state;
      KnownUpTo(jobs, board, i, states[id := now], if was == now then transitions else transitions[id := was], n + 1)
  {
  }

  /** What the pass decides, job by job. */
  ghost predicate Decided(jobs: Registry, board: Board.Records, i: BoardInput, outs: seq<Out>) {
    && Covers(jobs, board, i) && |outs| == |jobs|
    && forall k {:trigger DecidedAt(jobs, board, i, outs, k)} | 0 <= k < |jobs| :: DecidedAt(jobs, board, i, outs, k)
  }

  predicate DecidedAt(jobs: Registry, board: Board.Records, i: BoardInput, outs: seq<Out>, k: nat)
    requires Covers(jobs, board, i) && k < |jobs| == |outs|
  {
    outs[k] == OutFor(jobs, board, i, jobs[k])
  }

  /** The pushes of a pass, in registry order. */
  function AllIntents(outs: seq<Out>): seq<Intent> {
    if outs == [] then [] else AllIntents(outs[..|outs| - 1]) + IntentsOf(outs[|outs| - 1])
  }
}
