/**
 The append-only log of state transitions and the two questions asked of it:
 which state was the job last in that was not OK, and for how many seconds of a
 window was it in a given state.
 */
module StateLog {
  import opened Wrappers
  import opened Policy

  /** One transition, in insertion order. The stamp is the writer's clock. */
  datatype Change = Change(at: int, to: State)

  type Log = seq<Change>

  ghost predicate Monotone(log: Log) {
    forall i, j | 0 <= i <= j < |log| :: log[i].at <= log[j].at
  }

  function Last(log: Log): Change
    requires log != []
  {
    log[|log| - 1]
  }

  function Front(log: Log): Log
    requires log != []
  {
    log[..|log| - 1]
  }

  /** The newest entry that is not OK: latest stamp, ties to the later row. */
  function LastNonOk(log: Log): Option<Change> {
    if log == [] then None
    else
      var best := LastNonOk(Front(log));
      if Last(log).to == OK then best
      else if best.None? || best.value.at <= Last(log).at then Some(Last(log))
      else best
  }

  /** Entry `i` is the latest that is not OK: no other is stamped later, and none stamped alike follows it. */
  ghost predicate IsLatestNonOk(log: Log, i: int) {
    && 0 <= i < |log| && log[i].to != OK
    && forall j | 0 <= j < |log| && log[j].to != OK :: log[j].at < log[i].at || (log[j].at == log[i].at && j <= i)
  }

  lemma {:induction false} LastNonOkIsTheLatest(log: Log)
    ensures LastNonOk(log).None? <==> forall c | c in log :: c.to == OK
    ensures LastNonOk(log).Some? ==> exists i :: IsLatestNonOk(log, i) && LastNonOk(log) == Some(log[i])
  {
    if log != [] {
      var front, last := Front(log), |log| - 1;
      LastNonOkIsTheLatest(front);
      assert log == front + [Last(log)];
      if LastNonOk(front).Some? {
        var i :| IsLatestNonOk(front, i) && LastNonOk(front) == Some(front[i]);
        if Last(log).to == OK || Last(log).at < front[i].at {
          assert IsLatestNonOk(log, i);
        } else {
          assert IsLatestNonOk(log, last);
        }
      } else if Last(log).to != OK {
        assert forall j | 0 <= j < last :: front[j] in front;
        assert IsLatestNonOk(log, last);
      }
    }
  }

  // ---- The pointwise meaning of "seconds spent in a state" ----

  /** The state the log says the job was in at instant `t`. */
  function StateAt(log: Log, t: int): Option<State> {
    if log == [] then None
    else if Last(log).at <= t then Some(Last(log).to)
    else StateAt(Front(log), t)
  }

  predicate BadAt(log: Log, t: int, bad: set<State>) {
    StateAt(log, t).Some? && StateAt(log, t).value in bad
  }

  /** How many of the seconds `lo, lo+1, .., hi-1` the job spent in `bad`. */
  function BadSeconds(log: Log, lo: int, hi: int, bad: set<State>): nat
    decreases if lo < hi then hi - lo else 0
  {
    if hi <= lo then 0
    else BadSeconds(log, lo, hi - 1, bad) + if BadAt(log, hi - 1, bad) then 1 else 0
  }

  // ---- The backwards walk ----

  /** What the walk adds up over the newest `limit` rows, closing spans at `upper`. */
  function Walk(log: Log, limit: nat, start: int, upper: int, bad: set<State>): (total: int)
    requires start < upper
    ensures 0 <= total <= upper - start
  {
    if limit == 0 || log == [] then 0
    else
      var r := Last(log);
      if r.at >= upper then Walk(Front(log), limit - 1, start, upper, bad)
      else
        var lower := Max(r.at, start);
        (if r.to in bad then upper - lower else 0)
        + if r.at <= start then 0 else Walk(Front(log), limit - 1, start, lower, bad)
  }

  /** The value `NotOkSeconds` computes, for any log in any order. */
  function Accrued(log: Log, start: int, end: int, bad: set<State>, limit: int): (total: int)
    ensures 0 <= total <= Max(0, end - start)
  {
    if end <= start then 0 else Walk(log, Max(1, limit), start, end, bad)
  }

  /**
   The walk itself. For every log, in any order, the answer lies between zero and
   the length of the window; when the stamps never decrease and the scan reaches
   every row it is exactly the number of seconds spent in `bad`; and a scan cut
   short never answers more than that.
   */
  method NotOkSeconds(log: Log, start: int, end: int, bad: set<State>, limit: int)
    returns (total: int)
    ensures total == Accrued(log, start, end, bad, limit)
    ensures 0 <= total <= Max(0, end - start)
    ensures Monotone(log) && |log| <= limit ==> total == BadSeconds(log, start, end, bad)
    ensures Monotone(log) ==> total <= BadSeconds(log, start, end, bad)
  {
    if end <= start {
      return 0;
    }
    var scan := Max(1, limit);
    total := 0;
    var upper := end;
    var n := |log|;
    var left := scan;
    assert log[..n] == log;
    while n > 0 && left > 0
      invariant 0 <= n <= |log| && 0 <= left
      invariant start < upper
      invariant total + Walk(log[..n], left, start, upper, bad) == Accrued(log, start, end, bad, limit)
      decreases n
    {
      var r := log[n - 1];
      assert Last(log[..n]) == r && Front(log[..n]) == log[..n - 1];
      n, left := n - 1, left - 1;
      if r.at >= upper {
        continue;
      }
      var lower := Max(r.at, start);
      if r.to in bad {
        total := total + upper - lower;
      }
      if r.at <= start {
        break;
      }
      upper := lower;
    }
    AccruedMeaning(log, start, end, bad, limit);
  }

  // ---- The walk is the pointwise count ----

  lemma BadSecondsSplit(log: Log, lo: int, mid: int, hi: int, bad: set<State>)
    requires lo <= mid <= hi
    ensures BadSeconds(log, lo, hi, bad) == BadSeconds(log, lo, mid, bad) + BadSeconds(log, mid, hi, bad)
    decreases hi - mid
  {
    if mid < hi {
      BadSecondsSplit(log, lo, mid, hi - 1, bad);
    }
  }

  lemma BadSecondsAgree(a: Log, b: Log, lo: int, hi: int, bad: set<State>)
    requires forall t | lo <= t < hi :: StateAt(a, t) == StateAt(b, t)
    ensures BadSeconds(a, lo, hi, bad) == BadSeconds(b, lo, hi, bad)
    decreases if lo < hi then hi - lo else 0
  {
    if lo < hi {
      assert StateAt(a, hi - 1) == StateAt(b, hi - 1);
      BadSecondsAgree(a, b, lo, hi - 1, bad);
    }
  }

  lemma BadSecondsConstant(log: Log, lo: int, hi: int, s: State, bad: set<State>)
    requires lo <= hi
    requires forall t | lo <= t < hi :: StateAt(log, t) == Some(s)
    ensures BadSeconds(log, lo, hi, bad) == if s in bad then hi - lo else 0
    decreases hi - lo
  {
    if lo < hi {
      assert StateAt(log, hi - 1) == Some(s);
      BadSecondsConstant(log, lo, hi - 1, s, bad);
    }
  }

  lemma NothingBeforeTheLog(log: Log, lo: int, hi: int, bad: set<State>)
    requires forall c | c in log :: hi <= c.at
    ensures BadSeconds(log, lo, hi, bad) == 0
  {
    forall t | lo <= t < hi ensures StateAt(log, t) == StateAt([], t) {
      NoStateBefore(log, t);
    }
    BadSecondsAgree(log, [], lo, hi, bad);
    EmptyLogCountsNothing(lo, hi, bad);
  }

  lemma NoStateBefore(log: Log, t: int)
    requires forall c | c in log :: t < c.at
    ensures StateAt(log, t) == None
  {
    if log != [] {
      assert Last(log) in log;
      assert forall c | c in Front(log) :: c in log;
      NoStateBefore(Front(log), t);
    }
  }

  lemma EmptyLogCountsNothing(lo: int, hi: int, bad: set<State>)
    ensures BadSeconds([], lo, hi, bad) == 0
    decreases if lo < hi then hi - lo else 0
  {
    if lo < hi {
      EmptyLogCountsNothing(lo, hi - 1, bad);
    }
  }

  /** Where the scanned part of the window begins: the oldest of the newest `limit` stamps. */
  function ScanFloor(log: Log, limit: nat, upper: int): int {
    if limit == 0 || log == [] then upper
    else ScanFloor(Front(log), limit - 1, Min(upper, Last(log).at))
  }

  /**
   On a log whose stamps never decrease the walk counts exactly the bad seconds of
   the part of the window its rows cover.
   */
  lemma {:induction false} WalkIsPointwise(log: Log, limit: nat, start: int, upper: int, bad: set<State>)
    requires Monotone(log) && start < upper
    ensures Walk(log, limit, start, upper, bad)
         == BadSeconds(log, Max(start, ScanFloor(log, limit, upper)), upper, bad)
    decreases |log|
  {
    if limit > 0 && log != [] {
      var r, rest := Last(log), Front(log);
      var lower := Max(r.at, start);
      var floor := Max(start, ScanFloor(log, limit, upper));
      if r.at >= upper {
        BadSecondsAgree(log, rest, floor, upper, bad);
        WalkIsPointwise(rest, limit - 1, start, upper, bad);
      } else {
        ScanFloorIsLow(rest, limit - 1, r.at);
        BadSecondsSplit(log, floor, lower, upper, bad);
        BadSecondsConstant(log, lower, upper, r.to, bad);
        if r.at > start {
          BadSecondsAgree(log, rest, floor, lower, bad);
          WalkIsPointwise(rest, limit - 1, start, lower, bad);
        }
      }
    }
  }

  lemma ScanFloorIsLow(log: Log, limit: nat, upper: int)
    ensures ScanFloor(log, limit, upper) <= upper
  {
  }

  lemma FullScanReachesTheStart(log: Log, limit: nat, upper: int)
    requires |log| <= limit
    ensures forall c | c in log :: ScanFloor(log, limit, upper) <= c.at
    ensures ScanFloor(log, limit, upper) <= upper
  {
    if log != [] {
      FullScanReachesTheStart(Front(log), limit - 1, Min(upper, Last(log).at));
      assert log == Front(log) + [Last(log)];
    }
  }

  lemma AccruedMeaning(log: Log, start: int, end: int, bad: set<State>, limit: int)
    ensures Monotone(log) && |log| <= limit ==> Accrued(log, start, end, bad, limit) == BadSeconds(log, start, end, bad)
    ensures Monotone(log) ==> Accrued(log, start, end, bad, limit) <= BadSeconds(log, start, end, bad)
  {
    if Monotone(log) && start < end {
      var scan := Max(1, limit);
      var floor := Max(start, ScanFloor(log, scan, end));
      WalkIsPointwise(log, scan, start, end, bad);
      ScanFloorIsLow(log, scan, end);
      BadSecondsSplit(log, start, floor, end, bad);
      if |log| <= limit {
        FullScanReachesTheStart(log, scan, end);
        if start < floor {
          NothingBeforeTheLog(log, start, floor, bad);
        }
      }
    }
  }
}
