/**
 The probe queue: each cycle probes the due jobs least recently probed first until its
 time runs out, and however early that is no due job waits longer than the registry is long.
 */
module ProbeQueue {
  import opened Wrappers
  import opened ProbeTable

  /** A probed job: its own interval, or every cycle. Its place in the registry breaks ties. */
  datatype Job = Job(id: string, interval: Option<nat>)
  type Registry = seq<Job>

  predicate DistinctIds(jobs: Registry) { forall i, j | 0 <= i < j < |jobs| :: jobs[i].id != jobs[j].id }

  /** When the job was last probed, or -1: never probed sorts first. */
  function LastProbed(rows: seq<Probe>, id: string): int {
    var h := Of(rows, id);
    if h == [] then -1 else h[|h| - 1].at
  }

  predicate IsDue(rows: seq<Probe>, job: Job, now: int) {
    Of(rows, job.id) == [] || job.interval.None? || now - LastProbed(rows, job.id) >= job.interval.value
  }

  // ---- The stable sort by stamp ----

  datatype Due = Due(ts: int, index: nat)

  function InsertSorted(s: seq<Due>, d: Due): seq<Due> {
    if s == [] || s[|s| - 1].ts <= d.ts then s + [d] else InsertSorted(s[..|s| - 1], d) + [s[|s| - 1]]
  }

  /** What sorting by stamp alone, keeping the order of equal stamps, makes of a list. */
  function SortByStamp(s: seq<Due>): seq<Due> {
    if s == [] then [] else InsertSorted(SortByStamp(s[..|s| - 1]), s[|s| - 1])
  }

  predicate Precedes(a: Due, b: Due) { a.ts < b.ts || (a.ts == b.ts && a.index < b.index) }

  ghost predicate Ordered(s: seq<Due>) { forall i, j | 0 <= i < j < |s| :: Precedes(s[i], s[j]) }

  ghost predicate InRegistryOrder(s: seq<Due>) { forall i, j | 0 <= i < j < |s| :: s[i].index < s[j].index }

  lemma {:induction false} InsertedInOrder(s: seq<Due>, d: Due)
    requires Ordered(s) && forall x | x in s :: x.index < d.index
    ensures Ordered(InsertSorted(s, d))
    ensures forall x :: x in InsertSorted(s, d) <==> x in s || x == d
  {
    if s == [] || s[|s| - 1].ts <= d.ts {
    } else {
      var rest, last := s[..|s| - 1], s[|s| - 1];
      InsertedInOrder(rest, d);
      assert s == rest + [last];
      forall x | x in rest
        ensures Precedes(x, last)
      {
      }
    }
  }

  /** The stable sort of a list in registry order is in order of stamp and then of registry, with nothing lost. */
  lemma {:induction false} SortedInOrder(s: seq<Due>)
    requires InRegistryOrder(s)
    ensures Ordered(SortByStamp(s))
    ensures forall x :: x in SortByStamp(s) <==> x in s
  {
    if s != [] {
      var rest, last := s[..|s| - 1], s[|s| - 1];
      SortedInOrder(rest);
      InsertedInOrder(SortByStamp(rest), last);
      assert s == rest + [last];
    }
  }

  // ---- The due list ----

  function DueInRegistryOrder(rows: seq<Probe>, jobs: Registry, now: int): seq<Due> {
    if jobs == [] then []
    else
      var last := |jobs| - 1;
      DueInRegistryOrder(rows, jobs[..last], now)
      + if IsDue(rows, jobs[last], now) then [Due(LastProbed(rows, jobs[last].id), last)] else []
  }

  function DueList(rows: seq<Probe>, jobs: Registry, now: int): seq<Due> {
    SortByStamp(DueInRegistryOrder(rows, jobs, now))
  }

  /** `d` is the entry of a due job of the registry. */
  predicate IsEntry(rows: seq<Probe>, jobs: Registry, now: int, d: Due) {
    d.index < |jobs| && IsDue(rows, jobs[d.index], now) && d.ts == LastProbed(rows, jobs[d.index].id)
  }

  lemma {:induction false} DueInRegistryOrderIs(rows: seq<Probe>, jobs: Registry, now: int)
    ensures InRegistryOrder(DueInRegistryOrder(rows, jobs, now))
    ensures forall d :: d in DueInRegistryOrder(rows, jobs, now) <==> IsEntry(rows, jobs, now, d)
  {
    if jobs != [] {
      var last := |jobs| - 1;
      var before := DueInRegistryOrder(rows, jobs[..last], now);
      DueInRegistryOrderIs(rows, jobs[..last], now);
      forall d: Due | d.index < last
        ensures IsEntry(rows, jobs, now, d) <==> d in before
      {
        assert IsEntry(rows, jobs[..last], now, d) <==> d in before;
      }
      forall d | d in before
        ensures d.index < last
      {
        assert IsEntry(rows, jobs[..last], now, d);
      }
    }
  }

  /** The due list is exactly the due jobs, oldest stamp first, the registry breaking ties. */
  lemma DueListIs(rows: seq<Probe>, jobs: Registry, now: int)
    ensures Ordered(DueList(rows, jobs, now))
    ensures forall d :: d in DueList(rows, jobs, now) <==> IsEntry(rows, jobs, now, d)
  {
    DueInRegistryOrderIs(rows, jobs, now);
    SortedInOrder(DueInRegistryOrder(rows, jobs, now));
  }

  // ---- One cycle ----

  /** What a probe of a job answered. */
  datatype Answer = Answer(ok: bool, transient: bool)

  /** A cycle: when it starts and ends, before which probe its budget stops it, and what the probes answer. */
  datatype Cycle = Cycle(now: int, end: int, stop: nat, answers: string -> Answer)

  /** How many of `due` jobs a cycle probes: at least one if any is due. */
  function Probes(c: Cycle, due: nat): (k: nat)
    ensures k <= due && (due > 0 ==> k > 0)
  {
    if due == 0 then 0 else if c.stop == 0 then 1 else if c.stop < due then c.stop else due
  }

  function RowFor(c: Cycle, id: string): Probe {
    Probe(id, c.end, c.answers(id).ok, c.answers(id).transient)
  }

  /** The rows of the probes of the first `k` due jobs, all stamped with the end of the cycle. */
  function NewRows(jobs: Registry, due: seq<Due>, c: Cycle, k: nat): seq<Probe>
    requires k <= |due| && forall d | d in due :: d.index < |jobs|
  {
    seq(k, i requires 0 <= i < k => RowFor(c, jobs[due[i].index].id))
  }

  ghost function ProbedRows(rows: seq<Probe>, jobs: Registry, c: Cycle): seq<Probe> {
    DueListIs(rows, jobs, c.now);
    var due := DueList(rows, jobs, c.now);
    NewRows(jobs, due, c, Probes(c, |due|))
  }

  /** The table after the cycle has inserted its rows and pruned. */
  ghost function After(rows: seq<Probe>, jobs: Registry, c: Cycle): seq<Probe> {
    Kept(rows + ProbedRows(rows, jobs, c), KEEP_PROBES)
  }

  ghost predicate ProbedNow(rows: seq<Probe>, jobs: Registry, c: Cycle, j: nat)
    requires j < |jobs|
  {
    exists p :: p in ProbedRows(rows, jobs, c) && p.job == jobs[j].id
  }

  lemma {:induction false} OfMembers(rows: seq<Probe>, id: string)
    ensures forall p :: p in Of(rows, id) <==> p in rows && p.job == id
  {
    if rows != [] {
      OfMembers(rows[1..], id);
      assert rows == [rows[0]] + rows[1..];
    }
  }

  /** A cycle stamps the jobs it probed with its end, and leaves every other stamp as it was. */
  lemma StampsAfter(rows: seq<Probe>, jobs: Registry, c: Cycle, j: nat)
    requires j < |jobs|
    ensures LastProbed(After(rows, jobs, c), jobs[j].id) == if ProbedNow(rows, jobs, c, j) then c.end else LastProbed(rows, jobs[j].id)
    ensures ProbedNow(rows, jobs, c, j) || Of(rows, jobs[j].id) != [] ==> Of(After(rows, jobs, c), jobs[j].id) != []
  {
    var more, id := ProbedRows(rows, jobs, c), jobs[j].id;
    OfConcat(rows, more, id);
    PruneKeepsTheNewest(rows + more, KEEP_PROBES, id);
    OfMembers(more, id);
    var h := Of(rows + more, id);
    if Of(more, id) == [] {
      assert h == Of(rows, id);
    } else {
      assert h[|h| - 1] == Of(more, id)[|Of(more, id)| - 1];
      assert Of(more, id)[|Of(more, id)| - 1] in Of(more, id);
    }
  }

  // ---- What a cycle stores ----

  /** Row `k` is the job's newest. */
  ghost predicate IsNewestRow(rows: seq<Probe>, id: string, k: int) {
    0 <= k < |rows| && rows[k].job == id && forall j | k < j < |rows| :: rows[j].job != id
  }

  lemma {:induction false} NewestRowIs(rows: seq<Probe>, id: string, k: nat)
    requires IsNewestRow(rows, id, k)
    ensures Of(rows, id) != [] && Of(rows, id)[|Of(rows, id)| - 1] == rows[k]
  {
    var before, after := rows[..k], rows[k + 1..];
    assert rows == before + [rows[k]] + after;
    OfConcat(before + [rows[k]], after, id);
    OfSnoc(before, rows[k], id);
    forall p | p in after
      ensures p.job != id
    {
      var j :| 0 <= j < |after| && after[j] == p;
      assert rows[k + 1 + j] == p;
    }
    NoneOf(after, id);
  }

  lemma {:induction false} NoneOf(rows: seq<Probe>, id: string)
    requires forall p | p in rows :: p.job != id
    ensures Of(rows, id) == []
  {
    if rows != [] {
      NoneOf(rows[1..], id);
    }
  }

  /** A job with an interval is due when its newest row is that old; any job without a row or an interval is. */
  lemma DueExactly(rows: seq<Probe>, job: Job, now: int)
    ensures (forall p | p in rows :: p.job != job.id) || job.interval.None? ==> IsDue(rows, job, now)
    ensures forall k | IsNewestRow(rows, job.id, k) && job.interval.Some? ::
      IsDue(rows, job, now) <==> now - rows[k].at >= job.interval.value
    ensures forall k | IsNewestRow(rows, job.id, k) :: LastProbed(rows, job.id) == rows[k].at
  {
    if forall p | p in rows :: p.job != job.id {
      NoneOf(rows, job.id);
    }
    forall k | IsNewestRow(rows, job.id, k)
      ensures Of(rows, job.id) != [] && Of(rows, job.id)[|Of(rows, job.id)| - 1] == rows[k]
    {
      NewestRowIs(rows, job.id, k);
    }
  }

  /**
   What a cycle stores is one row for each of the first due jobs, as many as its budget
   let it probe and at least one, stamped with its end and saying what the probe answered.
   */
  lemma RowsAreTheAnswers(rows: seq<Probe>, jobs: Registry, c: Cycle)
    ensures var due, more := DueList(rows, jobs, c.now), ProbedRows(rows, jobs, c);
      && |more| == (if |due| <= c.stop then |due| else if c.stop == 0 then 1 else c.stop)
      && (forall k | 0 <= k < |more| :: due[k].index < |jobs| && more[k].job == jobs[due[k].index].id)
      && (forall p | p in more ::
            p.at == c.end && p.ok == c.answers(p.job).ok && p.transient == c.answers(p.job).transient)
  {
    DueListIs(rows, jobs, c.now);
    var due := DueList(rows, jobs, c.now);
    assert forall k | 0 <= k < |due| :: due[k] in due && IsEntry(rows, jobs, c.now, due[k]);
  }

  /** After the probes the newest row of a probed job is that answer, and of any other the one it had. */
  lemma NewestIsTheAnswer(rows: seq<Probe>, jobs: Registry, c: Cycle, id: string)
    ensures var more, h := ProbedRows(rows, jobs, c), Of(rows + ProbedRows(rows, jobs, c), id);
      if exists p :: p in more && p.job == id
      then h != [] && h[|h| - 1] == Probe(id, c.end, c.answers(id).ok, c.answers(id).transient)
      else h == Of(rows, id)
  {
    var more := ProbedRows(rows, jobs, c);
    RowsAreTheAnswers(rows, jobs, c);
    OfConcat(rows, more, id);
    OfMembers(more, id);
    var own := Of(more, id);
    if own != [] {
      assert own[|own| - 1] in own;
    }
  }

  // ---- No job starves ----

  /** The jobs, due or not, that come before job `j` in the queue's order. */
  ghost function Ahead(rows: seq<Probe>, jobs: Registry, j: nat): set<nat>
    requires j < |jobs|
  {
    set i: nat | i < |jobs| && Precedes(EntryOf(rows, jobs, i), EntryOf(rows, jobs, j))
  }

  function EntryOf(rows: seq<Probe>, jobs: Registry, i: nat): Due
    requires i < |jobs|
  {
    Due(LastProbed(rows, jobs[i].id), i)
  }

  ghost predicate StampedBefore(rows: seq<Probe>, jobs: Registry, end: int) {
    forall i: nat | i < |jobs| :: LastProbed(rows, jobs[i].id) < end
  }

  /** A cycle that passes over a due job has probed one that was ahead of it. */
  lemma PassedOver(rows: seq<Probe>, jobs: Registry, c: Cycle, j: nat) returns (i: nat)
    requires j < |jobs| && IsDue(rows, jobs[j], c.now) && !ProbedNow(rows, jobs, c, j)
    ensures i in Ahead(rows, jobs, j) && ProbedNow(rows, jobs, c, i)
  {
    DueListIs(rows, jobs, c.now);
    var due := DueList(rows, jobs, c.now);
    assert IsEntry(rows, jobs, c.now, EntryOf(rows, jobs, j));
    var at :| 0 <= at < |due| && due[at] == EntryOf(rows, jobs, j);
    var added := ProbedRows(rows, jobs, c);
    assert added[0] in added;
    i := due[0].index;
    assert IsEntry(rows, jobs, c.now, due[0]);
    assert added[0] == RowFor(c, jobs[i].id);
  }

  /** So the queue ahead of it gets shorter, while it waits. */
  lemma TheQueueShrinks(rows: seq<Probe>, jobs: Registry, c: Cycle, j: nat)
    requires j < |jobs| && IsDue(rows, jobs[j], c.now) && !ProbedNow(rows, jobs, c, j)
    requires StampedBefore(rows, jobs, c.end)
    ensures |Ahead(After(rows, jobs, c), jobs, j)| < |Ahead(rows, jobs, j)|
  {
    var was, left := Ahead(rows, jobs, j), Ahead(After(rows, jobs, c), jobs, j);
    var gone := PassedOver(rows, jobs, c, j);
    StampsAfter(rows, jobs, c, j);
    forall i | i in left
      ensures i in was - {gone}
    {
      StampsAfter(rows, jobs, c, i);
    }
    assert left <= was - {gone};
    SmallerSet(left, was - {gone});
  }

  lemma SmallerSet(a: set<nat>, b: set<nat>)
    requires a <= b
    ensures |a| <= |b|
  {
    assert b == a + (b - a);
  }

  /** Some cycle of the run probes job `j`. */
  ghost predicate ProbedIn(rows: seq<Probe>, jobs: Registry, cycles: seq<Cycle>, j: nat)
    requires j < |jobs|
    decreases |cycles|
  {
    cycles != [] && (ProbedNow(rows, jobs, cycles[0], j) || ProbedIn(After(rows, jobs, cycles[0]), jobs, cycles[1..], j))
  }

  /** The clocks of a run: starts never go back, and ends strictly increase. */
  ghost predicate ClocksRun(cycles: seq<Cycle>) {
    forall i, k | 0 <= i < k < |cycles| :: cycles[i].now <= cycles[k].now && cycles[i].end < cycles[k].end
  }

  lemma StaysDue(rows: seq<Probe>, jobs: Registry, c: Cycle, j: nat, later: int)
    requires j < |jobs| && IsDue(rows, jobs[j], c.now) && !ProbedNow(rows, jobs, c, j) && c.now <= later
    ensures IsDue(After(rows, jobs, c), jobs[j], later)
  {
    StampsAfter(rows, jobs, c, j);
    if Of(rows, jobs[j].id) == [] {
      OfConcat(rows, ProbedRows(rows, jobs, c), jobs[j].id);
      PruneKeepsTheNewest(rows + ProbedRows(rows, jobs, c), KEEP_PROBES, jobs[j].id);
      OfMembers(ProbedRows(rows, jobs, c), jobs[j].id);
    }
  }

  /** A due job is probed within as many cycles as there are jobs ahead of it, and one. */
  lemma {:induction false} ProbedWithinTheQueue(rows: seq<Probe>, jobs: Registry, cycles: seq<Cycle>, j: nat)
    requires j < |jobs| && |cycles| > |Ahead(rows, jobs, j)| && ClocksRun(cycles)
    requires IsDue(rows, jobs[j], cycles[0].now) && StampedBefore(rows, jobs, cycles[0].end)
    ensures ProbedIn(rows, jobs, cycles, j)
    decreases |cycles|
  {
    var c, rest := cycles[0], cycles[1..];
    if !ProbedNow(rows, jobs, c, j) {
      TheQueueShrinks(rows, jobs, c, j);
      forall i, k | 0 <= i < k < |rest|
        ensures rest[i].now <= rest[k].now && rest[i].end < rest[k].end
      {
        assert cycles[i + 1] == rest[i] && cycles[k + 1] == rest[k];
      }
      assert rest[0] == cycles[1];
      StaysDue(rows, jobs, c, j, rest[0].now);
      forall i: nat | i < |jobs|
        ensures LastProbed(After(rows, jobs, c), jobs[i].id) < rest[0].end
      {
        StampsAfter(rows, jobs, c, i);
      }
      ProbedWithinTheQueue(After(rows, jobs, c), jobs, rest, j);
    }
  }

  /**
   NO JOB STARVES. With n probed jobs, any due job is probed within n cycles, however
   early the budget cuts each of them and whatever the probes answer.
   */
  lemma NoJobStarves(rows: seq<Probe>, jobs: Registry, cycles: seq<Cycle>, j: nat)
    requires j < |jobs| && |cycles| >= |jobs| && ClocksRun(cycles)
    requires IsDue(rows, jobs[j], cycles[0].now) && StampedBefore(rows, jobs, cycles[0].end)
    ensures ProbedIn(rows, jobs, cycles, j)
  {
    var ahead := Ahead(rows, jobs, j);
    IndicesAreAll(|jobs|);
    var others := Indices(|jobs|) - {j};
    assert ahead <= others;
    SmallerSet(ahead, others);
    ProbedWithinTheQueue(rows, jobs, cycles, j);
  }

  ghost function Indices(n: nat): set<nat> { if n == 0 then {} else Indices(n - 1) + {n - 1} }

  lemma {:induction false} IndicesAreAll(n: nat)
    ensures |Indices(n)| == n
    ensures forall i: nat :: i in Indices(n) <==> i < n
  {
    if n > 0 {
      IndicesAreAll(n - 1);
    }
  }

  /**
   The ends must strictly increase: with the clock standing still a cycle that only has
   time for one probe takes the first of two jobs stamped alike, every time.
   */
  lemma {:induction false} AStoppedClockStarves(rows: seq<Probe>, jobs: Registry, cycles: seq<Cycle>, t: int)
    requires |jobs| == 2 && jobs[0].id != jobs[1].id && jobs[0].interval.None? && jobs[1].interval.None?
    requires Of(rows, jobs[0].id) != [] && Of(rows, jobs[1].id) != []
    requires LastProbed(rows, jobs[0].id) == t && LastProbed(rows, jobs[1].id) == t
    requires forall c | c in cycles :: c.now == t && c.end == t && c.stop <= 1
    ensures !ProbedIn(rows, jobs, cycles, 1)
    decreases |cycles|
  {
    if cycles != [] {
      var c := cycles[0];
      assert c in cycles;
      FirstOfTwo(rows, jobs, c, t);
      StampsAfter(rows, jobs, c, 0);
      StampsAfter(rows, jobs, c, 1);
      AStoppedClockStarves(After(rows, jobs, c), jobs, cycles[1..], t);
    }
  }

  lemma FirstOfTwo(rows: seq<Probe>, jobs: Registry, c: Cycle, t: int)
    requires |jobs| == 2 && jobs[0].id != jobs[1].id && jobs[0].interval.None? && jobs[1].interval.None?
    requires LastProbed(rows, jobs[0].id) == t && LastProbed(rows, jobs[1].id) == t && c.stop <= 1
    ensures !ProbedNow(rows, jobs, c, 1)
  {
    DueListIs(rows, jobs, c.now);
    var due := DueList(rows, jobs, c.now);
    assert IsEntry(rows, jobs, c.now, Due(t, 0));
    var at :| 0 <= at < |due| && due[at] == Due(t, 0);
    assert IsEntry(rows, jobs, c.now, due[0]);
    forall p | p in ProbedRows(rows, jobs, c)
      ensures p.job == jobs[0].id
    {
    }
  }
}
