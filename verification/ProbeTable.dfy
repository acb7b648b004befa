/**
 The probes table: one row per probe in the order they were inserted, which is the order
 every reader goes by. The clock on a row is only ever used to measure durations.
 */
module ProbeTable {
  import opened Wrappers

  /** One probe of one job. `transient` is whether its error is a quota or a timeout. */
  datatype Probe = Probe(job: string, at: int, ok: bool, transient: bool)

  /** How many rows of each job a prune keeps. */
  const KEEP_PROBES := 2000
  /** How far back the failure streak is counted. */
  const STREAK_SCAN_LIMIT := 500

  /** The rows of one job, oldest first. */
  function Of(rows: seq<Probe>, job: string): seq<Probe> {
    if rows == [] then []
    else if rows[0].job == job then [rows[0]] + Of(rows[1..], job)
    else Of(rows[1..], job)
  }

  function Newest<T>(s: seq<T>, n: nat): seq<T> { if |s| <= n then s else s[|s| - n..] }

  /** What a prune leaves: every row that is among the newest `keep` of its own job. */
  function Kept(rows: seq<Probe>, keep: nat): seq<Probe> {
    if rows == [] then []
    else if |Of(rows[1..], rows[0].job)| < keep then [rows[0]] + Kept(rows[1..], keep)
    else Kept(rows[1..], keep)
  }

  lemma {:induction false} OfConcat(a: seq<Probe>, b: seq<Probe>, job: string)
    ensures Of(a + b, job) == Of(a, job) + Of(b, job)
  {
    if a == [] {
      assert a + b == b;
    } else {
      OfConcat(a[1..], b, job);
      assert (a + b)[1..] == a[1..] + b;
    }
  }

  lemma OfSnoc(rows: seq<Probe>, p: Probe, job: string)
    ensures Of(rows + [p], job) == Of(rows, job) + if p.job == job then [p] else []
  {
    OfConcat(rows, [p], job);
    assert [p][1..] == [];
  }

  lemma OfCons(p: Probe, rest: seq<Probe>, job: string)
    ensures Of([p] + rest, job) == if p.job == job then [p] + Of(rest, job) else Of(rest, job)
  {
    assert ([p] + rest)[1..] == rest;
  }

  lemma NewestCons<T>(x: T, s: seq<T>, n: nat)
    ensures Newest([x] + s, n) == if |s| < n then [x] + Newest(s, n) else Newest(s, n)
  {
  }

  /** PRUNING KEEPS EACH JOB'S NEWEST ROWS, in their order, and no others, whatever the other jobs did. */
  lemma {:induction false} PruneKeepsTheNewest(rows: seq<Probe>, keep: nat, job: string)
    ensures Of(Kept(rows, keep), job) == Newest(Of(rows, job), keep)
  {
    if rows == [] {
    } else {
      var p, rest := rows[0], rows[1..];
      PruneKeepsTheNewest(rest, keep, job);
      OfCons(p, Kept(rest, keep), job);
      NewestCons(p, Of(rest, job), keep);
    }
  }

  /** Unbroken failures at the end of a history. */
  function Trailing(h: seq<Probe>): nat {
    if h == [] || h[|h| - 1].ok then 0 else 1 + Trailing(h[..|h| - 1])
  }

  lemma {:induction false} TrailingMeaning(h: seq<Probe>)
    ensures Trailing(h) <= |h|
    ensures forall i | |h| - Trailing(h) <= i < |h| :: !h[i].ok
    ensures Trailing(h) < |h| ==> h[|h| - Trailing(h) - 1].ok
  {
    if h != [] && !h[|h| - 1].ok {
      TrailingMeaning(h[..|h| - 1]);
    }
  }

  /** Nothing but those two facts says how long the streak is. */
  lemma TrailingIs(h: seq<Probe>, t: nat)
    requires t <= |h| && (forall i | |h| - t <= i < |h| :: !h[i].ok) && (t < |h| ==> h[|h| - t - 1].ok)
    ensures Trailing(h) == t
  {
    TrailingMeaning(h);
  }

  function LastOk(h: seq<Probe>): Option<Probe> {
    if h == [] then None else if h[|h| - 1].ok then Some(h[|h| - 1]) else LastOk(h[..|h| - 1])
  }

  /** The last success is the row just before the streak; there is none when the streak is everything. */
  lemma {:induction false} LastOkEndsTheStreak(h: seq<Probe>)
    ensures Trailing(h) <= |h|
    ensures LastOk(h) == if Trailing(h) == |h| then None else Some(h[|h| - Trailing(h) - 1])
  {
    TrailingMeaning(h);
    if h != [] && !h[|h| - 1].ok {
      LastOkEndsTheStreak(h[..|h| - 1]);
    }
  }

  class Table {
    var rows: seq<Probe>

    constructor ()
      ensures rows == []
    {
      rows := [];
    }

    method Insert(p: Probe)
      modifies this
      ensures rows == old(rows) + [p]
    {
      rows := rows + [p];
    }

    method Prune()
      modifies this
      ensures rows == Kept(old(rows), KEEP_PROBES)
    {
      rows := Kept(rows, KEEP_PROBES);
    }

    /** Walks the job's newest rows back to its last success. */
    method ProbeFailStreak(job: string, limit: nat) returns (streak: nat)
      requires limit >= 1
      ensures streak == if Trailing(Of(rows, job)) < limit then Trailing(Of(rows, job)) else limit
    {
      var h := Of(rows, job);
      var newest := Newest(h, limit);
      streak := 0;
      var i := |newest|;
      while i > 0
        invariant 0 <= i <= |newest| && streak == |newest| - i
        invariant forall k | i <= k < |newest| :: !newest[k].ok
      {
        if newest[i - 1].ok { break; }
        streak := streak + 1;
        i := i - 1;
      }
      TrailingMeaning(h);
      if i > 0 {
        assert newest[i - 1] == h[|h| - streak - 1];
        TrailingIs(h, streak);
      } else if |h| <= limit {
        TrailingIs(h, streak);
      }
    }
  }
}
