/**
 The drafting run as it loops, proved against the rules.
 */
module Drafting {
  import opened Wrappers
  import opened DraftingRules

  class Worker {
    var notes: seq<Note>
    var memo: Memo

    constructor (notes: seq<Note>)
      ensures this.notes == notes && memo == Memo(None, 0)
    {
      this.notes, memo := notes, Memo(None, 0);
    }

    /** The oldest queued notes, as many as asked for within the server's own cap. */
    method DraftQueue(limit: nat) returns (items: seq<nat>)
      ensures forall i: nat :: i in items <==> InBatch(notes, limit, i)
      ensures forall k, l | 0 <= k < l < |items| :: items[k] < items[l]
      ensures forall i | i in items :: i < |notes| && notes[i].attempts < 3 && (notes[i].status != Ready || notes[i].stale)
      ensures |items| <= Clamped(limit)
      ensures forall i: nat | i < |notes| && i !in items && notes[i].attempts < 3 && (notes[i].status != Ready || notes[i].stale) ::
        |items| == Clamped(limit) && forall j | j in items :: j < i
    {
      items := [];
      var i := 0;
      while i < |notes|
        invariant i <= |notes| && |items| == Rank(notes, i) && |items| < BatchSize(limit)
        invariant forall j: nat :: j in items <==> j < i && InBatch(notes, limit, j)
        invariant forall k | 0 <= k < |items| :: items[k] < i
        invariant forall k, l | 0 <= k < l < |items| :: items[k] < items[l]
      {
        i := i + 1;
        if !Queued(notes[i - 1]) { continue; }
        items := items + [i - 1];
        if |items| >= BatchSize(limit) { break; }
      }
      RankGrows(notes, i);
      OldestFirst(notes, limit, items, i);
    }

    /** A failed attempt on a note, if the server takes the report. False when it rejects the token. */
    method Report(i: nat, forGood: bool, r: Run) returns (ok: bool)
      requires i < |notes|
      modifies this`notes
      ensures notes == if r.report(i) == Taken then old(notes)[i := Counted(old(notes)[i], forGood)] else old(notes)
      ensures ok <==> r.report(i) != Rejected
    {
      if r.report(i) == Taken {
        notes := notes[i := Counted(notes[i], forGood)];
      }
      ok := r.report(i) != Rejected;
    }

    /** Reports the held results, oldest first, until the token is rejected. */
    method Flush(held: seq<nat>, forGood: bool, r: Run) returns (ok: bool)
      requires Ascending(held) && forall i | i in held :: i < |notes|
      modifies this`notes
      ensures CountedUpTo(old(notes), notes, held, forGood, r)
      ensures ok <==> forall i | i in held :: r.report(i) != Rejected
    {
      var left := held;
      ghost var n := 0;
      assert held[0..] == held;
      while left != []
        invariant n <= |held| && left == held[n..]
        invariant CountedUpTo(old(notes), notes, held[..n], forGood, r)
        invariant forall i | i in held[..n] :: r.report(i) != Rejected
        decreases |left|
      {
        var i := left[0];
        assert i == held[n] && i in held && held[..n + 1] == held[..n] + [i];
        left := left[1..];
        ghost var before := notes;
        var taken := Report(i, forGood, r);
        OneMoreReport(old(notes), before, notes, held, n, forGood, r);
        if !taken { return false; }
        n := n + 1;
      }
      assert held[..n] == held;
      return true;
    }

    /**
     Drafts the items one after another, until one stops the run. A bad result is held
     while nothing has succeeded; once something has, nothing is ever held again.
     */
    method DraftItems(items: seq<nat>, r: Run)
      returns (k: nat, held: seq<nat>, successes: nat, stopped: bool, timedOut: Option<nat>)
      requires Ascending(items) && forall i | i in items :: i < |notes|
      modifies this`notes
      ensures k <= |items| && SoFar(old(notes), memo, r, items[..k], held, successes, notes)
      ensures GoesOn(memo, r, items, k, stopped)
      ensures timedOut == TimeoutAt(memo, r, items, k)
    {
      ghost var was := notes;
      k, held, successes := 0, [], 0;
      while k < |items|
        invariant k <= |items|
        invariant SoFar(was, memo, r, items[..k], held, successes, notes)
        invariant PassesAll(memo, r, items, k)
      {
        if Stops(memo, r, items[k]) {
          StopsAt(memo, r, items, k);
          return k, held, successes, true, if r.reply(items[k]) == TimedOut then Some(items[k]) else None;
        }
        assert items[k] in items && NewIn(items[..k], items[k]) && items[..k + 1] == items[..k] + [items[k]];
        var ok;
        held, successes, ok := DraftOne(items[k], r, held, successes, was, items[..k]);
        k := k + 1;
        OneMorePassed(memo, r, items, k, ok);
        if !ok { return k, held, successes, true, None; }
      }
      PassedThem(memo, r, items);
      return k, held, successes, false, None;
    }

    method DraftOne(i: nat, r: Run, held: seq<nat>, successes: nat, ghost was: seq<Note>, ghost done: seq<nat>)
      returns (nowHeld: seq<nat>, nowSuccesses: nat, ok: bool)
      requires i < |notes| && !Stops(memo, r, i) && NewIn(done, i) && SoFar(was, memo, r, done, held, successes, notes)
      requires successes > 0 ==> !RejectsIn(memo, r, done)
      modifies this`notes
      ensures SoFar(was, memo, r, done + [i], nowHeld, nowSuccesses, notes)
      ensures ok <==> !CutBy(memo, r, done, i)
    {
      nowHeld, nowSuccesses, ok := held, successes, true;
      if Bad(memo, r, i) {
        if successes > 0 {
          ok := Report(i, false, r);
        } else {
          nowHeld := held + [i];
          assert nowHeld[..|held|] == held;
        }
        TookBad(was, memo, r, done, nowHeld, successes, old(notes), i, notes);
      } else if r.reply(i) == Drafted {
        notes := notes[i := WithDraft(notes[i])];
        ok := Flush(held, false, r);
        TookDrafted(was, memo, r, done, held, successes, old(notes), i, notes);
        nowHeld, nowSuccesses := [], successes + 1;
      } else {
        TookNothing(was, memo, r, done, held, successes, notes, i);
      }
    }

    /** The end of a batch that was not stopped: the breaker trips, gives up on the notes, or lets them count. */
    method EndBatch(held: seq<nat>, successes: nat, r: Run) returns (trips: nat)
      requires Ascending(held) && forall i | i in held :: i < |notes|
      modifies this`notes
      ensures EndsBatch(memo, held, successes, r, old(notes), notes) && trips == TripsOf(memo, held, successes)
    {
      trips := memo.trips;
      if successes == 0 && |held| >= BREAKER_FAILURES {
        trips := trips + 1;
        if trips >= BREAKER_MAX_TRIPS {
          trips := 0;
          var _ := Flush(held, true, r);
        }
      } else {
        trips := 0;
        var _ := Flush(held, false, r);
      }
    }

    /** One run of the worker is one step of the rules. */
    method RunDrafting(limit: nat, r: Run)
      modifies this
      ensures limit == 0 ==> notes == old(notes) && memo == old(memo)
      ensures limit > 0 ==> notes == NotesAfter(old(notes), old(memo), limit, r)
      ensures limit > 0 ==> MemoAfter(old(notes), old(memo), limit, r, memo)
    {
      if limit == 0 { return; }
      var items := DraftQueue(limit);
      var k, held, successes, stopped, thisTimeout := DraftItems(items, r);
      ghost var before := notes;
      HeldAreItems(old(notes), memo, r, items, k, held, successes, before);
      var trips := memo.trips;
      if !stopped {
        trips := EndBatch(held, successes, r);
      }
      Finished(old(notes), memo, limit, r, items, k, stopped, held, successes, before, notes);
      Remembered(old(notes), memo, limit, r, items, k, stopped, held, successes, before, Memo(thisTimeout, trips));
      memo := Memo(thisTimeout, trips);
    }
  }

  ghost predicate DraftedIn(r: Run, done: seq<nat>) { exists j :: j in done && r.reply(j) == Drafted }

  ghost predicate RejectsIn(m: Memo, r: Run, done: seq<nat>) { exists j :: j in done && Rejects(m, r, j) }

  /** After the notes `done`, going through note `i` ends with a rejected report. */
  ghost predicate CutBy(m: Memo, r: Run, done: seq<nat>, i: nat) {
    if DraftedIn(r, done) then Rejects(m, r, i) else r.reply(i) == Drafted && RejectsIn(m, r, done)
  }

  ghost predicate Passes(m: Memo, r: Run, items: seq<nat>, l: int)
    requires 0 <= l < |items|
  {
    !Stops(m, r, items[l]) && !CutBy(m, r, items[..l], items[l])
  }

  /** The k-th item is where the run stops, having passed the one before. */
  ghost predicate AtStop(m: Memo, r: Run, items: seq<nat>, k: nat)
    requires k < |items|
  {
    Stops(m, r, items[k]) && (k > 0 ==> Passes(m, r, items, k - 1))
  }

  /** The item whose first timeout stopped the run, if one did. */
  ghost function TimeoutAt(m: Memo, r: Run, items: seq<nat>, k: nat): Option<nat> {
    if k < |items| && AtStop(m, r, items, k) && r.reply(items[k]) == TimedOut then Some(items[k]) else None
  }

  /** The run goes through k items and no further: it stops at the next, ends with the last, or is done. */
  ghost predicate GoesOn(m: Memo, r: Run, items: seq<nat>, k: nat, stopped: bool)
    requires k <= |items|
  {
    && (forall l | 0 <= l < k - 1 :: Passes(m, r, items, l))
    && (k > 0 ==> !Stops(m, r, items[k - 1]))
    && if k > 0 && CutBy(m, r, items[..k - 1], items[k - 1]) then stopped
       else if k < |items| then stopped && Stops(m, r, items[k])
       else !stopped
  }

  /** The run passed the first k items, and no report posted so far was rejected. */
  ghost predicate PassesAll(m: Memo, r: Run, items: seq<nat>, k: nat)
    requires k <= |items|
  {
    (forall l | 0 <= l < k :: Passes(m, r, items, l)) && (DraftedIn(r, items[..k]) ==> !RejectsIn(m, r, items[..k]))
  }

  lemma StopsAt(m: Memo, r: Run, items: seq<nat>, k: nat)
    requires k < |items| && PassesAll(m, r, items, k) && Stops(m, r, items[k])
    ensures GoesOn(m, r, items, k, true) && AtStop(m, r, items, k)
  {
    assert k > 0 ==> Passes(m, r, items, k - 1);
  }

  lemma PassedThem(m: Memo, r: Run, items: seq<nat>)
    requires PassesAll(m, r, items, |items|)
    ensures GoesOn(m, r, items, |items|, false)
  {
    assert items != [] ==> Passes(m, r, items, |items| - 1);
  }

  lemma OneMorePassed(m: Memo, r: Run, items: seq<nat>, k: nat, ok: bool)
    requires 0 < k <= |items| && PassesAll(m, r, items, k - 1) && !Stops(m, r, items[k - 1])
    requires ok <==> !CutBy(m, r, items[..k - 1], items[k - 1])
    ensures ok ==> PassesAll(m, r, items, k)
    ensures !ok ==> GoesOn(m, r, items, k, true) && (k < |items| ==> !AtStop(m, r, items, k))
  {
    assert items[..k] == items[..k - 1] + [items[k - 1]];
  }

  /** A due note that is not handed out comes after a full batch. */
  lemma OldestFirst(notes: seq<Note>, limit: nat, items: seq<nat>, n: nat)
    requires n <= |notes| && forall i: nat :: i in items <==> InBatch(notes, limit, i)
    requires forall i | i in items :: i < n
    requires || (n == |notes| && |items| == Rank(notes, n) < BatchSize(limit))
             || (0 < n && |items| == BatchSize(limit) && Rank(notes, n - 1) < BatchSize(limit))
    ensures forall i: nat | i < |notes| && i !in items && Queued(notes[i]) ::
      |items| == BatchSize(limit) && forall j | j in items :: j < i
  {
    forall i: nat | i < |notes| && i !in items && Queued(notes[i])
      ensures |items| == BatchSize(limit) && n <= i
    {
      if i < n {
        RankGrowsTo(notes, i, if |items| < BatchSize(limit) then n else n - 1);
      }
    }
  }

  /** What is asked for, at least one and at most the server's twenty. */
  function Clamped(limit: nat): nat { if limit < 1 then 1 else if limit > 20 then 20 else limit }

  /** `items` is the batch, and the run went through k of it. */
  ghost predicate WentTo(was: seq<Note>, m: Memo, limit: nat, r: Run, items: seq<nat>, k: nat, stopped: bool) {
    && Ascending(items) && k <= |items| && (forall i: nat :: i in items <==> InBatch(was, limit, i))
    && GoesOn(m, r, items, k, stopped)
  }

  /** Once something has succeeded there is nothing left to flush. */
  lemma SoFarHolds(was: seq<Note>, m: Memo, r: Run, done: seq<nat>, held: seq<nat>, successes: nat, before: seq<Note>,
                   after: seq<Note>)
    requires SoFar(was, m, r, done, held, successes, before)
    ensures successes > 0 ==> held == [] && (CountedUpTo(before, after, held, false, r) ==> after == before)
  {
    assert |held| > 0 ==> held[0] in held;
  }

  /** The end of a batch, in terms of what was held. */
  ghost predicate EndsBatch(m: Memo, held: seq<nat>, successes: nat, r: Run, before: seq<Note>, after: seq<Note>) {
    if successes > 0 || |held| < BREAKER_FAILURES then CountedUpTo(before, after, held, false, r)
    else if m.trips + 1 < BREAKER_MAX_TRIPS then after == before
    else CountedUpTo(before, after, held, true, r)
  }

  function TripsOf(m: Memo, held: seq<nat>, successes: nat): nat {
    if successes == 0 && |held| >= BREAKER_FAILURES && m.trips + 1 < BREAKER_MAX_TRIPS then m.trips + 1 else 0
  }

  ghost predicate Ascending(s: seq<nat>) { forall k, l | 0 <= k < l < |s| :: s[k] < s[l] }

  /** Reporting the notes `done` in order, the report on note `i` is made and taken. */
  ghost predicate Through(r: Run, done: seq<nat>, i: nat) {
    i in done && r.report(i) == Taken && forall j | j in done && j < i :: r.report(j) != Rejected
  }

  ghost predicate CountedUpTo(was: seq<Note>, notes: seq<Note>, done: seq<nat>, forGood: bool, r: Run) {
    && |notes| == |was|
    && forall i: nat | i < |was| :: notes[i] == if Through(r, done, i) then Counted(was[i], forGood) else was[i]
  }

  lemma OneMoreThrough(held: seq<nat>, n: nat, r: Run, i: nat)
    requires Ascending(held) && n < |held| && forall j | j in held[..n] :: r.report(j) != Rejected
    ensures Through(r, held[..n + 1], i) <==> Through(r, held[..n], i) || (i == held[n] && r.report(i) == Taken)
    ensures r.report(held[n]) == Rejected ==> (Through(r, held, i) <==> Through(r, held[..n], i))
  {
    assert held[..n + 1] == held[..n] + [held[n]];
    assert forall j | j in held[..n] :: j < held[n];
    forall j | j in held && j !in held[..n + 1]
      ensures j > held[n]
    {
      var l :| 0 <= l < |held| && held[l] == j;
      assert l > n;
    }
  }

  /** One more report of those held, and nothing after it when it is rejected. */
  lemma OneMoreReport(was: seq<Note>, before: seq<Note>, after: seq<Note>, held: seq<nat>, n: nat, forGood: bool, r: Run)
    requires Ascending(held) && n < |held| && held[n] < |was| && CountedUpTo(was, before, held[..n], forGood, r)
    requires forall j | j in held[..n] :: r.report(j) != Rejected
    requires after == if r.report(held[n]) == Taken then before[held[n] := Counted(before[held[n]], forGood)] else before
    ensures CountedUpTo(was, after, held[..n + 1], forGood, r)
    ensures r.report(held[n]) == Rejected ==> CountedUpTo(was, after, held, forGood, r)
  {
    assert held[n] !in held[..n];
    forall i: nat | i < |was|
      ensures after[i] == if Through(r, held[..n + 1], i) then Counted(was[i], forGood) else was[i]
      ensures r.report(held[n]) == Rejected ==> (Through(r, held, i) <==> Through(r, held[..n], i))
    {
      OneMoreThrough(held, n, r, i);
    }
  }

  /** What the loop knows after the notes `done`: once there is a success, nothing is held and every bad note is counted. */
  ghost predicate SoFar(was: seq<Note>, m: Memo, r: Run, done: seq<nat>, held: seq<nat>, successes: nat, notes: seq<Note>) {
    && |notes| == |was| && Ascending(held)
    && (successes > 0 <==> DraftedIn(r, done))
    && (forall i: nat :: i in held <==> successes == 0 && i in done && Bad(m, r, i))
    && (forall i: nat | i < |was| :: notes[i] == NoteSoFar(was, m, r, done, successes, i))
  }

  /** Of the bad results among `done`, the report on note `i` is made and taken. */
  ghost predicate LandsIn(m: Memo, r: Run, done: seq<nat>, i: nat) {
    r.report(i) == Taken && forall j | j in done && j < i :: !Rejects(m, r, j)
  }

  ghost function NoteSoFar(was: seq<Note>, m: Memo, r: Run, done: seq<nat>, successes: nat, i: nat): Note
    requires i < |was|
  {
    if i in done && r.reply(i) == Drafted then WithDraft(was[i])
    else if successes > 0 && i in done && Bad(m, r, i) && LandsIn(m, r, done, i) then Counted(was[i], false)
    else was[i]
  }

  /** `i` comes after every note of `done`. */
  ghost predicate NewIn(done: seq<nat>, i: nat) { forall j | j in done :: j < i }

  predicate HeldLast(held: seq<nat>, i: nat) { held != [] && held[|held| - 1] == i }

  lemma TookBad(was: seq<Note>, m: Memo, r: Run, done: seq<nat>, held: seq<nat>, successes: nat, before: seq<Note>,
                i: nat, after: seq<Note>)
    requires i < |was| && NewIn(done, i) && Bad(m, r, i)
    requires successes > 0 ==> SoFar(was, m, r, done, held, successes, before)
    requires successes > 0 ==> !RejectsIn(m, r, done)
    requires successes == 0 ==> HeldLast(held, i) && SoFar(was, m, r, done, held[..|held| - 1], successes, before)
    requires after == if successes > 0 && r.report(i) == Taken then before[i := Counted(before[i], false)] else before
    ensures SoFar(was, m, r, done + [i], held, successes, after)
  {
    if successes == 0 {
      assert held == held[..|held| - 1] + [i];
      forall p | 0 <= p < |held| - 1
        ensures held[p] < i
      {
        assert held[p] in held[..|held| - 1];
      }
    }
  }

  lemma TookDrafted(was: seq<Note>, m: Memo, r: Run, done: seq<nat>, held: seq<nat>, successes: nat, before: seq<Note>,
                    i: nat, after: seq<Note>)
    requires i < |was| && NewIn(done, i) && r.reply(i) == Drafted
    requires SoFar(was, m, r, done, held, successes, before)
    requires CountedUpTo(before[i := WithDraft(before[i])], after, held, false, r)
    ensures SoFar(was, m, r, done + [i], [], successes + 1, after)
  {
    assert i in done + [i] && i !in held;
    forall j: nat | j in done && Bad(m, r, j)
      ensures successes == 0 ==> (Through(r, held, j) <==> LandsIn(m, r, done + [i], j))
      ensures successes > 0 ==> (LandsIn(m, r, done, j) <==> LandsIn(m, r, done + [i], j))
    {
      assert forall l: nat | l < j :: l in done + [i] <==> l in done;
    }
  }

  lemma TookNothing(was: seq<Note>, m: Memo, r: Run, done: seq<nat>, held: seq<nat>, successes: nat, notes: seq<Note>, i: nat)
    requires !Bad(m, r, i) && r.reply(i) != Drafted && SoFar(was, m, r, done, held, successes, notes)
    ensures SoFar(was, m, r, done + [i], held, successes, notes)
  {
  }

  /** Seen from an item of the batch, what is before it in the loop is what is before it in the rules. */
  lemma BeforeAnItem(was: seq<Note>, m: Memo, limit: nat, r: Run, items: seq<nat>, l: nat)
    requires Ascending(items) && l < |items| && forall i: nat :: i in items <==> InBatch(was, limit, i)
    ensures forall j: nat :: j in items[..l] <==> j < items[l] && InBatch(was, limit, j)
    ensures DraftedIn(r, items[..l]) <==> DraftedBefore(was, limit, r, items[l])
    ensures RejectsIn(m, r, items[..l]) <==> RejectsBefore(was, m, limit, r, items[l])
    ensures CutBy(m, r, items[..l], items[l]) <==> EndsWith(was, m, limit, r, items[l])
  {
    assert items[l] in items;
    forall j: nat
      ensures j in items[..l] <==> j < items[l] && InBatch(was, limit, j)
    {
      if j in items[..l] {
        var p :| 0 <= p < l && items[p] == j;
        assert j in items;
      }
    }
  }

  /** What the rules say of an item, in terms of the loop. */
  lemma CameToItem(was: seq<Note>, m: Memo, limit: nat, r: Run, items: seq<nat>, k: nat, stopped: bool, l: nat)
    requires WentTo(was, m, limit, r, items, k, stopped) && l < |items|
    ensures CameTo(was, m, limit, r, items[l]) <==> l < k || (l == k && (k > 0 ==> Passes(m, r, items, k - 1)))
  {
    assert items[l] in items;
    forall p: nat | p < |items|
      ensures items[p] in items && InBatch(was, limit, items[p])
      ensures Passes(m, r, items, p) <==> !StopsHere(was, m, limit, r, items[p]) && !EndsWith(was, m, limit, r, items[p])
    {
      BeforeAnItem(was, m, limit, r, items, p);
    }
    if l < k || (l == k && (k > 0 ==> Passes(m, r, items, k - 1))) {
      forall j: nat | j < items[l]
        ensures !StopsHere(was, m, limit, r, j) && !EndsWith(was, m, limit, r, j)
      {
        if InBatch(was, limit, j) {
          var p :| 0 <= p < |items| && items[p] == j;
          assert p < l && Passes(m, r, items, p);
        }
      }
    } else if l > k {
      assert !Passes(m, r, items, k) || !Passes(m, r, items, k - 1);
    } else {
      assert !Passes(m, r, items, k - 1);
    }
  }

  /** The notes gone through are the ones the rules say were reached. */
  lemma ReachedAre(was: seq<Note>, m: Memo, limit: nat, r: Run, items: seq<nat>, k: nat, stopped: bool, i: nat)
    requires WentTo(was, m, limit, r, items, k, stopped)
    ensures Reached(was, m, limit, r, i) <==> i in items[..k]
  {
    if InBatch(was, limit, i) {
      var l :| 0 <= l < |items| && items[l] == i;
      CameToItem(was, m, limit, r, items, k, stopped, l);
      assert l < k ==> items[..k][l] == i && (l < k - 1 ==> Passes(m, r, items, l));
      assert forall p | 0 <= p < k :: items[..k][p] == items[p];
    }
  }

  lemma StoppedIs(was: seq<Note>, m: Memo, limit: nat, r: Run, items: seq<nat>, k: nat, stopped: bool)
    requires WentTo(was, m, limit, r, items, k, stopped)
    ensures Stopped(was, m, limit, r) <==> stopped
  {
    if stopped {
      var l := if k > 0 && CutBy(m, r, items[..k - 1], items[k - 1]) then k - 1 else k;
      assert items[l] in items;
      BeforeAnItem(was, m, limit, r, items, l);
    } else if i: nat :| StopsHere(was, m, limit, r, i) || EndsWith(was, m, limit, r, i) {
      var l :| 0 <= l < |items| && items[l] == i;
      assert l < k - 1 ==> Passes(m, r, items, l);
      BeforeAnItem(was, m, limit, r, items, l);
    }
  }

  lemma TimedOutIs(was: seq<Note>, m: Memo, limit: nat, r: Run, items: seq<nat>, k: nat, stopped: bool, i: nat)
    requires WentTo(was, m, limit, r, items, k, stopped)
    ensures TimedOutAt(was, m, limit, r, i) <==> TimeoutAt(m, r, items, k) == Some(i)
  {
    if TimedOutAt(was, m, limit, r, i) {
      var l :| 0 <= l < |items| && items[l] == i;
      CameToItem(was, m, limit, r, items, k, stopped, l);
      assert l < k - 1 ==> Passes(m, r, items, l);
    }
    if TimeoutAt(m, r, items, k) == Some(i) {
      CameToItem(was, m, limit, r, items, k, stopped, k);
    }
  }

  lemma Outcome(was: seq<Note>, m: Memo, limit: nat, r: Run, items: seq<nat>, k: nat, stopped: bool)
    requires WentTo(was, m, limit, r, items, k, stopped)
    ensures forall i: nat :: Reached(was, m, limit, r, i) <==> i in items[..k]
    ensures Stopped(was, m, limit, r) <==> stopped
    ensures forall i: nat :: TimedOutAt(was, m, limit, r, i) <==> TimeoutAt(m, r, items, k) == Some(i)
  {
    StoppedIs(was, m, limit, r, items, k, stopped);
    forall i: nat
      ensures Reached(was, m, limit, r, i) <==> i in items[..k]
      ensures TimedOutAt(was, m, limit, r, i) <==> TimeoutAt(m, r, items, k) == Some(i)
    {
      ReachedAre(was, m, limit, r, items, k, stopped, i);
      TimedOutIs(was, m, limit, r, items, k, stopped, i);
    }
  }

  /** What the loop counted decides the fate of the bad notes as the rules do. */
  lemma FateIs(was: seq<Note>, m: Memo, limit: nat, r: Run, items: seq<nat>, k: nat, held: seq<nat>, successes: nat,
               notes: seq<Note>)
    requires k <= |items| && SoFar(was, m, r, items[..k], held, successes, notes)
    requires forall i: nat :: Reached(was, m, limit, r, i) <==> i in items[..k]
    ensures AnySuccess(was, m, limit, r) <==> successes > 0
    ensures successes == 0 ==> (TwoBad(was, m, limit, r) <==> |held| >= BREAKER_FAILURES)
    ensures forall i: nat :: BadNow(was, m, limit, r, i) <==> i in items[..k] && Bad(m, r, i)
    ensures forall i: nat :: DraftedNow(was, m, limit, r, i) <==> i in items[..k] && r.reply(i) == Drafted
  {
    if successes > 0 {
      var i :| i in items[..k] && r.reply(i) == Drafted;
      assert DraftedNow(was, m, limit, r, i);
    } else {
      if |held| >= 2 {
        assert held[0] in held && held[1] in held;
        assert BadNow(was, m, limit, r, held[0]) && BadNow(was, m, limit, r, held[1]);
      }
      if TwoBad(was, m, limit, r) {
        var i: nat, j: nat :| i < j && BadNow(was, m, limit, r, i) && BadNow(was, m, limit, r, j);
        assert i in held && j in held;
      }
    }
  }

  lemma HeldAreItems(was: seq<Note>, m: Memo, r: Run, items: seq<nat>, k: nat, held: seq<nat>, successes: nat, notes: seq<Note>)
    requires k <= |items| && SoFar(was, m, r, items[..k], held, successes, notes)
    ensures Ascending(held) && forall i | i in held :: i in items
  {
    forall i | i in held
      ensures i in items
    {
      assert i in items[..k];
    }
  }

  /** What the loop says of the report on a bad note is what the rules say. */
  lemma LandsIs(was: seq<Note>, m: Memo, limit: nat, r: Run, items: seq<nat>, k: nat, held: seq<nat>, i: nat)
    requires Ascending(items) && k <= |items| && (forall j: nat :: j in items <==> InBatch(was, limit, j))
    requires i in items[..k]
    ensures LandsIn(m, r, items[..k], i) <==> Lands(was, m, limit, r, i)
    ensures (forall j: nat :: j in held <==> j in items[..k] && Bad(m, r, j))
        ==> (Through(r, held, i) <==> Bad(m, r, i) && Lands(was, m, limit, r, i))
  {
    var l :| 0 <= l < k && items[l] == i;
    BeforeAnItem(was, m, limit, r, items, l);
    forall j: nat | j < i
      ensures j in items[..k] <==> InBatch(was, limit, j)
    {
      if j in items[..l] {
        var p :| 0 <= p < l && items[p] == j;
        assert items[..k][p] == j;
      }
    }
  }

  /** One note at the end of the run, from what the loop and the end of the batch did to it. */
  lemma OneNoteFinished(was: seq<Note>, m: Memo, limit: nat, r: Run, i: nat, done: bool, successes: nat, before: Note, after: Note)
    requires i < |was| && (successes > 0 ==> FateOf(was, m, limit, r) == OneAttempt)
    requires DraftedNow(was, m, limit, r, i) <==> done && r.reply(i) == Drafted
    requires BadNow(was, m, limit, r, i) <==> done && Bad(m, r, i)
    requires before == if done && r.reply(i) == Drafted then WithDraft(was[i])
                       else if successes > 0 && done && Bad(m, r, i) && Lands(was, m, limit, r, i) then Counted(was[i], false)
                       else was[i]
    requires var fate := FateOf(was, m, limit, r);
      after == if successes == 0 && done && Bad(m, r, i) && Lands(was, m, limit, r, i) && fate != Spared
               then Counted(before, fate == AllAttempts) else before
    ensures after == NoteAfter(was, m, limit, r, i)
  {
  }

  /** What the end of the batch did, in terms of the fate the rules decide. */
  lemma EndedByFate(m: Memo, held: seq<nat>, successes: nat, r: Run, before: seq<Note>, after: seq<Note>, stopped: bool, fate: Fate)
    requires if stopped then after == before else EndsBatch(m, held, successes, r, before, after)
    requires successes > 0 ==> held == [] && |after| == |before|
    requires fate == if successes > 0 then OneAttempt else if stopped then Spared
                     else if |held| < BREAKER_FAILURES then OneAttempt
                     else if m.trips + 1 >= BREAKER_MAX_TRIPS then AllAttempts else Spared
    ensures |after| == |before|
    ensures forall i: nat | i < |before| ::
      after[i] == if Through(r, held, i) && fate != Spared then Counted(before[i], fate == AllAttempts) else before[i]
  {
  }

  lemma FinishedAt(was: seq<Note>, m: Memo, limit: nat, r: Run, items: seq<nat>, k: nat, stopped: bool, held: seq<nat>,
                   successes: nat, before: seq<Note>, i: nat, after: Note)
    requires WentTo(was, m, limit, r, items, k, stopped) && SoFar(was, m, r, items[..k], held, successes, before)
    requires i < |was| && (successes > 0 ==> FateOf(was, m, limit, r) == OneAttempt)
    requires DraftedNow(was, m, limit, r, i) <==> i in items[..k] && r.reply(i) == Drafted
    requires BadNow(was, m, limit, r, i) <==> i in items[..k] && Bad(m, r, i)
    requires var fate := FateOf(was, m, limit, r);
      after == if Through(r, held, i) && fate != Spared then Counted(before[i], fate == AllAttempts) else before[i]
    ensures after == NoteAfter(was, m, limit, r, i)
  {
    assert before[i] == NoteSoFar(was, m, r, items[..k], successes, i);
    if i in items[..k] {
      LandsIs(was, m, limit, r, items, k, held, i);
    }
    OneNoteFinished(was, m, limit, r, i, i in items[..k], successes, before[i], after);
  }

  lemma Finished(was: seq<Note>, m: Memo, limit: nat, r: Run, items: seq<nat>, k: nat, stopped: bool, held: seq<nat>,
                 successes: nat, before: seq<Note>, after: seq<Note>)
    requires WentTo(was, m, limit, r, items, k, stopped) && SoFar(was, m, r, items[..k], held, successes, before)
    requires if stopped then after == before else EndsBatch(m, held, successes, r, before, after)
    ensures after == NotesAfter(was, m, limit, r)
  {
    Outcome(was, m, limit, r, items, k, stopped);
    FateIs(was, m, limit, r, items, k, held, successes, before);
    SoFarHolds(was, m, r, items[..k], held, successes, before, after);
    EndedByFate(m, held, successes, r, before, after, stopped, FateOf(was, m, limit, r));
    forall i: nat | i < |was|
      ensures after[i] == NoteAfter(was, m, limit, r, i)
    {
      FinishedAt(was, m, limit, r, items, k, stopped, held, successes, before, i, after[i]);
    }
  }

  lemma Remembered(was: seq<Note>, m: Memo, limit: nat, r: Run, items: seq<nat>, k: nat, stopped: bool, held: seq<nat>,
                   successes: nat, before: seq<Note>, after: Memo)
    requires WentTo(was, m, limit, r, items, k, stopped) && SoFar(was, m, r, items[..k], held, successes, before)
    requires after.timedOut == TimeoutAt(m, r, items, k)
    requires after.trips == if stopped then m.trips else TripsOf(m, held, successes)
    ensures MemoAfter(was, m, limit, r, after)
  {
    Outcome(was, m, limit, r, items, k, stopped);
    FateIs(was, m, limit, r, items, k, held, successes, before);
  }

  lemma {:induction false} RankGrows(notes: seq<Note>, i: nat)
    requires i <= |notes|
    ensures forall j: nat | i <= j <= |notes| :: Rank(notes, j) >= Rank(notes, i)
  {
    forall j: nat | i <= j <= |notes|
      ensures Rank(notes, j) >= Rank(notes, i)
    {
      RankGrowsTo(notes, i, j);
    }
  }

  lemma {:induction false} RankGrowsTo(notes: seq<Note>, i: nat, j: nat)
    requires i <= j <= |notes|
    ensures Rank(notes, i) <= Rank(notes, j)
    decreases j
  {
    if i < j {
      RankGrowsTo(notes, i, j - 1);
    }
  }
}
