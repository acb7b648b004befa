/**
 The breaker over runs: no note that can never be drafted blocks the queue, and one that
 is only unlucky is not thrown away for a fault that is not its own.
 */
module DraftingDrain {
  import opened Wrappers
  import opened DraftingRules

  datatype State = State(notes: seq<Note>, memo: Memo)

  ghost function NextMemo(notes: seq<Note>, m: Memo, limit: nat, r: Run): Memo {
    if exists i: nat :: TimedOutAt(notes, m, limit, r, i)
    then var i: nat :| TimedOutAt(notes, m, limit, r, i); Memo(Some(i), TripsAfter(notes, m, limit, r))
    else Memo(None, TripsAfter(notes, m, limit, r))
  }

  /** What a run remembers is fixed by the rules. */
  lemma MemoIsFixed(notes: seq<Note>, m: Memo, limit: nat, r: Run, after: Memo)
    requires MemoAfter(notes, m, limit, r, after)
    ensures after == NextMemo(notes, m, limit, r)
  {
    if i: nat :| TimedOutAt(notes, m, limit, r, i) {
      assert after.timedOut == Some(i);
    } else {
      assert forall i: nat :: after.timedOut != Some(i);
    }
  }

  ghost function Next(s: State, limit: nat, r: Run): State {
    State(NotesAfter(s.notes, s.memo, limit, r), NextMemo(s.notes, s.memo, limit, r))
  }

  /**
   A run, and what came before it: notes already there, wherever they stand in the order
   of creation, that were transcribed or rewritten only now and are due again, and notes
   that were created since.
   */
  datatype Day = Day(due: set<nat>, created: nat, run: Run)

  const FRESH := Note(0, Pending, false)

  function Untried(n: nat): seq<Note> { seq(n, _ => FRESH) }

  function WithArrivals(s: State, d: Day): State {
    s.(notes := seq(|s.notes| + d.created, i requires 0 <= i < |s.notes| + d.created =>
                      if i < |s.notes| && i !in d.due then s.notes[i] else FRESH))
  }

  ghost function NextDay(s: State, limit: nat, d: Day): State { Next(WithArrivals(s, d), limit, d.run) }

  ghost function AfterDays(s: State, limit: nat, days: seq<Day>): State
    decreases |days|
  {
    if days == [] then s else AfterDays(NextDay(s, limit, days[0]), limit, days[1..])
  }

  // ---- What one run burns ----

  /** The run is delivered, and neither times out nor fails as a whole. */
  ghost predicate Plain(r: Run) {
    forall i: nat :: (r.reply(i) == Drafted || r.reply(i) == Unusable) && r.report(i) == Taken
  }

  /** A run in which anything was drafted burns exactly one attempt of each bad note, and nothing else. */
  lemma ASuccessBurnsOneEach(s: State, limit: nat, r: Run, i: nat)
    requires i < |s.notes| && AnySuccess(s.notes, s.memo, limit, r) && (forall j: nat :: r.report(j) == Taken)
    ensures var after := Next(s, limit, r).notes[i];
      && (BadNow(s.notes, s.memo, limit, r, i) ==> after == Counted(s.notes[i], false))
      && (DraftedNow(s.notes, s.memo, limit, r, i) ==> after == WithDraft(s.notes[i]))
      && (!BadNow(s.notes, s.memo, limit, r, i) && !DraftedNow(s.notes, s.memo, limit, r, i) ==> after == s.notes[i])
  {
  }

  /** A run the breaker trips before its third in a row changes no note, whatever its length. */
  lemma ATrippedRunBurnsNothing(s: State, limit: nat, r: Run)
    requires TripsNow(s.notes, s.memo, limit, r) && s.memo.trips + 1 < BREAKER_MAX_TRIPS
    ensures Next(s, limit, r).notes == s.notes && Next(s, limit, r).memo.trips == s.memo.trips + 1
  {
  }

  /** A run that stops burns nothing either, unless something had been drafted before it did. */
  lemma AStoppedRunBurnsNothing(s: State, limit: nat, r: Run)
    requires Stopped(s.notes, s.memo, limit, r) && !AnySuccess(s.notes, s.memo, limit, r)
    ensures Next(s, limit, r).notes == s.notes && Next(s, limit, r).memo.trips == s.memo.trips
  {
  }

  /**
   Once a report is rejected no later bad note is counted, and at most one later note is
   drafted: the first of the run, whose success sent the held reports.
   */
  lemma ARejectedReportEndsTheRun(s: State, limit: nat, r: Run, j: nat, i: nat)
    requires j < i < |s.notes| && BadNow(s.notes, s.memo, limit, r, j) && r.report(j) == Rejected
    ensures Next(s, limit, r).notes[i] == s.notes[i] || DraftedNow(s.notes, s.memo, limit, r, i)
    ensures DraftedNow(s.notes, s.memo, limit, r, i) ==>
      forall other: nat :: DraftedNow(s.notes, s.memo, limit, r, other) ==> other == i
  {
    if DraftedNow(s.notes, s.memo, limit, r, i) {
      assert !EndsWith(s.notes, s.memo, limit, r, j);
      forall other: nat | DraftedNow(s.notes, s.memo, limit, r, other)
        ensures other == i
      {
        var first := FirstDrafted(s.notes, limit, r, if other < i then other else i);
        assert first > j;
        assert RejectsBefore(s.notes, s.memo, limit, r, first);
        assert EndsWith(s.notes, s.memo, limit, r, first);
      }
    }
  }

  /** The oldest note of the batch to be drafted. */
  lemma {:induction false} FirstDrafted(notes: seq<Note>, limit: nat, r: Run, i: nat) returns (first: nat)
    requires InBatch(notes, limit, i) && r.reply(i) == Drafted
    ensures first <= i && InBatch(notes, limit, first) && r.reply(first) == Drafted && !DraftedBefore(notes, limit, r, first)
  {
    first := i;
    if j: nat :| j < i && InBatch(notes, limit, j) && r.reply(j) == Drafted {
      first := FirstDrafted(notes, limit, r, j);
    }
  }

  // ---- Places in the queue ----

  /** Nothing joins the queue: what is queued after was queued before. */
  ghost predicate OnlyLeft(before: seq<Note>, after: seq<Note>) {
    |after| >= |before| && forall i: nat | i < |before| && Queued(after[i]) :: Queued(before[i])
  }

  /** When the first `gone` of a queue have left, every place is that much nearer the front. */
  lemma {:induction false} PlacesMoveUp(before: seq<Note>, after: seq<Note>, gone: nat, i: nat)
    requires OnlyLeft(before, after) && i <= |before|
    requires forall j: nat | j < i && Queued(before[j]) && Rank(before, j) < gone :: !Queued(after[j])
    ensures Rank(after, i) <= Rank(before, i)
    ensures Rank(after, i) + gone <= Rank(before, i) || Rank(after, i) == 0
  {
    if i > 0 {
      PlacesMoveUp(before, after, gone, i - 1);
    }
  }

  /** Nothing becomes due ahead of a note that is there already: what arrives is new, and joins the tail. */
  ghost predicate TailOnly(days: seq<Day>) { forall d | d in days :: d.due == {} }

  lemma DaysOnlyRemove(s: State, limit: nat, d: Day)
    requires d.due == {}
    ensures OnlyLeft(s.notes, NextDay(s, limit, d).notes)
  {
  }

  lemma {:induction false} DaysOnlyRemoveOverTime(s: State, limit: nat, days: seq<Day>)
    requires TailOnly(days)
    ensures OnlyLeft(s.notes, AfterDays(s, limit, days).notes)
    decreases |days|
  {
    if days != [] {
      DaysOnlyRemove(s, limit, days[0]);
      DaysOnlyRemoveOverTime(NextDay(s, limit, days[0]), limit, days[1..]);
    }
  }

  lemma {:induction false} ArrivalsJoinTheTail(s: State, d: Day, i: nat)
    requires i <= |s.notes| && d.due == {}
    ensures Rank(WithArrivals(s, d).notes, i) == Rank(s.notes, i)
  {
    if i > 0 {
      ArrivalsJoinTheTail(s, d, i - 1);
    }
  }

  // ---- A plain run ----

  /** In a plain run every note of the batch is reached. */
  lemma PlainReachesAll(s: State, limit: nat, r: Run)
    requires Plain(r)
    ensures !Stopped(s.notes, s.memo, limit, r)
    ensures forall i: nat :: InBatch(s.notes, limit, i) <==> Reached(s.notes, s.memo, limit, r, i)
    ensures forall i: nat :: BadNow(s.notes, s.memo, limit, r, i) <==> InBatch(s.notes, limit, i) && r.reply(i) == Unusable
    ensures NextMemo(s.notes, s.memo, limit, r).trips == TripsAfter(s.notes, s.memo, limit, r)
  {
    forall i: nat
      ensures !StopsHere(s.notes, s.memo, limit, r, i) && !EndsWith(s.notes, s.memo, limit, r, i)
    {
      assert r.reply(i) == Drafted || r.reply(i) == Unusable;
    }
  }

  /** Runs a note of the batch can still wait for: three for each attempt it has left, less the trips so far. */
  function Patience(n: Note, trips: nat): int { 3 * (DRAFT_MAX_ATTEMPTS - n.attempts) - trips }

  /** Settled, or one nearer to that and still in the batch. */
  ghost predicate Nearer(before: State, after: State, limit: nat, i: nat)
    requires i < |before.notes| && i < |after.notes|
  {
    Queued(after.notes[i]) ==>
      InBatch(after.notes, limit, i)
      && Patience(after.notes[i], after.memo.trips) < Patience(before.notes[i], before.memo.trips)
  }

  lemma PlainRunMakesProgress(s: State, limit: nat, r: Run, i: nat)
    requires Plain(r) && InBatch(s.notes, limit, i) && s.memo.trips < BREAKER_MAX_TRIPS
    ensures Next(s, limit, r).memo.trips < BREAKER_MAX_TRIPS && Nearer(s, Next(s, limit, r), limit, i)
  {
    var next := Next(s, limit, r);
    PlainReachesAll(s, limit, r);
    PlacesMoveUp(s.notes, next.notes, 0, i);
    assert r.reply(i) == Drafted || r.reply(i) == Unusable;
    assert r.reply(i) == Drafted ==> DraftedNow(s.notes, s.memo, limit, r, i);
  }

  ghost predicate PlainDays(days: seq<Day>) { forall d | d in days :: Plain(d.run) }

  /** Patience is never above nine, and runs out. */
  lemma {:induction false} PlainDaysSettleTheBatch(s: State, limit: nat, days: seq<Day>, i: nat)
    requires PlainDays(days) && TailOnly(days) && InBatch(s.notes, limit, i) && s.memo.trips < BREAKER_MAX_TRIPS
    requires |days| >= Patience(s.notes[i], s.memo.trips)
    ensures i < |AfterDays(s, limit, days).notes| && !Queued(AfterDays(s, limit, days).notes[i])
    decreases |days|
  {
    var d, rest, next := days[0], days[1..], NextDay(s, limit, days[0]);
    ArrivalsJoinTheTail(s, d, i);
    PlainRunMakesProgress(WithArrivals(s, d), limit, d.run, i);
    if Queued(next.notes[i]) {
      PlainDaysSettleTheBatch(next, limit, rest, i);
    } else {
      DaysOnlyRemoveOverTime(next, limit, rest);
    }
  }

  /** Nine plain runs settle a whole batch, so whoever is behind it moves up by its size. */
  lemma NineRunsClearABatch(s: State, limit: nat, days: seq<Day>, i: nat)
    requires PlainDays(days) && TailOnly(days) && |days| >= 9 && s.memo.trips < BREAKER_MAX_TRIPS
    requires i < |s.notes| && Queued(s.notes[i])
    ensures var cleared := AfterDays(s, limit, days);
      && i < |cleared.notes|
      && (Queued(cleared.notes[i]) ==> Rank(cleared.notes, i) + BatchSize(limit) <= Rank(s.notes, i))
  {
    var cleared := AfterDays(s, limit, days);
    DaysOnlyRemoveOverTime(s, limit, days);
    forall j: nat | InBatch(s.notes, limit, j)
      ensures j < |cleared.notes| && !Queued(cleared.notes[j])
    {
      PlainDaysSettleTheBatch(s, limit, days, j);
    }
    PlacesMoveUp(s.notes, cleared.notes, BatchSize(limit), i);
  }

  /**
   A note is drafted or failed after nine plain runs for every batch up to and including
   its own, whatever the notes around it are, when what arrives is new.
   */
  lemma {:induction false} SettledByItsBatch(s: State, limit: nat, days: seq<Day>, batches: nat, i: nat)
    requires PlainDays(days) && TailOnly(days) && |days| >= 9 * batches && s.memo.trips < BREAKER_MAX_TRIPS
    requires i < |s.notes| && Queued(s.notes[i]) && Rank(s.notes, i) < batches * BatchSize(limit)
    ensures i < |AfterDays(s, limit, days).notes| && !Queued(AfterDays(s, limit, days).notes[i])
    decreases batches
  {
    assert batches > 0;
    var first, rest := days[..9], days[9..];
    var cleared := AfterDays(s, limit, first);
    assert days == first + rest;
    DaysInTwoParts(s, limit, first, rest);
    TripsStayLow(s, limit, first);
    NineRunsClearABatch(s, limit, first, i);
    if Queued(cleared.notes[i]) {
      OneMoreTimes(batches - 1, BatchSize(limit));
      SettledByItsBatch(cleared, limit, rest, batches - 1, i);
    } else {
      DaysOnlyRemoveOverTime(cleared, limit, rest);
    }
  }

  /** The head of the queue is settled within nine plain runs: a bad note cannot block it. */
  lemma TheHeadIsSettledInNineRuns(s: State, limit: nat, days: seq<Day>, i: nat)
    requires PlainDays(days) && TailOnly(days) && InBatch(s.notes, limit, i) && s.memo.trips < BREAKER_MAX_TRIPS
    requires |days| >= 9
    ensures i < |AfterDays(s, limit, days).notes| && !Queued(AfterDays(s, limit, days).notes[i])
  {
    PlainDaysSettleTheBatch(s, limit, days, i);
  }

  // ---- When older notes become due ----

  /** The runs a note can still cost the queue. */
  function Cost(n: Note): nat { if Queued(n) then 3 * (DRAFT_MAX_ATTEMPTS - n.attempts) else 0 }

  /** What the notes before `n` can still cost it. */
  function CostUpTo(notes: seq<Note>, n: nat): nat
    requires n <= |notes|
  {
    if n == 0 then 0 else CostUpTo(notes, n - 1) + Cost(notes[n - 1])
  }

  lemma {:induction false} CostFalls(before: seq<Note>, after: seq<Note>, n: nat, head: nat, drop: nat)
    requires n <= |before| && n <= |after| && head <= n && forall j | 0 <= j < n :: Cost(after[j]) <= Cost(before[j])
    requires head < n ==> Cost(after[head]) + drop <= Cost(before[head])
    ensures CostUpTo(after, n) <= CostUpTo(before, n)
    ensures head < n ==> CostUpTo(after, n) + drop <= CostUpTo(before, n)
  {
    if n > 0 {
      CostFalls(before, after, n - 1, if head < n then head else n - 1, drop);
      if head < n - 1 {
        CostFalls(before, after, n - 1, head, drop);
      }
    }
  }

  /** The oldest queued note is in every batch. */
  lemma {:induction false} HeadOfTheQueue(notes: seq<Note>, limit: nat, i: nat) returns (head: nat)
    requires i < |notes| && Queued(notes[i])
    ensures head <= i && Queued(notes[head]) && Rank(notes, head) == 0 && InBatch(notes, limit, head)
  {
    if Rank(notes, i) == 0 {
      head := i;
    } else {
      var j := QueuedBefore(notes, i);
      head := HeadOfTheQueue(notes, limit, j);
    }
  }

  lemma {:induction false} QueuedBefore(notes: seq<Note>, i: nat) returns (j: nat)
    requires i <= |notes| && Rank(notes, i) > 0
    ensures j < i && Queued(notes[j])
  {
    j := i - 1;
    if !Queued(notes[j]) {
      j := QueuedBefore(notes, i - 1);
    }
  }

  /** What a queue up to and including note `i` can still cost, less the trips so far. */
  function Work(s: State, i: nat): int
    requires i < |s.notes|
  {
    CostUpTo(s.notes, i + 1) - s.memo.trips
  }

  /** A plain run raises no note's cost, and if it does not trip it lowers the head's. */
  lemma PlainRunCosts(s: State, limit: nat, r: Run, head: nat)
    requires Plain(r) && InBatch(s.notes, limit, head) && s.memo.trips < BREAKER_MAX_TRIPS
    ensures var next := Next(s, limit, r);
      && (forall j: nat | j < |s.notes| :: Cost(next.notes[j]) <= Cost(s.notes[j]))
      && ((next.notes == s.notes && next.memo.trips == s.memo.trips + 1 < BREAKER_MAX_TRIPS)
          || (next.memo.trips == 0 && Cost(next.notes[head]) + 3 <= Cost(s.notes[head])))
  {
    PlainReachesAll(s, limit, r);
    assert r.reply(head) == Drafted || r.reply(head) == Unusable;
    assert r.reply(head) == Drafted ==> DraftedNow(s.notes, s.memo, limit, r, head);
  }

  lemma WorkFalls(before: State, after: State, i: nat, head: nat)
    requires head <= i < |before.notes| == |after.notes| && before.memo.trips < BREAKER_MAX_TRIPS
    requires forall j: nat | j < |before.notes| :: Cost(after.notes[j]) <= Cost(before.notes[j])
    requires || (after.notes == before.notes && after.memo.trips == before.memo.trips + 1)
             || (after.memo.trips == 0 && Cost(after.notes[head]) + 3 <= Cost(before.notes[head]))
    ensures Work(after, i) < Work(before, i)
  {
    CostFalls(before.notes, after.notes, i + 1, head, if after.memo.trips == 0 then 3 else 0);
  }

  lemma PlainRunWorks(s: State, limit: nat, r: Run, i: nat)
    requires Plain(r) && i < |s.notes| && Queued(s.notes[i]) && s.memo.trips < BREAKER_MAX_TRIPS
    ensures Work(Next(s, limit, r), i) < Work(s, i) && Next(s, limit, r).memo.trips < BREAKER_MAX_TRIPS
  {
    var head := HeadOfTheQueue(s.notes, limit, i);
    PlainRunCosts(s, limit, r, head);
    WorkFalls(s, Next(s, limit, r), i, head);
  }

  /** How many notes before `n` became due. */
  function DueBefore(due: set<nat>, n: nat): nat { if n == 0 then 0 else DueBefore(due, n - 1) + if n - 1 in due then 1 else 0 }

  lemma {:induction false} ArrivalsCost(s: State, d: Day, n: nat)
    requires n <= |s.notes|
    ensures CostUpTo(WithArrivals(s, d).notes, n) <= CostUpTo(s.notes, n) + 9 * DueBefore(d.due, n)
  {
    if n > 0 {
      ArrivalsCost(s, d, n - 1);
    }
  }

  /** Over all the days. */
  function DueOver(days: seq<Day>, i: nat): nat { if days == [] then 0 else DueBefore(days[0].due, i + 1) + DueOver(days[1..], i) }

  /** The note is drafted or failed after some day of the run. */
  ghost predicate SettledWithin(s: State, limit: nat, days: seq<Day>, i: nat) {
    exists k | 0 <= k <= |days| :: SettledAfter(s, limit, days, i, k)
  }

  ghost predicate SettledAfter(s: State, limit: nat, days: seq<Day>, i: nat, k: int) {
    && 0 <= k <= |days|
    && i < |AfterDays(s, limit, days[..k]).notes| && !Queued(AfterDays(s, limit, days[..k]).notes[i])
  }

  lemma {:induction false} WorkRunsOut(s: State, limit: nat, days: seq<Day>, i: nat)
    requires PlainDays(days) && i < |s.notes| && s.memo.trips < BREAKER_MAX_TRIPS
    requires |days| >= Work(s, i) + 9 * DueOver(days, i)
    ensures SettledWithin(s, limit, days, i)
    decreases |days|
  {
    if !Queued(s.notes[i]) {
      assert SettledAfter(s, limit, days, i, 0);
    } else {
      var d, rest := days[0], days[1..];
      var came, next := WithArrivals(s, d), NextDay(s, limit, d);
      ArrivalsCost(s, d, i + 1);
      PlainRunWorks(came, limit, d.run, i);
      WorkRunsOut(next, limit, rest, i);
      var k :| 0 <= k <= |rest| && SettledAfter(next, limit, rest, i, k);
      assert days[..k + 1][0] == d && days[..k + 1][1..] == rest[..k];
      assert SettledAfter(s, limit, days, i, k + 1);
    }
  }

  lemma {:induction false} CostOfTheQueue(notes: seq<Note>, n: nat)
    requires n <= |notes|
    ensures CostUpTo(notes, n) <= 9 * Rank(notes, n)
  {
    if n > 0 {
      CostOfTheQueue(notes, n - 1);
    }
  }

  /**
   Older notes transcribed late, or rewritten, become due ahead of the others and can push
   a note out of its batch. Even so it is settled within nine plain runs for each note
   ahead of it, itself included, and for each that becomes due ahead of it or again.
   */
  lemma SettledWhateverBecomesDue(s: State, limit: nat, days: seq<Day>, i: nat)
    requires PlainDays(days) && i < |s.notes| && Queued(s.notes[i]) && s.memo.trips < BREAKER_MAX_TRIPS
    requires |days| >= 9 * (Rank(s.notes, i) + 1 + DueOver(days, i))
    ensures SettledWithin(s, limit, days, i)
  {
    CostOfTheQueue(s.notes, i + 1);
    assert Rank(s.notes, i + 1) == Rank(s.notes, i) + 1;
    assert Work(s, i) <= 9 * (Rank(s.notes, i) + 1);
    WorkRunsOut(s, limit, days, i);
  }

  // ---- A queue of nothing but bad notes ----

  /** Failed for good: no attempt is left. */
  predicate GivenUp(n: Note) { n.status == Failed && n.attempts >= DRAFT_MAX_ATTEMPTS }

  ghost predicate AllBad(r: Run) { forall i: nat :: r.reply(i) == Unusable && r.report(i) == Taken }

  ghost predicate AllBadDays(days: seq<Day>) { forall d | d in days :: AllBad(d.run) && d.due == {} && d.created == 0 }

  lemma NothingArrives(s: State, d: Day)
    requires d.due == {} && d.created == 0
    ensures WithArrivals(s, d) == s
  {
  }

  ghost predicate TwoInBatch(notes: seq<Note>, limit: nat) {
    exists i: nat, j: nat :: i < j && InBatch(notes, limit, i) && InBatch(notes, limit, j)
  }

  /** Runs until the batch is given up: the breaker's, or the attempts of a note on its own. */
  ghost function BatchPatience(s: State, limit: nat, i: nat): int
    requires i < |s.notes|
  {
    if TwoInBatch(s.notes, limit) then BREAKER_MAX_TRIPS - s.memo.trips else DRAFT_MAX_ATTEMPTS - s.notes[i].attempts
  }

  /** An all-bad run fails the note for good, or uses up one of the runs its batch has left. */
  lemma AllBadRunMakesProgress(s: State, limit: nat, r: Run, i: nat)
    requires AllBad(r) && InBatch(s.notes, limit, i) && s.memo.trips < BREAKER_MAX_TRIPS
    ensures var next := Next(s, limit, r);
      && next.memo.trips < BREAKER_MAX_TRIPS
      && (Queued(next.notes[i]) ==>
            InBatch(next.notes, limit, i) && BatchPatience(next, limit, i) < BatchPatience(s, limit, i))
      && (!Queued(next.notes[i]) ==> GivenUp(next.notes[i]))
  {
    var next := Next(s, limit, r);
    PlacesMoveUp(s.notes, next.notes, 0, i);
    if TwoInBatch(s.notes, limit) {
      AllBadCrowd(s, limit, r, i);
    } else {
      AllBadAlone(s, limit, r, i);
      if Queued(next.notes[i]) {
        AloneStaysAlone(s, limit, r, i);
      }
    }
  }

  /** Two bad notes trip the breaker, or are given up together. */
  lemma AllBadCrowd(s: State, limit: nat, r: Run, i: nat)
    requires AllBad(r) && InBatch(s.notes, limit, i) && s.memo.trips < BREAKER_MAX_TRIPS && TwoInBatch(s.notes, limit)
    ensures var next := Next(s, limit, r);
      if s.memo.trips + 1 < BREAKER_MAX_TRIPS then next.notes == s.notes && next.memo.trips == s.memo.trips + 1
      else GivenUp(next.notes[i]) && next.memo.trips == 0
  {
    PlainReachesAll(s, limit, r);
    NoSuccessInAllBad(s, limit, r);
    var j: nat, k: nat :| j < k && InBatch(s.notes, limit, j) && InBatch(s.notes, limit, k);
    assert BadNow(s.notes, s.memo, limit, r, j) && BadNow(s.notes, s.memo, limit, r, k);
  }

  /** A lone bad note uses up an attempt. */
  lemma AllBadAlone(s: State, limit: nat, r: Run, i: nat)
    requires AllBad(r) && InBatch(s.notes, limit, i) && !TwoInBatch(s.notes, limit)
    ensures Next(s, limit, r).notes[i] == Counted(s.notes[i], false) && Next(s, limit, r).memo.trips == 0
  {
    PlainReachesAll(s, limit, r);
    NoSuccessInAllBad(s, limit, r);
  }

  lemma NoSuccessInAllBad(s: State, limit: nat, r: Run)
    requires AllBad(r)
    ensures !AnySuccess(s.notes, s.memo, limit, r)
  {
  }

  /** A note alone in its batch and still queued has the same batch to itself. */
  lemma AloneStaysAlone(s: State, limit: nat, r: Run, i: nat)
    requires AllBad(r) && InBatch(s.notes, limit, i) && !TwoInBatch(s.notes, limit)
    requires Queued(Next(s, limit, r).notes[i])
    ensures !TwoInBatch(Next(s, limit, r).notes, limit)
  {
    var next := Next(s, limit, r);
    PlainReachesAll(s, limit, r);
    NoSuccessInAllBad(s, limit, r);
    forall j: nat | j < |s.notes|
      ensures Queued(next.notes[j]) <==> Queued(s.notes[j])
    {
      assert InBatch(s.notes, limit, j) ==> j == i;
    }
    forall j: nat | j < |s.notes|
      ensures InBatch(next.notes, limit, j) <==> InBatch(s.notes, limit, j)
    {
      PlacesMoveUp(s.notes, next.notes, 0, j);
      PlacesMoveUp(next.notes, s.notes, 0, j);
    }
  }

  lemma {:induction false} AllBadDaysFailTheBatch(s: State, limit: nat, days: seq<Day>, i: nat)
    requires AllBadDays(days) && InBatch(s.notes, limit, i) && s.memo.trips < BREAKER_MAX_TRIPS
    requires |days| >= BatchPatience(s, limit, i)
    ensures i < |AfterDays(s, limit, days).notes| && GivenUp(AfterDays(s, limit, days).notes[i])
    decreases |days|
  {
    var d, rest, next := days[0], days[1..], NextDay(s, limit, days[0]);
    NothingArrives(s, d);
    AllBadRunMakesProgress(s, limit, d.run, i);
    if Queued(next.notes[i]) {
      AllBadDaysFailTheBatch(next, limit, rest, i);
    } else {
      FailedStaysFailed(next, limit, rest, i);
    }
  }

  lemma {:induction false} FailedStaysFailed(s: State, limit: nat, days: seq<Day>, i: nat)
    requires AllBadDays(days) && i < |s.notes| && GivenUp(s.notes[i])
    ensures i < |AfterDays(s, limit, days).notes| && AfterDays(s, limit, days).notes[i] == s.notes[i]
    decreases |days|
  {
    if days != [] {
      FailedStaysFailed(NextDay(s, limit, days[0]), limit, days[1..], i);
    }
  }

  /** Three runs clear the first batch of a queue that is all bad. */
  lemma ThreeRunsFailTheBatch(s: State, limit: nat, days: seq<Day>)
    requires AllBadDays(days) && |days| >= 3 && s.memo.trips < BREAKER_MAX_TRIPS
    ensures forall i: nat | InBatch(s.notes, limit, i) ::
      i < |AfterDays(s, limit, days).notes| && GivenUp(AfterDays(s, limit, days).notes[i])
  {
    forall i: nat | InBatch(s.notes, limit, i)
      ensures i < |AfterDays(s, limit, days).notes| && GivenUp(AfterDays(s, limit, days).notes[i])
    {
      AllBadDaysFailTheBatch(s, limit, days, i);
    }
  }

  lemma {:induction false} TripsStayLow(s: State, limit: nat, days: seq<Day>)
    requires s.memo.trips < BREAKER_MAX_TRIPS
    ensures AfterDays(s, limit, days).memo.trips < BREAKER_MAX_TRIPS
    decreases |days|
  {
    if days != [] {
      TripsStayLow(NextDay(s, limit, days[0]), limit, days[1..]);
    }
  }

  lemma {:induction false} DaysInTwoParts(s: State, limit: nat, first: seq<Day>, rest: seq<Day>)
    ensures AfterDays(s, limit, first + rest) == AfterDays(AfterDays(s, limit, first), limit, rest)
    decreases |first|
  {
    if first == [] {
      assert first + rest == rest;
    } else {
      assert (first + rest)[1..] == first[1..] + rest;
      DaysInTwoParts(NextDay(s, limit, first[0]), limit, first[1..], rest);
    }
  }

  /** With nothing drafted, a queued note stays queued until it fails. */
  lemma {:induction false} StaysQueuedOrFails(s: State, limit: nat, days: seq<Day>, i: nat)
    requires AllBadDays(days) && i < |s.notes| && (Queued(s.notes[i]) || GivenUp(s.notes[i]))
    ensures i < |AfterDays(s, limit, days).notes|
    ensures Queued(AfterDays(s, limit, days).notes[i]) || GivenUp(AfterDays(s, limit, days).notes[i])
    decreases |days|
  {
    if days != [] {
      NothingArrives(s, days[0]);
      NoSuccessInAllBad(s, limit, days[0].run);
      StaysQueuedOrFails(NextDay(s, limit, days[0]), limit, days[1..], i);
    }
  }

  /** Three runs either fail a note or bring it a whole batch nearer the front. */
  lemma OneBatchNearer(s: State, limit: nat, days: seq<Day>, i: nat)
    requires AllBadDays(days) && |days| >= 3 && s.memo.trips < BREAKER_MAX_TRIPS && i < |s.notes| && Queued(s.notes[i])
    ensures var cleared := AfterDays(s, limit, days);
      && i < |cleared.notes|
      && (Queued(cleared.notes[i]) || GivenUp(cleared.notes[i]))
      && (Queued(cleared.notes[i]) ==> Rank(cleared.notes, i) + BatchSize(limit) <= Rank(s.notes, i))
  {
    ThreeRunsFailTheBatch(s, limit, days);
    DaysOnlyRemoveOverTime(s, limit, days);
    StaysQueuedOrFails(s, limit, days, i);
    PlacesMoveUp(s.notes, AfterDays(s, limit, days).notes, BatchSize(limit), i);
  }

  /** In a queue of bad notes a note is failed once three runs have gone by for each batch up to it. */
  lemma {:induction false} FailedAfterItsBatches(s: State, limit: nat, days: seq<Day>, batches: nat, i: nat)
    requires AllBadDays(days) && |days| >= 3 * batches && s.memo.trips < BREAKER_MAX_TRIPS
    requires i < |s.notes| && Queued(s.notes[i]) && Rank(s.notes, i) < batches * BatchSize(limit)
    ensures i < |AfterDays(s, limit, days).notes| && GivenUp(AfterDays(s, limit, days).notes[i])
    decreases batches
  {
    assert batches > 0;
    var first, rest := days[..3], days[3..];
    var cleared := AfterDays(s, limit, first);
    assert days == first + rest;
    DaysInTwoParts(s, limit, first, rest);
    TripsStayLow(s, limit, first);
    OneBatchNearer(s, limit, first, i);
    if Queued(cleared.notes[i]) {
      OneMoreTimes(batches - 1, BatchSize(limit));
      FailedAfterItsBatches(cleared, limit, rest, batches - 1, i);
    } else {
      FailedStaysFailed(cleared, limit, rest, i);
    }
  }

  /** How many batches of `size` a queue of `n` notes makes: n / size, rounded up. */
  function Batches(n: nat, size: nat): nat
    requires size > 0
  {
    if n == 0 then 0 else if n <= size then 1 else Batches(n - size, size) + 1
  }

  lemma {:induction false} BatchesHoldAll(n: nat, size: nat)
    requires size > 0
    ensures n <= Batches(n, size) * size
  {
    if n > size {
      BatchesHoldAll(n - size, size);
      OneMoreTimes(Batches(n - size, size), size);
    }
  }

  lemma OneMoreTimes(k: nat, size: nat)
    ensures (k + 1) * size == k * size + size
  {
  }

  /**
   THE DRAIN. n notes that can never be drafted have all left the queue as failed after
   three runs for each batch of them, where the server's cap bounds the batch.
   */
  lemma BadNotesDrain(s: State, limit: nat, days: seq<Day>)
    requires AllBadDays(days) && s.memo.trips < BREAKER_MAX_TRIPS
    requires |days| >= 3 * Batches(Rank(s.notes, |s.notes|), BatchSize(limit))
    ensures forall i: nat | i < |s.notes| && Queued(s.notes[i]) ::
      i < |AfterDays(s, limit, days).notes| && GivenUp(AfterDays(s, limit, days).notes[i])
  {
    var batches := Batches(Rank(s.notes, |s.notes|), BatchSize(limit));
    BatchesHoldAll(Rank(s.notes, |s.notes|), BatchSize(limit));
    forall i: nat | i < |s.notes| && Queued(s.notes[i])
      ensures i < |AfterDays(s, limit, days).notes| && GivenUp(AfterDays(s, limit, days).notes[i])
    {
      RankBelow(s.notes, i);
      FailedAfterItsBatches(s, limit, days, batches, i);
    }
  }

  lemma {:induction false} RankBelow(notes: seq<Note>, i: nat)
    requires i < |notes| && Queued(notes[i])
    ensures Rank(notes, i) < Rank(notes, |notes|)
  {
    RankUpTo(notes, i, |notes|);
  }

  lemma {:induction false} RankUpTo(notes: seq<Note>, i: nat, j: nat)
    requires i < j <= |notes| && Queued(notes[i])
    ensures Rank(notes, i) < Rank(notes, j)
    decreases j
  {
    if i < j - 1 {
      RankUpTo(notes, i, j - 1);
    }
  }

  // ---- The limit the bound holds for ----

  /** Up to the server's cap the batch is what the worker asks for, so the bound reads 3 * ceil(n / limit). */
  lemma BadNotesDrainByTheLimit(s: State, limit: nat, days: seq<Day>)
    requires 1 <= limit <= DRAFT_QUEUE_MAX && AllBadDays(days) && s.memo.trips < BREAKER_MAX_TRIPS
    requires |days| >= 3 * Batches(Rank(s.notes, |s.notes|), limit)
    ensures forall i: nat | i < |s.notes| && Queued(s.notes[i]) ::
      i < |AfterDays(s, limit, days).notes| && GivenUp(AfterDays(s, limit, days).notes[i])
  {
    BadNotesDrain(s, limit, days);
  }

  lemma {:induction false} FreshRank(n: nat, i: nat)
    requires i <= n
    ensures Rank(Untried(n), i) == i
  {
    if i > 0 {
      FreshRank(n, i - 1);
    }
  }

  lemma AllBadRunOfMany(s: State, limit: nat, r: Run)
    requires AllBad(r) && limit > DRAFT_QUEUE_MAX && s.notes == Untried(limit)
    ensures TripsNow(s.notes, s.memo, limit, r)
    ensures Next(s, limit, r).notes[DRAFT_QUEUE_MAX] == FRESH
  {
    PlainReachesAll(s, limit, r);
    NoSuccessInAllBad(s, limit, r);
    FreshRank(limit, 0);
    FreshRank(limit, 1);
    FreshRank(limit, DRAFT_QUEUE_MAX);
    assert BadNow(s.notes, s.memo, limit, r, 0) && BadNow(s.notes, s.memo, limit, r, 1);
  }

  lemma ThreeDays(s: State, limit: nat, d: Day)
    ensures AfterDays(s, limit, [d, d, d]) == NextDay(NextDay(NextDay(s, limit, d), limit, d), limit, d)
  {
    assert [d, d, d][1..] == [d, d] && [d, d][1..] == [d] && [d][1..] == [];
    assert AfterDays(NextDay(s, limit, d), limit, [d, d]) == AfterDays(NextDay(NextDay(s, limit, d), limit, d), limit, [d]);
  }

  lemma TwoTripsChangeNothing(s: State, limit: nat, r: Run)
    requires limit > DRAFT_QUEUE_MAX && AllBad(r) && s == State(Untried(limit), Memo(None, 0))
    ensures NextDay(NextDay(s, limit, Day({}, 0, r)), limit, Day({}, 0, r)).notes == s.notes
  {
    var one := NextDay(s, limit, Day({}, 0, r));
    NothingArrives(s, Day({}, 0, r));
    AllBadRunOfMany(s, limit, r);
    ATrippedRunBurnsNothing(s, limit, r);
    NothingArrives(one, Day({}, 0, r));
    AllBadRunOfMany(one, limit, r);
    ATrippedRunBurnsNothing(one, limit, r);
  }

  lemma TheThirdRunSparesTheRest(s: State, limit: nat, r: Run)
    requires AllBad(r) && limit > DRAFT_QUEUE_MAX && s.notes == Untried(limit)
    ensures |NextDay(s, limit, Day({}, 0, r)).notes| == limit && Queued(NextDay(s, limit, Day({}, 0, r)).notes[DRAFT_QUEUE_MAX])
  {
    NothingArrives(s, Day({}, 0, r));
    AllBadRunOfMany(s, limit, r);
  }

  /**
   For every larger limit the bound in the worker's own terms fails: of `limit` bad
   notes, one batch as the worker counts, three runs leave the twenty-first untouched.
   */
  lemma AboveTheCapThreeRunsAreNotEnough(limit: nat, r: Run)
    requires limit > DRAFT_QUEUE_MAX && AllBad(r)
    ensures Batches(limit, limit) == 1
    ensures var end := AfterDays(State(Untried(limit), Memo(None, 0)), limit, [Day({}, 0, r), Day({}, 0, r), Day({}, 0, r)]);
      |end.notes| == limit && Queued(end.notes[DRAFT_QUEUE_MAX])
  {
    var s, d := State(Untried(limit), Memo(None, 0)), Day({}, 0, r);
    TwoTripsChangeNothing(s, limit, r);
    TheThirdRunSparesTheRest(NextDay(NextDay(s, limit, d), limit, d), limit, r);
    ThreeDays(s, limit, d);
  }
}
