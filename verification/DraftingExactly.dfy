/**
 What one drafting run does to each note, said of its replies alone: which notes are due,
 what a stop leaves, what two timeouts in a row come to, and what a finished batch counts.
 */
module DraftingExactly {
  import opened Wrappers
  import opened DraftingRules
  import opened DraftingDrain

  /** A failure, or a result nobody took: the note is not drafted and the run goes on. */
  predicate NoDraft(reply: Reply) { reply == Unusable || reply == NotNeeded || reply == NotStored }

  // ---- Runs that differ in name only ----

  /** To a worker that remembers `m` the two runs look alike. */
  ghost predicate Alike(m: Memo, r: Run, q: Run) {
    forall i: nat ::
      && (Stops(m, r, i) <==> Stops(m, q, i)) && (Bad(m, r, i) <==> Bad(m, q, i))
      && (r.reply(i) == Drafted <==> q.reply(i) == Drafted) && r.report(i) == q.report(i)
  }

  lemma AlikeBefore(notes: seq<Note>, m: Memo, limit: nat, r: Run, q: Run, i: nat)
    requires Alike(m, r, q)
    ensures DraftedBefore(notes, limit, r, i) <==> DraftedBefore(notes, limit, q, i)
    ensures RejectsBefore(notes, m, limit, r, i) <==> RejectsBefore(notes, m, limit, q, i)
    ensures StopsHere(notes, m, limit, r, i) <==> StopsHere(notes, m, limit, q, i)
    ensures EndsWith(notes, m, limit, r, i) <==> EndsWith(notes, m, limit, q, i)
  {
    assert Stops(m, r, i) <==> Stops(m, q, i);
    forall j: nat
      ensures r.reply(j) == Drafted <==> q.reply(j) == Drafted
      ensures Rejects(m, r, j) <==> Rejects(m, q, j)
    {
      assert Bad(m, r, j) <==> Bad(m, q, j);
    }
  }

  lemma AlikeReach(notes: seq<Note>, m: Memo, limit: nat, r: Run, q: Run, i: nat)
    requires Alike(m, r, q)
    ensures CameTo(notes, m, limit, r, i) <==> CameTo(notes, m, limit, q, i)
    ensures DraftedNow(notes, m, limit, r, i) <==> DraftedNow(notes, m, limit, q, i)
    ensures BadNow(notes, m, limit, r, i) <==> BadNow(notes, m, limit, q, i)
    ensures Lands(notes, m, limit, r, i) <==> Lands(notes, m, limit, q, i)
  {
    forall j: nat
      ensures StopsHere(notes, m, limit, r, j) <==> StopsHere(notes, m, limit, q, j)
      ensures EndsWith(notes, m, limit, r, j) <==> EndsWith(notes, m, limit, q, j)
    {
      AlikeBefore(notes, m, limit, r, q, j);
    }
    AlikeBefore(notes, m, limit, r, q, i);
    assert Bad(m, r, i) <==> Bad(m, q, i);
  }

  lemma AlikeEnds(notes: seq<Note>, m: Memo, limit: nat, r: Run, q: Run)
    requires Alike(m, r, q)
    ensures Stopped(notes, m, limit, r) <==> Stopped(notes, m, limit, q)
    ensures FateOf(notes, m, limit, r) == FateOf(notes, m, limit, q)
    ensures TripsAfter(notes, m, limit, r) == TripsAfter(notes, m, limit, q)
  {
    forall j: nat
      ensures StopsHere(notes, m, limit, r, j) <==> StopsHere(notes, m, limit, q, j)
      ensures EndsWith(notes, m, limit, r, j) <==> EndsWith(notes, m, limit, q, j)
      ensures DraftedNow(notes, m, limit, r, j) <==> DraftedNow(notes, m, limit, q, j)
      ensures BadNow(notes, m, limit, r, j) <==> BadNow(notes, m, limit, q, j)
    {
      AlikeBefore(notes, m, limit, r, q, j);
      AlikeReach(notes, m, limit, r, q, j);
    }
  }

  lemma AlikeNotes(notes: seq<Note>, m: Memo, limit: nat, r: Run, q: Run)
    requires Alike(m, r, q)
    ensures NotesAfter(notes, m, limit, r) == NotesAfter(notes, m, limit, q)
  {
    AlikeEnds(notes, m, limit, r, q);
    forall i: nat | i < |notes|
      ensures NoteAfter(notes, m, limit, r, i) == NoteAfter(notes, m, limit, q, i)
    {
      AlikeReach(notes, m, limit, r, q, i);
    }
  }

  // ---- Timeouts ----

  function WithReply(r: Run, i: nat, reply: Reply): Run { r.(reply := (j: nat) => if j == i then reply else r.reply(j)) }

  /**
   A second timeout in a row on the same note is a bad result like any other: the run goes
   exactly as if what came back had been unusable.
   */
  lemma ASecondTimeoutIsABadResult(s: State, limit: nat, r: Run, i: nat)
    requires s.memo.timedOut == Some(i) && r.reply(i) == TimedOut
    ensures Next(s, limit, r) == Next(s, limit, WithReply(r, i, Unusable))
  {
    var q := WithReply(r, i, Unusable);
    forall j: nat
      ensures Stops(s.memo, r, j) <==> Stops(s.memo, q, j)
      ensures Bad(s.memo, r, j) <==> Bad(s.memo, q, j)
    {
    }
    assert Alike(s.memo, r, q);
    AlikeNotes(s.notes, s.memo, limit, r, q);
    AlikeEnds(s.notes, s.memo, limit, r, q);
    forall j: nat
      ensures TimedOutAt(s.notes, s.memo, limit, r, j) <==> TimedOutAt(s.notes, s.memo, limit, q, j)
    {
      AlikeReach(s.notes, s.memo, limit, r, q, j);
    }
    SameMemo(s.notes, s.memo, limit, r, q);
  }

  lemma SameMemo(notes: seq<Note>, m: Memo, limit: nat, r: Run, q: Run)
    requires forall j: nat :: TimedOutAt(notes, m, limit, r, j) <==> TimedOutAt(notes, m, limit, q, j)
    requires TripsAfter(notes, m, limit, r) == TripsAfter(notes, m, limit, q)
    ensures NextMemo(notes, m, limit, r) == NextMemo(notes, m, limit, q)
  {
    if i: nat :| TimedOutAt(notes, m, limit, r, i) {
      assert TimedOutAt(notes, m, limit, q, i);
      forall j: nat | TimedOutAt(notes, m, limit, r, j) || TimedOutAt(notes, m, limit, q, j)
        ensures j == i
      {
        assert StopsHere(notes, m, limit, r, i) && StopsHere(notes, m, limit, r, j);
      }
    }
  }

  /**
   A first timeout and a systemic failure stop the run where they happen. When nothing was
   drafted before, no note changes at all and the trips in a row stand; the timeout, and
   only that, is remembered.
   */
  lemma AStopBurnsNothing(s: State, limit: nat, r: Run, i: nat)
    requires InBatch(s.notes, limit, i) && (forall j: nat | j < i && InBatch(s.notes, limit, j) :: NoDraft(r.reply(j)))
    requires r.reply(i) == Systemic || (r.reply(i) == TimedOut && s.memo.timedOut != Some(i))
    ensures Next(s, limit, r) == State(s.notes, Memo(if r.reply(i) == TimedOut then Some(i) else None, s.memo.trips))
  {
    forall j: nat | j < i
      ensures !StopsHere(s.notes, s.memo, limit, r, j) && !EndsWith(s.notes, s.memo, limit, r, j)
      ensures InBatch(s.notes, limit, j) ==> r.reply(j) != Drafted
    {
    }
    assert StopsHere(s.notes, s.memo, limit, r, i);
    forall j: nat
      ensures !DraftedNow(s.notes, s.memo, limit, r, j)
      ensures TimedOutAt(s.notes, s.memo, limit, r, j) <==> j == i && r.reply(i) == TimedOut
    {
    }
    assert NotesAfter(s.notes, s.memo, limit, r) == s.notes;
  }

  // ---- A batch that is finished ----

  /** A note of the batch came back with `reply`. */
  ghost predicate SomeReply(s: State, limit: nat, r: Run, reply: Reply) {
    exists j: nat :: InBatch(s.notes, limit, j) && r.reply(j) == reply
  }

  ghost predicate OnlyOneUnusable(s: State, limit: nat, r: Run, i: nat) {
    forall j: nat | InBatch(s.notes, limit, j) && r.reply(j) == Unusable :: j == i
  }

  /**
   A PLAIN RUN, EXACTLY. A drafted note of the batch has a fresh ready draft. An unusable one
   is counted once if anything was drafted or it was the only one; not at all if the breaker
   trips; and given up if it trips the third time in a row. No note outside the batch moves.
   */
  lemma PlainRunsExactly(s: State, limit: nat, r: Run, i: nat)
    requires Plain(r) && i < |s.notes|
    ensures var n, after := s.notes[i], Next(s, limit, r).notes[i];
      if !InBatch(s.notes, limit, i) then after == n
      else if r.reply(i) == Drafted then after == n.(status := Ready, stale := false)
      else if SomeReply(s, limit, r, Drafted) || OnlyOneUnusable(s, limit, r, i) then
        after == n.(attempts := n.attempts + 1, status := if n.attempts >= 2 then Failed else Pending)
      else if s.memo.trips >= 2 then after == n.(attempts := 3, status := Failed)
      else after == n
  {
    PlainReachesAll(s, limit, r);
    assert r.reply(i) == Drafted || r.reply(i) == Unusable;
    assert r.report(i) == Taken;
    assert !RejectsBefore(s.notes, s.memo, limit, r, i);
    assert SomeReply(s, limit, r, Drafted) <==> AnySuccess(s.notes, s.memo, limit, r) by {
      forall j: nat
        ensures DraftedNow(s.notes, s.memo, limit, r, j) <==> InBatch(s.notes, limit, j) && r.reply(j) == Drafted
      {
      }
    }
    if BadNow(s.notes, s.memo, limit, r, i) {
      TwoBadIs(s, limit, r, i);
    }
  }

  lemma TwoBadIs(s: State, limit: nat, r: Run, i: nat)
    requires Plain(r) && BadNow(s.notes, s.memo, limit, r, i)
    ensures TwoBad(s.notes, s.memo, limit, r) <==> !OnlyOneUnusable(s, limit, r, i)
  {
    PlainReachesAll(s, limit, r);
    if !OnlyOneUnusable(s, limit, r, i) {
      var j: nat :| InBatch(s.notes, limit, j) && r.reply(j) == Unusable && j != i;
      assert BadNow(s.notes, s.memo, limit, r, j);
    }
  }

  /** The trips in a row grow by one in a plain run that drafts nothing and has two unusable results, to two at most. */
  lemma PlainTripsExactly(s: State, limit: nat, r: Run)
    requires Plain(r)
    ensures Next(s, limit, r).memo == Memo(None,
      if !SomeReply(s, limit, r, Drafted) && s.memo.trips < 2
         && (exists j: nat, k: nat :: j < k && InBatch(s.notes, limit, j) && r.reply(j) == Unusable
                                      && InBatch(s.notes, limit, k) && r.reply(k) == Unusable)
      then s.memo.trips + 1 else 0)
  {
    PlainReachesAll(s, limit, r);
    forall j: nat
      ensures DraftedNow(s.notes, s.memo, limit, r, j) <==> InBatch(s.notes, limit, j) && r.reply(j) == Drafted
      ensures BadNow(s.notes, s.memo, limit, r, j) <==> InBatch(s.notes, limit, j) && r.reply(j) == Unusable
      ensures !TimedOutAt(s.notes, s.memo, limit, r, j)
    {
      assert r.reply(j) == Drafted || r.reply(j) == Unusable;
    }
    assert SomeReply(s, limit, r, Drafted) <==> AnySuccess(s.notes, s.memo, limit, r);
  }
}
