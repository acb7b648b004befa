/**
 Pushes of backlog.txt: what a complete push makes the mirror say, and when pushing the
 same file again writes nothing.
 */
module InboxBacklog {
  import opened Wrappers
  import opened InboxRules

  ghost predicate DistinctKeys(entries: seq<Entry>) {
    forall i, j | 0 <= i < j < |entries| :: entries[i].key != entries[j].key
  }

  /** The row says what the entry says, and is on the board. */
  predicate Says(l: Line, e: Entry) {
    && l.text == e.text && l.archivedAt.None? && l.open == !e.text.done
    && (e.project.Some? ==> l.project == e.project)
  }

  lemma PushedLineSays(stored: Option<Line>, e: Entry, now: int)
    ensures Says(LineAfterPush(stored, e, now), e)
  {
  }

  lemma SayingItAgainWritesNothing(l: Line, e: Entry, now: int)
    requires Says(l, e)
    ensures LineAfterPush(Some(l), e, now) == l
  {
  }

  // ---- The upserts ----

  lemma {:induction false} UntouchedKeys(lines: map<Key, Line>, entries: seq<Entry>, now: int, k: Key)
    requires forall i | 0 <= i < |entries| :: entries[i].key != k
    ensures Get(Upserted(lines, entries, now), k) == Get(lines, k)
  {
    if entries != [] {
      UntouchedKeys(lines, entries[..|entries| - 1], now, k);
    }
  }

  /** The last entry of a key writes its row last. */
  lemma {:induction false} LastEntryWrites(lines: map<Key, Line>, entries: seq<Entry>, now: int, i: nat)
    requires i < |entries| && forall j | i < j < |entries| :: entries[j].key != entries[i].key
    ensures entries[i].key in Upserted(lines, entries, now)
    ensures Upserted(lines, entries, now)[entries[i].key]
         == LineAfterPush(Get(Upserted(lines, entries[..i], now), entries[i].key), entries[i], now)
  {
    var last := |entries| - 1;
    if i < last {
      LastEntryWrites(lines, entries[..last], now, i);
      assert entries[..last][..i] == entries[..i];
    }
  }

  lemma SeenKeys(entries: seq<Entry>, k: Key)
    ensures k in KeysOf(entries) <==> exists i :: 0 <= i < |entries| && entries[i].key == k
  {
    if k in KeysOf(entries) {
      var e :| e in entries && e.key == k;
      var i :| 0 <= i < |entries| && entries[i] == e;
    }
  }

  // ---- The mirror is the file ----

  /** Entry `i` is the last of its key, the one whose row stands. */
  ghost predicate Stands(entries: seq<Entry>, i: int) {
    0 <= i < |entries| && forall j | i < j < |entries| :: entries[j].key != entries[i].key
  }

  lemma {:induction false} SomeEntryStands(entries: seq<Entry>, k: Key) returns (i: nat)
    requires k in KeysOf(entries)
    ensures Stands(entries, i) && entries[i].key == k
  {
    SeenKeys(entries, k);
    var last := |entries| - 1;
    if entries[last].key == k {
      i := last;
    } else {
      SeenKeys(entries[..last], k);
      var at :| 0 <= at < |entries| && entries[at].key == k;
      assert entries[..last][at].key == k;
      i := SomeEntryStands(entries[..last], k);
    }
  }

  /** The mirror shows the file: a live row for each key, saying what its last entry says, and no other live row. */
  ghost predicate ShowsFile(lines: map<Key, Line>, entries: seq<Entry>) {
    && (forall i | Stands(entries, i) :: entries[i].key in lines && Says(lines[entries[i].key], entries[i]))
    && (forall k | k in lines && k !in KeysOf(entries) :: lines[k].archivedAt.Some?)
  }

  /** What a push, complete or not, leaves at each key. */
  lemma PushedAt(lines: map<Key, Line>, entries: seq<Entry>, complete: bool, now: int, k: Key)
    ensures var after := PushedLines(lines, entries, complete, now);
      && (k in after <==> k in lines || k in KeysOf(entries))
      && (forall i | Stands(entries, i) && entries[i].key == k :: k in after && Says(after[k], entries[i]))
      && (k in lines && k !in KeysOf(entries) && !complete ==> after[k] == lines[k])
      && (k in lines && k !in KeysOf(entries) && complete ==> after[k].archivedAt.Some?)
  {
    SeenKeys(entries, k);
    if k in KeysOf(entries) {
      var i := SomeEntryStands(entries, k);
      LastEntryWrites(lines, entries, now, i);
      PushedLineSays(Get(Upserted(lines, entries[..i], now), k), entries[i], now);
      assert forall j | Stands(entries, j) && entries[j].key == k :: j == i;
    } else {
      UntouchedKeys(lines, entries, now, k);
    }
  }

  /** After a complete push the mirror shows the file, and has forgotten no row. */
  lemma CompletePushShowsTheFile(lines: map<Key, Line>, entries: seq<Entry>, now: int)
    ensures ShowsFile(PushedLines(lines, entries, true, now), entries)
    ensures PushedLines(lines, entries, true, now).Keys == lines.Keys + KeysOf(entries)
  {
    var after := PushedLines(lines, entries, true, now);
    forall i | Stands(entries, i)
      ensures entries[i].key in after && Says(after[entries[i].key], entries[i])
    {
      PushedAt(lines, entries, true, now, entries[i].key);
    }
    forall k
      ensures k in after <==> k in lines || k in KeysOf(entries)
      ensures k in after && k !in KeysOf(entries) ==> after[k].archivedAt.Some?
    {
      PushedAt(lines, entries, true, now, k);
    }
  }

  // ---- The status of a tag is what the file says ----

  /** Entry `i` stands in the file, under the tag. */
  ghost predicate TaggedEntry(entries: seq<Entry>, i: int, tag: Tag) { Stands(entries, i) && tag in entries[i].text.tags }

  ghost predicate HasLine(entries: seq<Entry>, tag: Tag) { exists i :: TaggedEntry(entries, i, tag) }

  ghost predicate HasOpenLine(entries: seq<Entry>, tag: Tag) {
    exists i :: TaggedEntry(entries, i, tag) && !entries[i].text.done
  }

  /** When the mirror shows the file, a tag is open, done or missing as the file's own entries say. */
  lemma StatusIsTheFile(lines: map<Key, Line>, entries: seq<Entry>, tag: Tag)
    requires ShowsFile(lines, entries)
    ensures StatusOf(lines, tag) == OpenLine <==> HasOpenLine(entries, tag)
    ensures Present(StatusOf(lines, tag)) <==> HasLine(entries, tag)
  {
    forall i | TaggedEntry(entries, i, tag)
      ensures LiveTagged(lines, entries[i].key, tag) && lines[entries[i].key].open == !entries[i].text.done
    {
    }
    forall k | k in lines && LiveTagged(lines, k, tag)
      ensures exists i :: TaggedEntry(entries, i, tag) && lines[k].open == !entries[i].text.done
    {
      var i := SomeEntryStands(entries, k);
      assert TaggedEntry(entries, i, tag);
    }
  }

  /** A push that says the line is done keeps a done tag done, and one that does not mention it keeps it missing. */
  lemma QuietPushKeepsTheStatus(lines: map<Key, Line>, entries: seq<Entry>, complete: bool, now: int, tag: Tag)
    ensures var after := PushedLines(lines, entries, complete, now);
      && (StatusOf(lines, tag) == DoneLines && HasLine(entries, tag) && !HasOpenLine(entries, tag)
          ==> StatusOf(after, tag) == DoneLines)
      && (!Present(StatusOf(lines, tag)) && !HasLine(entries, tag) ==> !Present(StatusOf(after, tag)))
  {
    var after := PushedLines(lines, entries, complete, now);
    forall k | k in after && LiveTagged(after, k, tag)
      ensures k in KeysOf(entries) ==> exists i :: TaggedEntry(entries, i, tag) && after[k].open == !entries[i].text.done
      ensures k !in KeysOf(entries) ==> k in lines && after[k] == lines[k] && LiveTagged(lines, k, tag)
    {
      PushedAt(lines, entries, complete, now, k);
      if k in KeysOf(entries) {
        var i := SomeEntryStands(entries, k);
        assert TaggedEntry(entries, i, tag);
      }
    }
    if HasLine(entries, tag) {
      var i :| TaggedEntry(entries, i, tag);
      PushedAt(lines, entries, complete, now, entries[i].key);
      assert LiveTagged(after, entries[i].key, tag);
    }
  }

  /** A live tagged row after a push was one before, or is that of a tagged entry. */
  lemma PushedLineIsTagged(lines: map<Key, Line>, entries: seq<Entry>, complete: bool, now: int, k: Key, tag: Tag)
    requires LiveTagged(PushedLines(lines, entries, complete, now), k, tag)
    ensures LiveTagged(lines, k, tag) || exists i :: TaggedEntry(entries, i, tag) && entries[i].key == k
  {
    PushedAt(lines, entries, complete, now, k);
    if k in KeysOf(entries) {
      var i := SomeEntryStands(entries, k);
      assert TaggedEntry(entries, i, tag);
    }
  }

  /** A push that is not of the whole file, and touches no row of the tag nor brings one, leaves its status alone. */
  lemma UnmentionedLinesStay(lines: map<Key, Line>, entries: seq<Entry>, now: int, tag: Tag)
    requires !HasLine(entries, tag) && forall k | k in lines && LiveTagged(lines, k, tag) :: k !in KeysOf(entries)
    requires Present(StatusOf(lines, tag))
    ensures StatusOf(PushedLines(lines, entries, false, now), tag) == StatusOf(lines, tag)
  {
    var after := PushedLines(lines, entries, false, now);
    forall k | k in after && LiveTagged(after, k, tag)
      ensures k in lines && LiveTagged(lines, k, tag) && after[k] == lines[k]
    {
      PushedAt(lines, entries, false, now, k);
      PushedLineIsTagged(lines, entries, false, now, k, tag);
    }
    forall k | k in lines && LiveTagged(lines, k, tag)
      ensures k in after && LiveTagged(after, k, tag) && after[k] == lines[k]
    {
      PushedAt(lines, entries, false, now, k);
    }
  }

  // ---- Convergence ----

  predicate Agree(e: Entry, other: Entry) {
    e.key == other.key ==> e.text == other.text && (e.project.Some? && other.project.Some? ==> e.project == other.project)
  }

  /** No key is given two texts or two projects. Distinct keys are one way to that. */
  ghost predicate Agreeing(entries: seq<Entry>) {
    forall i, j | 0 <= i < j < |entries| :: Agree(entries[i], entries[j])
  }

  lemma DistinctKeysAgree(entries: seq<Entry>)
    requires DistinctKeys(entries)
    ensures Agreeing(entries)
  {
  }

  ghost predicate SaysAll(lines: map<Key, Line>, entries: seq<Entry>) {
    forall i | 0 <= i < |entries| :: entries[i].key in lines && Says(lines[entries[i].key], entries[i])
  }

  /** Agreeing entries are all still said once the last of them is written. */
  lemma {:induction false} AgreeingEntriesAreSaid(lines: map<Key, Line>, entries: seq<Entry>, now: int)
    requires Agreeing(entries)
    ensures SaysAll(Upserted(lines, entries, now), entries)
  {
    if entries != [] {
      var last := |entries| - 1;
      var rest, before := entries[..last], Upserted(lines, entries[..last], now);
      AgreeingEntriesAreSaid(lines, rest, now);
      PushedLineSays(Get(before, entries[last].key), entries[last], now);
      forall i | 0 <= i < last
        ensures entries[i].key in Upserted(lines, entries, now)
        ensures Says(Upserted(lines, entries, now)[entries[i].key], entries[i])
      {
        assert rest[i] == entries[i] && Agree(entries[i], entries[last]);
      }
    }
  }

  lemma {:induction false} SaidEntriesWriteNothing(lines: map<Key, Line>, entries: seq<Entry>, now: int)
    requires SaysAll(lines, entries)
    ensures Upserted(lines, entries, now) == lines
  {
    if entries != [] {
      var last := |entries| - 1;
      assert forall i | 0 <= i < last :: entries[..last][i] == entries[i];
      SaidEntriesWriteNothing(lines, entries[..last], now);
      SayingItAgainWritesNothing(lines[entries[last].key], entries[last], now);
      assert lines[entries[last].key := lines[entries[last].key]] == lines;
    }
  }

  /** A key's row after the upserts carries this push's stamp, unless it was there and already said every entry of the key. */
  lemma {:induction false} StampedUnlessSaid(lines: map<Key, Line>, entries: seq<Entry>, now: int, k: Key)
    requires k in Upserted(lines, entries, now)
    ensures var after := Upserted(lines, entries, now);
      || after[k].updatedAt == now
      || (k in lines && after[k] == lines[k]
          && forall i | 0 <= i < |entries| && entries[i].key == k :: Says(lines[k], entries[i]))
  {
    if entries != [] {
      var last := |entries| - 1;
      var before := Upserted(lines, entries[..last], now);
      assert forall i | 0 <= i < last :: entries[..last][i] == entries[i];
      if k in before {
        StampedUnlessSaid(lines, entries[..last], now, k);
        if entries[last].key == k && Says(before[k], entries[last]) {
          SayingItAgainWritesNothing(before[k], entries[last], now);
        }
      }
    }
  }

  /** The second push of an agreeing file moves no line. */
  lemma SecondPushMovesNoLine(lines: map<Key, Line>, entries: seq<Entry>, t1: int, t2: int)
    requires Agreeing(entries)
    ensures var once := PushedLines(lines, entries, true, t1); PushedLines(once, entries, true, t2) == once
  {
    var upserted, once := Upserted(lines, entries, t1), PushedLines(lines, entries, true, t1);
    AgreeingEntriesAreSaid(lines, entries, t1);
    forall i | 0 <= i < |entries|
      ensures entries[i].key in once && Says(once[entries[i].key], entries[i])
    {
      SeenKeys(entries, entries[i].key);
    }
    SaidEntriesWriteNothing(once, entries, t2);
    CompletePushShowsTheFile(lines, entries, t1);
  }

  /**
   EXACTLY. A file is one whose second push moves no line, whatever the clock says, just
   when it gives no key two texts or two projects; otherwise some row is stamped anew by
   every push for ever.
   */
  lemma LinesSettleExactly(lines: map<Key, Line>, entries: seq<Entry>, t1: int)
    ensures var once := PushedLines(lines, entries, true, t1);
      (forall t2 :: PushedLines(once, entries, true, t2) == once) <==> Agreeing(entries)
  {
    var once := PushedLines(lines, entries, true, t1);
    if Agreeing(entries) {
      forall t2
        ensures PushedLines(once, entries, true, t2) == once
      {
        SecondPushMovesNoLine(lines, entries, t1, t2);
      }
    } else {
      var i, j :| 0 <= i < j < |entries| && !Agree(entries[i], entries[j]);
      RepeatedKeyNeverSettles(lines, entries, i, j, t1);
      var t2 := once[entries[i].key].updatedAt + 1;
      RepeatedKeyNeverSettles(once, entries, i, j, t2);
      assert PushedLines(once, entries, true, t2) != once;
    }
  }

  /** Two texts or two projects under one key rewrite the row, and its stamp, in every push for ever. */
  lemma RepeatedKeyNeverSettles(lines: map<Key, Line>, entries: seq<Entry>, i: nat, j: nat, now: int)
    requires i < j < |entries| && !Agree(entries[i], entries[j])
    ensures entries[i].key in PushedLines(lines, entries, true, now)
    ensures PushedLines(lines, entries, true, now)[entries[i].key].updatedAt == now
  {
    var k := entries[i].key;
    SeenKeys(entries, k);
    PushedAt(lines, entries, true, now, k);
    StampedUnlessSaid(lines, entries, now, k);
    assert entries[j].key == k;
  }

  /** A note under a status that no longer moves settles in two complete pushes, one if its line is there. */
  lemma NoteSettles(n: Note, before: Status, s: Status, t1: int, t2: int, t3: int)
    ensures var once := NoteAfterPush(n, before, s, t1);
      && (Present(s) ==> NoteAfterPush(once, s, s, t2) == once)
      && var twice := NoteAfterPush(once, s, s, t2);
         NoteAfterPush(twice, s, s, t3) == twice
  {
  }

  /**
   CONVERGENCE. The third complete push in a row of a file that gives no key two texts or
   two projects writes nothing at all, no stamp either, whatever the clock says.
   */
  lemma ThirdPushWritesNothing(b: Board, entries: seq<Entry>, t1: int, t2: int, t3: int)
    requires Agreeing(entries)
    ensures var twice := PushStep(PushStep(b, entries, true, t1), entries, true, t2);
      PushStep(twice, entries, true, t3) == twice
  {
    var once := PushStep(b, entries, true, t1);
    var twice := PushStep(once, entries, true, t2);
    var thrice := PushStep(twice, entries, true, t3);
    SecondPushMovesNoLine(b.lines, entries, t1, t2);
    SecondPushMovesNoLine(once.lines, entries, t2, t3);
    forall id | id in b.notes
      ensures thrice.notes[id] == twice.notes[id]
    {
      NoteSettles(b.notes[id], StatusOf(b.lines, TagOf(id)), StatusOf(once.lines, TagOf(id)), t1, t2, t3);
    }
    assert thrice.notes == twice.notes;
  }
}
