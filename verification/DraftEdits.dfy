/**
 What a hand's write does to a note and its draft, column by column, when it lands, and that
 from then on no machine undoes it.
 */
module DraftEdits {
  import opened Wrappers
  import opened DraftWrites

  /** The row a write of the run left, and the rows it had read and found. */
  predicate LandsAt(c: Cleaning, rows: seq<Row>, writes: seq<Write>, k: nat)
    requires |rows| == |writes| + 1 && k < |writes|
  {
    && writes[k].readAt <= k && writes[k].op.Patch?
    && PatchGuards(rows[writes[k].readAt], writes[k].op.ch, rows[k])
  }

  // ---- When a PATCH lands ----

  /** A PATCH that finds the note as it read it always lands, and so does one that neither reviews nor redrafts. */
  lemma QuietPatchesLand(read: Row, ch: Changes, row: Row)
    ensures read == row ==> PatchGuards(read, ch, row)
    ensures ch.reviewed != Some(true) && ch.body.None? && (!EditsDraft(ch) || !read.reviewed) ==> PatchGuards(read, ch, row)
  {
  }

  /**
   And it is a conflict exactly when a tick finds the note reviewed or its draft's title or
   project changed, a new body finds it reviewed or its draft edited, or an edit of a
   reviewed note's draft finds the tick gone.
   */
  lemma ConflictsExactly(read: Row, ch: Changes, row: Row)
    ensures !PatchGuards(read, ch, row) <==>
      || (ch.reviewed == Some(true) && !read.reviewed
          && (row.reviewed || row.draftTitle != read.draftTitle || row.draftProject != read.draftProject))
      || (ch.body.Some? && ch.draftTitle.None? && ch.draftBody.None? && ch.draftProject.None?
          && !read.reviewed && read.editedAt.None? && (row.reviewed || row.editedAt.Some?))
      || ((ch.draftTitle.Some? || ch.draftBody.Some? || ch.draftProject.Some?)
          && read.reviewed && ch.reviewed != Some(false) && !row.reviewed)
  {
  }

  // ---- What it leaves ----

  /** An edit of the draft makes it the hand's, ready, and what the hand wrote. */
  lemma EditsAreStamped(c: Cleaning, read: Row, ch: Changes, now: int, row: Row)
    requires PatchGuards(read, ch, row) && EditsDraft(ch)
    ensures var after := Written(c, read, Patch(ch, now), row);
      && after.editedAt == Some(now) && after.status == Some(Ready)
      && (ch.draftTitle.Some? ==> after.draftTitle == OrNone(c.draftTitle(ch.draftTitle.value)))
      && (ch.draftBody.Some? ==> after.draftBody == OrNone(c.draftBody(ch.draftBody.value)))
      && (ch.draftProject.Some? ==> after.draftProject == ch.draftProject.value)
      && after.attempts == row.attempts && after.srcSha == row.srcSha
  {
  }

  /** What a request neither names nor implies stays as it was. */
  lemma NothingElseMoves(c: Cleaning, read: Row, ch: Changes, now: int, row: Row)
    requires PatchGuards(read, ch, row)
    ensures var after := Written(c, read, Patch(ch, now), row);
      && (ch.draftTitle.None? ==> after.draftTitle == row.draftTitle)
      && (ch.draftBody.None? ==> after.draftBody == row.draftBody)
      && (ch.draftProject.None? ==> after.draftProject == row.draftProject)
      && (!EditsDraft(ch) ==> after.editedAt == row.editedAt)
      && (!EditsDraft(ch) && ch.body.None? ==> after.status == row.status && after.attempts == row.attempts)
      && (ch.body.None? ==> after.body == row.body)
      && (ch.reviewed.None? ==> after.reviewed == row.reviewed)
      && (ch.open.None? ==> after.open == row.open && after.closedAt == row.closedAt && after.closedBy == row.closedBy)
      && (ch.title.None? && ch.reviewed != Some(true) && ch.draftTitle.None? ==>
            after.title == row.title && after.manual == row.manual)
      && (ch.project.None? && ch.reviewed != Some(true) && ch.draftProject.None? ==> after.project == row.project)
      && (ch.reviewed != Some(true) ==> after.copiedAt == row.copiedAt)
      && after.srcSha == row.srcSha
  {
  }

  /** What it names is set: a typed title is manual for good, and a hand's close or reopen belongs to no rule. */
  lemma WhatItNamesIsSet(c: Cleaning, read: Row, ch: Changes, now: int, row: Row)
    requires PatchGuards(read, ch, row)
    ensures var after := Written(c, read, Patch(ch, now), row);
      && (ch.body.Some? ==> after.body == c.body(ch.body.value))
      && (ch.reviewed.Some? ==> after.reviewed == ch.reviewed.value)
      && (ch.title.Some? ==>
            after.manual && after.title == if c.title(ch.title.value) == "" then read.title else c.title(ch.title.value))
      && (ch.project.Some? ==> after.project == ch.project.value)
      && (ch.open.Some? ==>
            && after.open == ch.open.value && after.closedBy.None?
            && after.closedAt == if ch.open.value then None else Some(now))
      && (row.manual ==> after.manual)
  {
  }

  /** A new body of an unreviewed note, its draft unedited, makes the draft due afresh, or none when it is empty. */
  lemma NewBodiesAreRedrafted(c: Cleaning, read: Row, ch: Changes, now: int, row: Row)
    requires PatchGuards(read, ch, row) && ch.body.Some? && !EditsDraft(ch)
    ensures var after := Written(c, read, Patch(ch, now), row);
      if read.reviewed || read.editedAt.Some? then after.status == row.status && after.attempts == row.attempts
      else after.attempts == 0 && after.status == if c.body(ch.body.value) == "" then None else Some(Pending)
  {
  }

  /**
   The first tick takes the draft's title and project, unless the hand gave its own; a later
   one takes back neither a typed title nor a project, unless the same request edits it.
   */
  lemma TicksTakeTheDraft(c: Cleaning, read: Row, ch: Changes, now: int, row: Row)
    requires PatchGuards(read, ch, row) && ch.reviewed == Some(true) && !read.reviewed
    requires ch.title.None? && ch.project.None?
    ensures var after := Written(c, read, Patch(ch, now), row);
      && after.reviewed
      && after.title == (if after.draftTitle.Some? && (ch.draftTitle.Some? || !read.manual) then after.draftTitle.value
                         else row.title)
      && after.project == (if after.draftProject.Some? && (ch.draftProject.Some? || read.copiedAt.None?)
                           then after.draftProject else row.project)
      && after.copiedAt == (if read.copiedAt.None? then Some(now) else row.copiedAt)
  {
  }

  /** An edit of a reviewed note's draft goes to the note as well, an emptied title excepted. */
  lemma EditsOfReviewedNotesAreFiled(c: Cleaning, read: Row, ch: Changes, now: int, row: Row)
    requires PatchGuards(read, ch, row) && read.reviewed && EditsDraft(ch) && ch.reviewed != Some(false)
    requires ch.title.None? && ch.project.None?
    ensures var after := Written(c, read, Patch(ch, now), row);
      && after.title == (if ch.draftTitle.Some? && after.draftTitle.Some? then after.draftTitle.value else row.title)
      && after.project == (if ch.draftProject.Some? then after.draftProject else row.project)
  {
  }

  // ---- What the machine's writes leave ----

  /** A draft made of the note's body as it is lands on a note neither reviewed nor edited; a typed title stays the title. */
  lemma FreshDraftsLand(c: Cleaning, read: Row, d: Draft, row: Row)
    requires !read.reviewed && read.editedAt.None? && d.srcSha == c.sha(read.body)
    requires !row.reviewed && row.editedAt.None? && row.body == read.body
    ensures var after := Written(c, read, MachineDraft(d), row);
      && after.status == Some(Ready) && after.srcSha == Some(c.sha(row.body))
      && after.draftBody == OrNone(c.draftBody(d.body))
      && after.draftTitle == OrNone(c.draftTitle(if read.manual then read.title else d.title))
      && after.draftProject == (if d.project.Some? then d.project else read.draftProject)
      && after == row.(status := after.status, srcSha := after.srcSha, draftTitle := after.draftTitle,
                       draftBody := after.draftBody, draftProject := after.draftProject)
  {
  }

  /** A bad result that finds the count it read counts once, and the third, or a final one, fails the note. */
  lemma BadResultsCount(c: Cleaning, read: Row, forGood: bool, row: Row)
    requires !read.reviewed && read.editedAt.None? && !row.reviewed && row.editedAt.None? && row.attempts == read.attempts
    ensures var after := Written(c, read, BadResult(forGood), row);
      && after.attempts == (if forGood && row.attempts < 2 then 3 else row.attempts + 1)
      && after.status == (if forGood || row.attempts >= 2 then Some(Failed) else Some(Pending))
      && after == row.(attempts := after.attempts, status := after.status)
  {
  }

  // ---- From the edit on ----

  lemma {:induction false} EditedForGood(c: Cleaning, rows: seq<Row>, writes: seq<Write>, from: nat, end: nat)
    requires IsRun(c, rows, writes) && from <= end < |rows| && rows[from].editedAt.Some?
    ensures rows[end].editedAt.Some?
    decreases end
  {
    if from < end {
      EditedForGood(c, rows, writes, from, end - 1);
      assert Link(c, rows, writes, end - 1);
    }
  }

  /**
   THE EDIT IS SAFE. In every interleaving, once a PATCH that edits the draft has landed, no
   machine's write, whatever it had read and when, changes anything in the note.
   */
  lemma NoMachineUndoesAnEdit(c: Cleaning, rows: seq<Row>, writes: seq<Write>, edit: nat, k: nat)
    requires IsRun(c, rows, writes) && edit < k < |writes|
    requires LandsAt(c, rows, writes, edit) && EditsDraft(writes[edit].op.ch) && Machine(writes[k].op)
    ensures rows[k + 1] == rows[k]
  {
    assert Link(c, rows, writes, edit) && Link(c, rows, writes, k);
    EditsAreStamped(c, rows[writes[edit].readAt], writes[edit].op.ch, writes[edit].op.now, rows[edit]);
    EditedForGood(c, rows, writes, edit + 1, k);
    MachineWritesKeepOut(c, rows[writes[k].readAt], writes[k].op, rows[k]);
  }

  /** So until the hand edits it again the draft is what that PATCH left, its state and its count included. */
  lemma LandedEditsStay(c: Cleaning, rows: seq<Row>, writes: seq<Write>, edit: nat, end: nat)
    requires IsRun(c, rows, writes) && edit < end < |rows|
    requires LandsAt(c, rows, writes, edit) && EditsDraft(writes[edit].op.ch)
    requires forall k: nat | edit < k < end && writes[k].op.Patch? :: !EditsDraft(writes[k].op.ch)
    ensures SameDraft(rows[edit + 1], rows[end]) && rows[end].status == Some(Ready)
    ensures rows[end].editedAt == Some(writes[edit].op.now)
  {
    assert Link(c, rows, writes, edit);
    EditsAreStamped(c, rows[writes[edit].readAt], writes[edit].op.ch, writes[edit].op.now, rows[edit]);
    EditedDraftsAreHands(c, rows, writes, edit + 1, end);
  }
}
