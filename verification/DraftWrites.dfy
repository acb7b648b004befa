/**
 A note's draft under two writers. Every operation reads the row and later writes it if
 what it relied on still holds; here the read and the write are separate steps, with
 anything in between.
 */
module DraftWrites {
  import opened Wrappers

  const DRAFT_MAX_ATTEMPTS := 3

  datatype Status = Pending | Ready | Failed

  /** Which rule closed a note, if one did. */
  datatype Rule = Backlog | Issues

  /** A voice note's columns that a PATCH, drafts and reviews touch. */
  datatype Row = Row(title: string, manual: bool, project: Option<string>, body: string, reviewed: bool,
                     open: bool, closedAt: Option<int>, closedBy: Option<Rule>,
                     draftTitle: Option<string>, draftBody: Option<string>, draftProject: Option<string>,
                     status: Option<Status>, attempts: nat, editedAt: Option<int>, copiedAt: Option<int>,
                     srcSha: Option<string>)

  /** The text cleaning and hashing the store applies; nothing here depends on what they do. */
  datatype Cleaning = Cleaning(title: string -> string, body: string -> string, draftTitle: string -> string,
                               draftBody: string -> string, sha: string -> string)

  /** A PATCH: the fields the request carries. A present project may be cleared. */
  datatype Changes = Changes(title: Option<string>, project: Option<Option<string>>, body: Option<string>,
                             reviewed: Option<bool>, open: Option<bool>, draftTitle: Option<string>, draftBody: Option<string>,
                             draftProject: Option<Option<string>>)

  function OrNone(s: string): Option<string> { if s == "" then None else Some(s) }

  predicate EditsDraft(ch: Changes) { ch.draftTitle.Some? || ch.draftBody.Some? || ch.draftProject.Some? }

  // ---- A hand PATCH ----

  predicate CopiesDraft(read: Row, ch: Changes) { ch.reviewed == Some(true) && !read.reviewed }

  predicate EditsAfterReview(read: Row, ch: Changes) {
    !CopiesDraft(read, ch) && EditsDraft(ch) && read.reviewed && ch.reviewed != Some(false)
  }

  predicate Redrafts(read: Row, ch: Changes) { !EditsDraft(ch) && ch.body.Some? && !read.reviewed && read.editedAt.None? }

  /** What the write still demands of the row it finds. */
  predicate PatchGuards(read: Row, ch: Changes, row: Row) {
    && (Redrafts(read, ch) ==> !row.reviewed && row.editedAt.None?)
    && (CopiesDraft(read, ch) ==>
          !row.reviewed && row.draftTitle == read.draftTitle && row.draftProject == read.draftProject)
    && (EditsAfterReview(read, ch) ==> row.reviewed)
  }

  /** The draft title as the request will leave it. */
  function DraftTitleOf(c: Cleaning, read: Row, ch: Changes): Option<string> {
    if ch.draftTitle.Some? then OrNone(c.draftTitle(ch.draftTitle.value)) else read.draftTitle
  }

  /** The request writes the draft's title into the note's own. */
  predicate TakesDraftTitle(c: Cleaning, read: Row, ch: Changes) {
    && DraftTitleOf(c, read, ch).Some? && ch.title.None?
    && ((CopiesDraft(read, ch) && (!read.manual || ch.draftTitle.Some?))
        || (EditsAfterReview(read, ch) && ch.draftTitle.Some?))
  }

  function TypedTitle(c: Cleaning, read: Row, ch: Changes, row: Row): string {
    if ch.title.None? then row.title
    else if c.title(ch.title.value) != "" then c.title(ch.title.value) else read.title
  }

  function DraftProjectOf(read: Row, ch: Changes): Option<string> {
    if ch.draftProject.Some? then ch.draftProject.value else read.draftProject
  }

  predicate TakesDraftProject(read: Row, ch: Changes) {
    && ch.project.None?
    && ((CopiesDraft(read, ch) && DraftProjectOf(read, ch).Some? && (read.copiedAt.None? || ch.draftProject.Some?))
        || (EditsAfterReview(read, ch) && ch.draftProject.Some?))
  }

  // ---- The store ----

  class Store {
    const c: Cleaning
    var row: Row

    constructor (c: Cleaning, row: Row)
      ensures this.c == c && this.row == row
    {
      this.c, this.row := c, row;
    }

    /**
     The write of a PATCH that had read `read`: refused without a trace when its guards
     fail, and otherwise the request's own fields and the copies it implies, nothing else.
     */
    method WritePatch(read: Row, ch: Changes, now: int) returns (landed: bool)
      modifies this
      ensures landed == PatchGuards(read, ch, old(row))
      ensures row == if landed then Patched(c, read, ch, now, old(row)) else old(row)
    {
      if !PatchGuards(read, ch, row) { return false; }
      SetDraftState(read, ch, now);
      SetNoteFields(read, ch);
      SetDecisions(ch, now);
      SetDraftFields(ch);
      CopyDraft(read, ch, now);
      return true;
    }

    /** Editing the draft makes it ready and its writer's; a new body makes an unedited one due again. */
    method SetDraftState(read: Row, ch: Changes, now: int)
      modifies this
      ensures row == old(row).(status := row.status, attempts := row.attempts, editedAt := row.editedAt)
      ensures row.status == Patched(c, read, ch, now, old(row)).status
      ensures row.attempts == Patched(c, read, ch, now, old(row)).attempts
      ensures row.editedAt == Patched(c, read, ch, now, old(row)).editedAt
    {
      if EditsDraft(ch) {
        row := row.(editedAt := Some(now), status := Some(Ready));
      } else if ch.body.Some? && !read.reviewed && read.editedAt.None? {
        row := row.(status := if c.body(ch.body.value) != "" then Some(Pending) else None, attempts := 0);
      }
    }

    /** The request's own fields of the note. */
    method SetNoteFields(read: Row, ch: Changes)
      modifies this
      ensures row == old(row).(title := row.title, manual := row.manual, project := row.project, body := row.body)
      ensures row.title == TypedTitle(c, read, ch, old(row)) && row.manual == (old(row.manual) || ch.title.Some?)
      ensures row.project == if ch.project.Some? then ch.project.value else old(row.project)
      ensures row.body == if ch.body.Some? then c.body(ch.body.value) else old(row.body)
    {
      if ch.title.Some? {
        var cleaned := c.title(ch.title.value);
        row := row.(title := if cleaned != "" then cleaned else read.title, manual := true);
      }
      if ch.project.Some? { row := row.(project := ch.project.value); }
      if ch.body.Some? { row := row.(body := c.body(ch.body.value)); }
    }

    /** The tick, and a hand close or reopen: no rule owns the state any more. */
    method SetDecisions(ch: Changes, now: int)
      modifies this
      ensures row == old(row).(reviewed := row.reviewed, open := row.open, closedAt := row.closedAt, closedBy := row.closedBy)
      ensures row.reviewed == if ch.reviewed.Some? then ch.reviewed.value else old(row.reviewed)
      ensures row.open == if ch.open.Some? then ch.open.value else old(row.open)
      ensures row.closedAt == if ch.open.None? then old(row.closedAt) else if ch.open.value then None else Some(now)
      ensures row.closedBy == if ch.open.Some? then None else old(row.closedBy)
    {
      if ch.reviewed.Some? { row := row.(reviewed := ch.reviewed.value); }
      if ch.open.Some? {
        row := row.(open := ch.open.value, closedAt := if ch.open.value then None else Some(now), closedBy := None);
      }
    }

    /** The request's own fields of the draft. */
    method SetDraftFields(ch: Changes)
      modifies this
      ensures row == old(row).(draftTitle := row.draftTitle, draftBody := row.draftBody, draftProject := row.draftProject)
      ensures row.draftTitle == if ch.draftTitle.Some? then OrNone(c.draftTitle(ch.draftTitle.value)) else old(row.draftTitle)
      ensures row.draftBody == if ch.draftBody.Some? then OrNone(c.draftBody(ch.draftBody.value)) else old(row.draftBody)
      ensures row.draftProject == if ch.draftProject.Some? then ch.draftProject.value else old(row.draftProject)
    {
      if ch.draftTitle.Some? { row := row.(draftTitle := OrNone(c.draftTitle(ch.draftTitle.value))); }
      if ch.draftBody.Some? { row := row.(draftBody := OrNone(c.draftBody(ch.draftBody.value))); }
      if ch.draftProject.Some? { row := row.(draftProject := ch.draftProject.value); }
    }

    /** A first tick copies the draft across; an edit of a reviewed note's draft goes to the note as well. */
    method CopyDraft(read: Row, ch: Changes, now: int)
      modifies this
      ensures row == old(row).(title := row.title, manual := row.manual, project := row.project, copiedAt := row.copiedAt)
      ensures row.title == if TakesDraftTitle(c, read, ch) then DraftTitleOf(c, read, ch).value else old(row.title)
      ensures row.manual == (old(row.manual) || TakesDraftTitle(c, read, ch))
      ensures row.project == if TakesDraftProject(read, ch) then DraftProjectOf(read, ch) else old(row.project)
      ensures row.copiedAt == if CopiesDraft(read, ch) && read.copiedAt.None? then Some(now) else old(row.copiedAt)
    {
      var title, project := DraftTitleOf(c, read, ch), DraftProjectOf(read, ch);
      if ch.reviewed == Some(true) && !read.reviewed {
        if title.Some? && ch.title.None? && (!read.manual || ch.draftTitle.Some?) {
          row := row.(title := title.value, manual := true);
        }
        if project.Some? && ch.project.None? && (read.copiedAt.None? || ch.draftProject.Some?) {
          row := row.(project := project);
        }
        if read.copiedAt.None? { row := row.(copiedAt := Some(now)); }
      } else if EditsDraft(ch) && read.reviewed && ch.reviewed != Some(false) {
        if ch.draftTitle.Some? && title.Some? && ch.title.None? {
          row := row.(title := title.value, manual := true);
        }
        if ch.draftProject.Some? && ch.project.None? { row := row.(project := project); }
      }
    }

    /** The write of a machine draft made from a transcript whose hash was `srcSha`. */
    method WriteDraft(read: Row, d: Draft) returns (landed: bool)
      modifies this
      ensures landed == DraftAccepted(c, read, d, old(row))
      ensures row == if landed then WithDraft(c, read, d, old(row)) else old(row)
    {
      if read.reviewed || read.editedAt.Some? || d.srcSha != c.sha(read.body) { return false; }
      if row.reviewed || row.editedAt.Some? || row.body != read.body { return false; }
      var title := if read.manual then c.draftTitle(read.title) else c.draftTitle(d.title);
      row := row.(draftTitle := OrNone(title), draftBody := OrNone(c.draftBody(d.body)),
                  draftProject := if d.project.Some? then d.project else read.draftProject,
                  status := Some(Ready), srcSha := Some(d.srcSha));
      return true;
    }

    /** The write of one bad draft result; `forGood` burns every attempt left. */
    method WriteAttempt(read: Row, forGood: bool) returns (landed: bool)
      modifies this
      ensures landed == AttemptCounts(read, old(row))
      ensures row == if landed then WithAttempt(read, forGood, old(row)) else old(row)
    {
      if read.reviewed || read.editedAt.Some? { return false; }
      var attempts := if forGood && read.attempts + 1 < DRAFT_MAX_ATTEMPTS then DRAFT_MAX_ATTEMPTS else read.attempts + 1;
      if row.reviewed || row.editedAt.Some? || row.attempts != read.attempts { return false; }
      row := row.(attempts := attempts, status := Some(if attempts >= DRAFT_MAX_ATTEMPTS then Failed else Pending));
      return true;
    }
  }

  // ---- The writes as values ----

  function Patched(c: Cleaning, read: Row, ch: Changes, now: int, row: Row): Row {
    Row(if TakesDraftTitle(c, read, ch) then DraftTitleOf(c, read, ch).value else TypedTitle(c, read, ch, row),
        row.manual || ch.title.Some? || TakesDraftTitle(c, read, ch),
        if ch.project.Some? then ch.project.value else if TakesDraftProject(read, ch) then DraftProjectOf(read, ch) else row.project,
        if ch.body.Some? then c.body(ch.body.value) else row.body,
        if ch.reviewed.Some? then ch.reviewed.value else row.reviewed,
        if ch.open.Some? then ch.open.value else row.open,
        if ch.open.None? then row.closedAt else if ch.open.value then None else Some(now),
        if ch.open.Some? then None else row.closedBy,
        if ch.draftTitle.Some? then OrNone(c.draftTitle(ch.draftTitle.value)) else row.draftTitle,
        if ch.draftBody.Some? then OrNone(c.draftBody(ch.draftBody.value)) else row.draftBody,
        if ch.draftProject.Some? then ch.draftProject.value else row.draftProject,
        if EditsDraft(ch) then Some(Ready)
        else if Redrafts(read, ch) then (if c.body(ch.body.value) != "" then Some(Pending) else None)
        else row.status,
        if Redrafts(read, ch) then 0 else row.attempts,
        if EditsDraft(ch) then Some(now) else row.editedAt,
        if CopiesDraft(read, ch) && read.copiedAt.None? then Some(now) else row.copiedAt,
        row.srcSha)
  }

  datatype Draft = Draft(title: string, body: string, project: Option<string>, srcSha: string)

  predicate DraftAccepted(c: Cleaning, read: Row, d: Draft, row: Row) {
    && !read.reviewed && read.editedAt.None? && d.srcSha == c.sha(read.body)
    && !row.reviewed && row.editedAt.None? && row.body == read.body
  }

  function WithDraft(c: Cleaning, read: Row, d: Draft, row: Row): Row {
    row.(draftTitle := OrNone(if read.manual then c.draftTitle(read.title) else c.draftTitle(d.title)),
         draftBody := OrNone(c.draftBody(d.body)),
         draftProject := if d.project.Some? then d.project else read.draftProject,
         status := Some(Ready), srcSha := Some(d.srcSha))
  }

  predicate AttemptCounts(read: Row, row: Row) {
    && !read.reviewed && read.editedAt.None?
    && !row.reviewed && row.editedAt.None? && row.attempts == read.attempts
  }

  function WithAttempt(read: Row, forGood: bool, row: Row): Row {
    var attempts := if forGood && read.attempts + 1 < DRAFT_MAX_ATTEMPTS then DRAFT_MAX_ATTEMPTS else read.attempts + 1;
    row.(attempts := attempts, status := Some(if attempts >= DRAFT_MAX_ATTEMPTS then Failed else Pending))
  }

  // ---- Interleavings ----

  datatype Op = Patch(ch: Changes, now: int) | MachineDraft(d: Draft) | BadResult(forGood: bool)

  /** A write step: the operation, and the moment of the run it had read. */
  datatype Write = Write(op: Op, readAt: nat)

  predicate Machine(op: Op) { !op.Patch? }

  function Written(c: Cleaning, read: Row, op: Op, row: Row): Row {
    match op
    case Patch(ch, now) => if PatchGuards(read, ch, row) then Patched(c, read, ch, now, row) else row
    case MachineDraft(d) => if DraftAccepted(c, read, d, row) then WithDraft(c, read, d, row) else row
    case BadResult(forGood) => if AttemptCounts(read, row) then WithAttempt(read, forGood, row) else row
  }

  /**
   The rows a run goes through. Each write acts on what its operation read at an earlier
   moment of the run, however long ago.
   */
  ghost predicate IsRun(c: Cleaning, rows: seq<Row>, writes: seq<Write>) {
    && |rows| == |writes| + 1
    && forall k: nat | k < |writes| :: Link(c, rows, writes, k)
  }

  ghost predicate Link(c: Cleaning, rows: seq<Row>, writes: seq<Write>, k: nat)
    requires |rows| == |writes| + 1 && k < |writes|
  {
    writes[k].readAt <= k && rows[k + 1] == Written(c, rows[writes[k].readAt], writes[k].op, rows[k])
  }

  // ---- What no machine write may touch ----

  /** All of the draft, its state and its count included. */
  predicate SameDraft(a: Row, b: Row) {
    && a.draftTitle == b.draftTitle && a.draftBody == b.draftBody && a.draftProject == b.draftProject
    && a.status == b.status && a.attempts == b.attempts && a.srcSha == b.srcSha && a.editedAt == b.editedAt
  }

  /** A machine write leaves an edited draft and a reviewed note alone, whatever it had read and when. */
  lemma MachineWritesKeepOut(c: Cleaning, read: Row, op: Op, row: Row)
    requires Machine(op) && (row.reviewed || row.editedAt.Some?)
    ensures Written(c, read, op, row) == row
  {
  }

  /** An edit is for ever: over any stretch of a run, an edited draft changes only in a PATCH that edits it. */
  lemma {:induction false} EditedDraftsAreHands(c: Cleaning, rows: seq<Row>, writes: seq<Write>, from: nat, end: nat)
    requires IsRun(c, rows, writes) && from <= end < |rows| && rows[from].editedAt.Some?
    requires forall k: nat | from <= k < end && writes[k].op.Patch? :: !EditsDraft(writes[k].op.ch)
    ensures rows[end].editedAt.Some? && SameDraft(rows[from], rows[end])
    decreases end
  {
    if from < end {
      EditedDraftsAreHands(c, rows, writes, from, end - 1);
      assert Link(c, rows, writes, end - 1);
    }
  }

  // ---- Where a stored draft comes from ----

  /** The stored hash is that of a body the note has had. */
  ghost predicate HashedFromThePast(c: Cleaning, rows: seq<Row>, k: nat)
    requires k < |rows|
  {
    rows[k].srcSha.Some? ==> exists j: nat :: j <= k && rows[k].srcSha == Some(c.sha(rows[j].body))
  }

  /** A machine draft that lands was made from the body it lands on. */
  lemma DraftsLandOnTheirBody(c: Cleaning, read: Row, d: Draft, row: Row)
    requires Written(c, read, MachineDraft(d), row) != row
    ensures var after := Written(c, read, MachineDraft(d), row);
      after.srcSha == Some(c.sha(after.body)) && after.body == row.body && after.status == Some(Ready)
  {
  }

  lemma {:induction false} StoredHashesAreOfThePast(c: Cleaning, rows: seq<Row>, writes: seq<Write>, k: nat)
    requires IsRun(c, rows, writes) && k < |rows| && rows[0].srcSha.None?
    ensures HashedFromThePast(c, rows, k)
  {
    if k > 0 {
      StoredHashesAreOfThePast(c, rows, writes, k - 1);
      assert Link(c, rows, writes, k - 1);
    }
  }

  /** An unedited draft that reads ready was stored by a machine, so its hash can be compared with the body. */
  predicate ReadyIsHashed(row: Row) { row.status == Some(Ready) && row.editedAt.None? ==> row.srcSha.Some? }

  lemma {:induction false} ReadyDraftsAreHashed(c: Cleaning, rows: seq<Row>, writes: seq<Write>, k: nat)
    requires IsRun(c, rows, writes) && k < |rows| && ReadyIsHashed(rows[0])
    ensures ReadyIsHashed(rows[k])
  {
    if k > 0 {
      ReadyDraftsAreHashed(c, rows, writes, k - 1);
      assert Link(c, rows, writes, k - 1);
    }
  }

  /** Of two bad results that had read the same count, one is counted. */
  lemma OneReadOneAttempt(c: Cleaning, read: Row, first: bool, second: bool, row: Row)
    requires Written(c, read, BadResult(first), row) != row
    ensures var once := Written(c, read, BadResult(first), row);
      once.attempts > row.attempts && Written(c, read, BadResult(second), once) == once
  {
  }

  // ---- What is filed is what was reviewed ----

  predicate InStep(row: Row) { row.draftTitle == Some(row.title) }

  /** A landed PATCH that takes the draft's title leaves the note titled as its stored draft, by hand for good. */
  lemma TakenTitlesAreTheDrafts(c: Cleaning, read: Row, ch: Changes, now: int, row: Row)
    requires PatchGuards(read, ch, row) && TakesDraftTitle(c, read, ch)
    ensures var after := Patched(c, read, ch, now, row);
      InStep(after) && after.manual && after.reviewed
  {
  }

  /**
   On a reviewed note in step with its draft, a draft-title edit keeps it in step exactly
   when the new title is not blank and either the edit had read the note reviewed, or it
   is the title the note already has.
   */
  lemma DraftEditStaysInStepExactly(c: Cleaning, read: Row, ch: Changes, now: int, row: Row)
    requires row.reviewed && InStep(row) && PatchGuards(read, ch, row)
    requires ch.title.None? && ch.draftTitle.Some? && ch.reviewed != Some(false)
    ensures var edit := c.draftTitle(ch.draftTitle.value);
      InStep(Patched(c, read, ch, now, row)) <==> edit != "" && (read.reviewed || edit == row.title)
  {
  }

  /**
   The failing half of that, as a run: an edit of the draft title is read, the note is
   reviewed, and the edit, which no guard of its own holds back, lands. The note is then
   filed under the old title while its draft shows the new one.
   */
  lemma AnEditCanMissTheReview(row: Row)
    requires !row.reviewed && row.draftTitle == Some("old") && row.status == Some(Ready) && !row.manual && row.editedAt.None?
    ensures var c := Cleaning(s => s, s => s, s => s, s => s, s => s);
      var none := Changes(None, None, None, None, None, None, None, None);
      var review, edit := Patch(none.(reviewed := Some(true)), 2), Patch(none.(draftTitle := Some("new")), 3);
      var reviewed := Written(c, row, review, row);
      var edited := Written(c, row, edit, reviewed);
      && IsRun(c, [row, reviewed, edited], [Write(review, 0), Write(edit, 0)])
      && edited.reviewed && edited.title == "old" && edited.draftTitle == Some("new")
  {
    var c := Cleaning(s => s, s => s, s => s, s => s, s => s);
    var none := Changes(None, None, None, None, None, None, None, None);
    var review, edit := Patch(none.(reviewed := Some(true)), 2), Patch(none.(draftTitle := Some("new")), 3);
    var rows := [row, Written(c, row, review, row), Written(c, row, edit, Written(c, row, review, row))];
    var writes := [Write(review, 0), Write(edit, 0)];
    assert Link(c, rows, writes, 0) && Link(c, rows, writes, 1);
  }

  /** A write that leaves a reviewed note's titles in step: any machine's, and a hand's that names no title,
      leaves the review ticked, and edits the draft title only to something, having read the note reviewed. */
  predicate KeepsStep(c: Cleaning, rows: seq<Row>, w: Write) {
    w.op.Patch? ==>
      && w.op.ch.title.None? && w.op.ch.reviewed != Some(false)
      && (w.op.ch.draftTitle.Some? ==>
            && c.draftTitle(w.op.ch.draftTitle.value) != ""
            && w.readAt < |rows| && rows[w.readAt].reviewed)
  }

  /** Over such writes a reviewed note goes on being titled as its draft is. */
  lemma {:induction false} ReviewedTitlesStayInStep(c: Cleaning, rows: seq<Row>, writes: seq<Write>, from: nat, end: nat)
    requires IsRun(c, rows, writes) && from <= end < |rows| && rows[from].reviewed && InStep(rows[from])
    requires forall k: nat | from <= k < end :: KeepsStep(c, rows, writes[k])
    ensures rows[end].reviewed && InStep(rows[end])
    decreases end
  {
    if from < end {
      ReviewedTitlesStayInStep(c, rows, writes, from, end - 1);
      assert Link(c, rows, writes, end - 1) && KeepsStep(c, rows, writes[end - 1]);
    }
  }
}
