/**
 What each step of the Inbox does and leaves alone, table by table, and what a fresh link
 comes to: the next full scan closes its note if the issue is closed already.
 */
module InboxSteps {
  import opened Wrappers
  import opened InboxRules
  import opened InboxBacklog
  import opened InboxMirror
  import opened InboxClosing
  import opened InboxSpelling

  // ---- A link ----

  /**
   A new link is in the table, open, whatever its issue is; the repo has no ETag, so that
   its next scan is a full one, and a row the issue had is off the board. A repeated link
   changes no state.
   */
  lemma LinkMeans(b: Board, id: NoteId, issue: Issue, now: int)
    requires id in b.notes
    ensures var after, key := Step(b, LinkIssue(id, issue, now)), LinkKey(id, issue);
      && key in after.links
      && (key !in b.links ==>
            && after.links[key] == Link(true, None, now)
            && issue.repo !in after.etags
            && after.notes[id] == b.notes[id].(updatedAt := now))
      && (key in b.links ==>
            && after.links[key].open == b.links[key].open && after.links[key].closedAt == b.links[key].closedAt
            && after.etags == b.etags && after.notes == b.notes)
      && (issue in b.rows ==> issue in after.rows && after.rows[issue].archivedAt.Some?
                              && after.rows[issue].open == b.rows[issue].open)
  {
  }

  lemma LinkLeavesTheRest(b: Board, id: NoteId, issue: Issue, now: int)
    ensures var after := Step(b, LinkIssue(id, issue, now));
      && after.lines == b.lines && after.notes.Keys == b.notes.Keys && after.rows.Keys == b.rows.Keys
      && (forall other | other in b.notes && other != id :: after.notes[other] == b.notes[other])
      && (forall l | l in b.links && l != LinkKey(id, issue) :: l in after.links && after.links[l] == b.links[l])
      && (forall l | l in after.links && l != LinkKey(id, issue) :: l in b.links)
      && (forall k | k in b.rows && k != issue :: after.rows[k] == b.rows[k])
      && (forall r | r in b.etags && r != issue.repo :: r in after.etags && after.etags[r] == b.etags[r])
      && (forall r | r in after.etags :: r in b.etags)
      && (id !in b.notes ==> after == b)
  {
  }

  // ---- Hands ----

  lemma DeleteMeans(b: Board, id: NoteId)
    ensures var after := Step(b, DeleteNote(id));
      && id !in after.notes
      && (id in b.notes ==> forall l | l in after.links :: l.note != id)
      && (forall other | other in b.notes && other != id :: other in after.notes && after.notes[other] == b.notes[other])
      && (forall other | other in after.notes :: other in b.notes)
      && (forall l | l in b.links && l.note != id :: l in after.links && after.links[l] == b.links[l])
      && (forall l | l in after.links :: l in b.links)
      && (id in b.notes ==> forall l | l in b.links && l.note == id :: l.issue.repo !in after.etags)
      && (forall r | r in b.etags && (forall l | l in b.links && l.note == id :: l.issue.repo != r) ::
            r in after.etags && after.etags[r] == b.etags[r])
      && after.rows == b.rows && after.lines == b.lines
  {
    var after := Step(b, DeleteNote(id));
    forall l | id in b.notes && l in b.links && l.note == id
      ensures l.issue.repo !in after.etags
    {
      assert l.issue.repo in ReposOf(b.links, id);
    }
  }

  /** A hand's close or reopen, a filing and a new note touch that note alone. */
  lemma HandsMean(b: Board, id: NoteId, reopen: bool, now: int)
    ensures var hand, filed := Step(b, SetStateByHand(id, reopen, now)), Step(b, FileToBacklog(id, now));
      var made := Step(b, CreateNote(id, now));
      && (id in b.notes ==>
            && hand == b.(notes := b.notes[id := b.notes[id].(open := reopen, closedBy := None, updatedAt := now,
                                                              closedAt := if reopen then None else Some(now))])
            && filed == b.(notes := b.notes[id := b.notes[id].(filed := true, updatedAt := now)])
            && made == b)
      && (id !in b.notes ==>
            hand == b && filed == b && made == b.(notes := b.notes[id := Note(true, None, None, false, 0, now)]))
  {
  }

  // ---- A scan ----

  /** What the scan does not change it does not stamp, and what it changes it stamps with its own time. */
  lemma ScanStampsWhatItChanges(b: Board, e: Event)
    requires e.CompleteScan?
    ensures var after := Step(b, e);
      && (forall l | l in b.links ::
            && l in after.links
            && (after.links[l].open == b.links[l].open ==> after.links[l] == b.links[l])
            && (after.links[l].open != b.links[l].open ==>
                  after.links[l] == Link(after.links[l].open, if after.links[l].open then None else Some(e.now), e.now)))
      && (forall id | id in b.notes ::
            && id in after.notes
            && (after.notes[id].open == b.notes[id].open ==> after.notes[id] == b.notes[id])
            && (after.notes[id].open != b.notes[id].open ==>
                  && after.notes[id].filed == b.notes[id].filed && after.notes[id].absent == b.notes[id].absent
                  && after.notes[id].updatedAt == e.now
                  && after.notes[id].closedAt == if after.notes[id].open then None else Some(e.now)))
      && after.lines == b.lines && after.notes.Keys == b.notes.Keys && after.links.Keys == b.links.Keys
  {
  }

  lemma ScanStampsRows(b: Board, e: Event, k: Issue)
    requires e.CompleteScan? && Tidy(b) && k in Step(b, e).rows
    ensures var after := Step(b, e).rows[k];
      && (k !in b.rows ==> after == MirrorRow(true, None, None, e.now))
      && (k in b.rows && after.open == b.rows[k].open && (after.archivedAt.None? <==> b.rows[k].archivedAt.None?) ==>
            after == b.rows[k])
      && (k in b.rows && after != b.rows[k] ==> after.updatedAt == e.now)
      && (k in b.rows && after.open != b.rows[k].open ==> after.closedAt == if after.open then None else Some(e.now))
      && (k in b.rows && after.open == b.rows[k].open ==> after.closedAt == b.rows[k].closedAt)
  {
    if k !in b.rows {
      assert k in NewIssues(b, e.repo, e.open);
    } else if k.repo == e.repo && Linked(b.links, k) {
      assert b.rows[k].archivedAt.Some?;
    }
  }

  /** A live row beside a link of its issue, left by an older board, goes off it when listed and is closed when not. */
  lemma DuplicatesAreRepaired(b: Board, e: Event, k: Issue)
    requires e.CompleteScan? && k in b.rows && k.repo == e.repo && Linked(b.links, k)
    ensures var was, after := b.rows[k], Get(Step(b, e).rows, k);
      && after.Some?
      && (was.archivedAt.Some? ==> after.value == was)
      && (was.archivedAt.None? && k.number in e.open ==> after.value == was.(archivedAt := Some(e.now), updatedAt := e.now))
      && (was.archivedAt.None? && k.number !in e.open ==>
            after.value == if was.open then was.(open := false, closedAt := Some(e.now), updatedAt := e.now) else was)
  {
  }

  /** What a full answer stores as the repo's ETag is the answer's own; no other repo's changes. */
  lemma ScanStoresItsEtag(b: Board, e: Event)
    requires e.CompleteScan?
    ensures var after := Step(b, e).etags;
      && (e.answered.Some? ==> e.repo in after && after[e.repo] == e.answered.value)
      && (forall r | r != e.repo :: (r in after <==> r in b.etags) && (r in after ==> after[r] == b.etags[r]))
  {
  }

  // ---- Watching and booting ----

  /** Exactly the live rows and the ETags of the repos no longer watched go. */
  lemma UnwatchMeans(b: Board, watched: set<Repo>, now: int)
    ensures var after := Step(b, StartSync(watched, now));
      && after.notes == b.notes && after.links == b.links && after.lines == b.lines && after.rows.Keys == b.rows.Keys
      && (forall k | k in b.rows ::
            if k.repo in watched || b.rows[k].archivedAt.Some? then after.rows[k] == b.rows[k]
            else after.rows[k] == b.rows[k].(archivedAt := Some(now), updatedAt := now))
      && (forall r :: r in after.etags <==> r in b.etags && r in watched)
      && (forall r | r in after.etags :: after.etags[r] == b.etags[r])
  {
  }

  /** A restart takes off the board the rows of the issues then linked, and no other; every next scan is a full one. */
  lemma BootMeans(b: Board, spellings: Spellings, order: seq<LinkKey>)
    ensures var after := Step(b, Boot(spellings, order));
      && after.notes == b.notes && after.lines == b.lines && after.etags == map[] && after.rows.Keys == b.rows.Keys
      && (forall k | k in b.rows ::
            && after.rows[k].open == b.rows[k].open && after.rows[k].closedAt == b.rows[k].closedAt
            && after.rows[k].updatedAt == b.rows[k].updatedAt
            && ((exists l | l in after.links :: l.issue == k) ==> after.rows[k].archivedAt.Some?)
            && ((forall l | l in after.links :: l.issue != k) ==> after.rows[k] == b.rows[k])
            && (b.rows[k].archivedAt.Some? ==> after.rows[k] == b.rows[k]))
  {
  }

  // ---- A push ----

  predicate NoteDated(n: Note) { n.open <==> n.closedAt.None? }

  lemma PushedNote(n: Note, before: Status, after: Status, now: int)
    ensures var m := NoteAfterPush(n, before, after, now);
      m.filed == n.filed && (!n.filed ==> m == n) && (NoteDated(n) ==> NoteDated(m))
  {
  }

  /** What a push does to one note: nothing unless it is of the whole file and the note is filed. */
  lemma NoteOverPush(b: Board, e: Event, id: NoteId)
    requires e.BacklogPush? && id in b.notes
    ensures var n, m := b.notes[id], Get(Step(b, e).notes, id);
      && m.Some? && m.value.filed == n.filed
      && (!e.complete || !n.filed ==> m.value == n)
      && (NoteDated(n) ==> NoteDated(m.value))
  {
    NoteAfterPushStep(b, e, id);
    PushedNote(b.notes[id], StatusOf(b.lines, TagOf(id)), StatusOf(Step(b, e).lines, TagOf(id)), e.now);
  }

  /** Nothing but lines and notes changes in a push. */
  lemma PushLeavesTheRest(b: Board, e: Event)
    requires e.BacklogPush?
    ensures var after := Step(b, e);
      && after.links == b.links && after.rows == b.rows && after.etags == b.etags && after.notes.Keys == b.notes.Keys
  {
  }

  /** A line that left the file is kept as it was, off the board. */
  lemma LinesThatLeft(b: Board, e: Event, k: Key)
    requires e.BacklogPush? && k in b.lines && k !in KeysOf(e.entries)
    ensures var after := Step(b, e).lines;
      && k in after && after[k].text == b.lines[k].text && after[k].project == b.lines[k].project
      && after[k].open == b.lines[k].open && after[k].closedAt == b.lines[k].closedAt
      && (!e.complete || b.lines[k].archivedAt.Some? ==> after[k] == b.lines[k])
      && (e.complete && b.lines[k].archivedAt.None? ==> after[k].archivedAt == Some(e.now) && after[k].updatedAt == e.now)
  {
    SeenKeys(e.entries, k);
    UntouchedKeys(b.lines, e.entries, e.now, k);
  }

  /**
   A push writes a line exactly when something of it changed, and stamps it then: a new text,
   a new project, a line back on the board. A line that stays done keeps the time it was, and
   an entry that names no project leaves the line's alone.
   */
  lemma LineMeans(l: Line, e: Entry, now: int)
    ensures var after := LineAfterPush(Some(l), e, now);
      && (after == l <==> l.text == e.text && l.archivedAt.None? && l.open == !e.text.done
                          && (e.project.None? || e.project == l.project))
      && (after != l ==> after.updatedAt == now)
      && after.text == e.text && after.open == !e.text.done && after.archivedAt.None?
      && after.project == (if e.project.Some? then e.project else l.project)
      && (!l.open && e.text.done ==> after.closedAt == l.closedAt)
      && (l.open && l.closedAt.None? && e.text.done ==> after.closedAt == Some(now))
  {
  }

  /** A line that was not there is dated now if it is done already. */
  lemma NewLineMeans(e: Entry, now: int)
    ensures var after := LineAfterPush(None, e, now);
      && after.text == e.text && after.project == e.project && after.archivedAt.None? && after.updatedAt == now
      && (after.open <==> !e.text.done) && (after.closedAt == Some(now) <==> e.text.done)
  {
  }

  // ---- closed_at ----

  /** closed_at is set exactly where something is closed. */
  ghost predicate Dated(b: Board) {
    && LinksDated(b.links)
    && RowsDated(b.rows)
    && LinesDated(b.lines)
    && (forall id | id in b.notes :: NoteDated(b.notes[id]))
  }

  ghost predicate LinksDated(links: map<LinkKey, Link>) { forall l | l in links :: links[l].open <==> links[l].closedAt.None? }

  ghost predicate RowsDated(rows: map<Issue, MirrorRow>) { forall k | k in rows :: rows[k].open <==> rows[k].closedAt.None? }

  ghost predicate LinesDated(lines: map<Key, Line>) { forall k | k in lines :: lines[k].open <==> lines[k].closedAt.None? }

  lemma LineIsDated(stored: Option<Line>, e: Entry, now: int)
    requires stored.Some? ==> (stored.value.open <==> stored.value.closedAt.None?)
    ensures LineAfterPush(stored, e, now).open <==> LineAfterPush(stored, e, now).closedAt.None?
  {
  }

  lemma {:induction false} UpsertedAreDated(lines: map<Key, Line>, entries: seq<Entry>, now: int)
    requires LinesDated(lines)
    ensures LinesDated(Upserted(lines, entries, now))
  {
    if entries != [] {
      var e, before := entries[|entries| - 1], Upserted(lines, entries[..|entries| - 1], now);
      UpsertedAreDated(lines, entries[..|entries| - 1], now);
      LineIsDated(Get(before, e.key), e, now);
    }
  }

  lemma {:induction false} CanonicalisedAreDated(links: map<LinkKey, Link>, spellings: Spellings, order: seq<LinkKey>)
    requires LinksDated(links)
    ensures LinksDated(Canonicalised(links, spellings, order))
  {
    if order != [] {
      CanonicalisedAreDated(links, spellings, order[..|order| - 1]);
    }
  }

  lemma ScanKeepsDates(b: Board, e: Event)
    requires e.CompleteScan? && Dated(b) && Tidy(b)
    ensures Dated(Step(b, e))
  {
    ScannedLinksAreDated(b, e);
    ScannedRowsAreDated(b, e);
  }

  lemma ScannedLinksAreDated(b: Board, e: Event)
    requires e.CompleteScan? && LinksDated(b.links) && forall id | id in b.notes :: NoteDated(b.notes[id])
    ensures LinksDated(Step(b, e).links) && forall id | id in Step(b, e).notes :: NoteDated(Step(b, e).notes[id])
  {
    ScanStampsWhatItChanges(b, e);
  }

  lemma ScannedRowsAreDated(b: Board, e: Event)
    requires e.CompleteScan? && Tidy(b) && RowsDated(b.rows)
    ensures RowsDated(Step(b, e).rows)
  {
    forall k | k in Step(b, e).rows
      ensures Step(b, e).rows[k].open <==> Step(b, e).rows[k].closedAt.None?
    {
      ScanStampsRows(b, e, k);
    }
  }

  lemma PushedLinesAreDated(lines: map<Key, Line>, entries: seq<Entry>, complete: bool, now: int)
    requires LinesDated(lines)
    ensures LinesDated(PushedLines(lines, entries, complete, now))
  {
    UpsertedAreDated(lines, entries, now);
  }

  lemma PushKeepsDates(b: Board, e: Event)
    requires e.BacklogPush? && Dated(b)
    ensures Dated(Step(b, e))
  {
    PushedLinesAreDated(b.lines, e.entries, e.complete, e.now);
    PushLeavesTheRest(b, e);
    forall id | id in b.notes
      ensures id in Step(b, e).notes && NoteDated(Step(b, e).notes[id])
    {
      NoteOverPush(b, e, id);
    }
  }

  lemma BootKeepsDates(b: Board, e: Event)
    requires e.Boot? && Dated(b)
    ensures Dated(Step(b, e))
  {
    CanonicalisedAreDated(b.links, e.spellings, e.order);
    BootMeans(b, e.spellings, e.order);
  }

  lemma LinkKeepsDates(b: Board, e: Event)
    requires e.LinkIssue? && Dated(b)
    ensures Dated(Step(b, e))
  {
  }

  lemma DeleteKeepsDates(b: Board, e: Event)
    requires e.DeleteNote? && Dated(b)
    ensures Dated(Step(b, e))
  {
  }

  lemma UnwatchKeepsDates(b: Board, e: Event)
    requires e.StartSync? && Dated(b)
    ensures Dated(Step(b, e))
  {
  }

  lemma StepKeepsDates(b: Board, e: Event)
    requires Dated(b) && Tidy(b)
    ensures Dated(Step(b, e))
  {
    match e
    case CompleteScan(_, _, _, _, _) => ScanKeepsDates(b, e);
    case BacklogPush(_, _, _) => PushKeepsDates(b, e);
    case Boot(_, _) => BootKeepsDates(b, e);
    case LinkIssue(_, _, _) => LinkKeepsDates(b, e);
    case DeleteNote(_) => DeleteKeepsDates(b, e);
    case StartSync(_, _) => UnwatchKeepsDates(b, e);
    case _ =>
  }

  /** In every run closed_at says whether a thing is closed: notes, links, mirrored issues and lines alike. */
  lemma {:induction false} ReachableIsDated(run: seq<Event>)
    ensures Dated(After(run))
  {
    if run != [] {
      ReachableIsDated(run[..|run| - 1]);
      ReachableIsTidy(run[..|run| - 1]);
      StepKeepsDates(After(run[..|run| - 1]), run[|run| - 1]);
    }
  }

  // ---- What a fresh link comes to ----

  ghost predicate HasOpenLink(b: Board, l: LinkKey) { l in b.links && b.links[l].open }

  /** A step that scans neither the link's repo, nor deletes its note, nor respells it. */
  predicate LeavesTheLink(e: Event, l: LinkKey) {
    && (e.CompleteScan? ==> e.repo != l.issue.repo)
    && (e.DeleteNote? ==> e.id != l.note)
    && (e.Boot? ==> Settled(e.spellings) && Respelt(e.spellings, l) == l)
  }

  lemma OpenLinkStays(b: Board, e: Event, l: LinkKey)
    requires HasOpenLink(b, l) && LeavesTheLink(e, l)
    ensures HasOpenLink(Step(b, e), l)
  {
    match e
    case Boot(spellings, order) =>
      StandsAfter(b.links, spellings, order, l);
      var came := Arrived(b.links, spellings, l, order);
      assert l in came;
      if k :| k in came && k != l {
      } else {
        assert came == {l};
      }
    case _ =>
  }

  lemma {:induction false} OpenLinkStaysOver(from: seq<Event>, later: seq<Event>, l: LinkKey)
    requires HasOpenLink(After(from), l) && forall e | e in later :: LeavesTheLink(e, l)
    ensures HasOpenLink(After(from + later), l)
    decreases |later|
  {
    if later == [] {
      assert from + later == from;
    } else {
      OpenLinkStays(After(from), later[0], l);
      AfterOneMore(from, later[0]);
      OpenLinkStaysOver(from + [later[0]], later[1..], l);
      assert from + later == from + [later[0]] + later[1..];
    }
  }

  /** The scan leaves none of the note's links open but `l`'s, which it does not list. */
  ghost predicate LastOpenLink(b: Board, e: Event, l: LinkKey)
    requires e.CompleteScan?
  {
    && e.repo == l.issue.repo && l.issue.number !in e.open
    && forall k | k in b.links && k.note == l.note && k != l ::
         if k.issue.repo == e.repo then k.issue.number !in e.open else !b.links[k].open
  }

  /**
   A LINK TO A CLOSED ISSUE CLOSES ITS NOTE. In every run: once an open note is linked to an
   issue, whatever happens in between that leaves the note open and the link in place, the
   next complete scan of the repo that does not list the issue closes the note, by the
   issues rule, if all its other issues are closed by then.
   */
  lemma LinkedThenClosed(run: seq<Event>, id: NoteId, issue: Issue, now: int, later: seq<Event>, scan: Event)
    requires id in After(run).notes && LinkKey(id, issue) !in After(run).links
    requires forall e | e in later :: LeavesTheLink(e, LinkKey(id, issue))
    requires var b := After(run + [LinkIssue(id, issue, now)] + later);
      IsOpen(b, id) && scan.CompleteScan? && LastOpenLink(b, scan, LinkKey(id, issue))
    ensures var note := After(run + [LinkIssue(id, issue, now)] + later + [scan]).notes;
      id in note && !note[id].open && note[id].closedBy == Some(Issues)
  {
    var linked, l := run + [LinkIssue(id, issue, now)], LinkKey(id, issue);
    AfterOneMore(run, LinkIssue(id, issue, now));
    LinkMeans(After(run), id, issue, now);
    OpenLinkStaysOver(linked, later, l);
    AfterOneMore(linked + later, scan);
    var b := After(linked + later);
    NoteAfterScanStep(b, scan, id);
    ClosedExactlyOnAnEdge(b, scan, id);
    assert l in b.links && l.note == id && l.issue.repo == scan.repo && b.links[l].open && l.issue.number !in scan.open;
    assert IssuesClose(b, scan, id);
  }
}
