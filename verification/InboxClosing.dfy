/**
 Who closes a note: the issues rule, the backlog rule or a hand, over whole runs in
 which they interleave freely.
 */
module InboxClosing {
  import opened Wrappers
  import opened InboxRules
  import opened InboxBacklog
  import opened InboxMirror
  import InboxSpelling

  /** Who last set a note's state. */
  datatype Writer = Nobody | Hand | TheRule(rule: Rule)

  predicate IsHandChange(e: Event, id: NoteId) { e.SetStateByHand? && e.id == id }

  /** The rule a step runs, if it runs one. */
  function RuleOf(e: Event): Option<Rule> {
    match e
    case CompleteScan(_, _, _, _, _) => Some(Issues)
    case BacklogPush(_, complete, _) => if complete then Some(Backlog) else None
    case _ => None
  }

  /** The last step of a run that set the note's state: by hand, even to what it was, or a rule by changing it. */
  ghost function LastWriter(run: seq<Event>, id: NoteId): Writer {
    if run == [] then Nobody
    else
      var e, earlier := run[|run| - 1], run[..|run| - 1];
      var before, after := After(earlier), After(run);
      if id !in before.notes || id !in after.notes then Nobody
      else if IsHandChange(e, id) then Hand
      else if RuleOf(e).Some? && before.notes[id].open != after.notes[id].open then TheRule(RuleOf(e).value)
      else LastWriter(earlier, id)
  }

  /** What a note's columns say about its last writer. */
  predicate Owned(n: Note, writer: Writer) {
    && (n.open ==> n.closedBy.None? && n.closedAt.None?)
    && (!n.open ==> n.closedAt.Some?)
    && (!n.open ==> writer == (if n.closedBy.Some? then TheRule(n.closedBy.value) else Hand))
  }

  // ---- What closes and reopens a note in one step ----

  /** The issues this scan lists, or does not, close the note: one of its open links is listed no more, and none is left open. */
  ghost predicate IssuesClose(b: Board, e: Event, id: NoteId) {
    && e.CompleteScan?
    && (exists l | l in b.links :: l.note == id && l.issue.repo == e.repo && b.links[l].open && l.issue.number !in e.open)
    && (forall l | l in b.links && l.note == id ::
          if l.issue.repo == e.repo then l.issue.number !in e.open else !b.links[l].open)
  }

  /** A closed link of the note is listed again. */
  ghost predicate IssuesReopen(b: Board, e: Event, id: NoteId) {
    && e.CompleteScan?
    && exists l | l in b.links :: l.note == id && l.issue.repo == e.repo && !b.links[l].open && l.issue.number in e.open
  }

  /**
   The file of this push closes the filed note: all its lines are done, which they were
   not, or it has none for the second complete push in a row.
   */
  ghost predicate FileCloses(b: Board, e: Event, id: NoteId)
    requires id in b.notes
  {
    && e.BacklogPush? && e.complete && b.notes[id].filed
    && if HasLine(e.entries, TagOf(id))
       then !HasOpenLine(e.entries, TagOf(id)) && StatusOf(b.lines, TagOf(id)) != DoneLines
       else b.notes[id].absent == 1
  }

  /** The file of this push has an open line of the filed note. */
  ghost predicate FileReopens(b: Board, e: Event, id: NoteId)
    requires id in b.notes
  {
    e.BacklogPush? && e.complete && b.notes[id].filed && HasOpenLine(e.entries, TagOf(id))
  }

  ghost predicate HandCloses(e: Event, id: NoteId) { IsHandChange(e, id) && !e.reopen }

  lemma ScanEdges(b: Board, e: Event, id: NoteId)
    requires e.CompleteScan?
    ensures var after := Step(b, e).links;
      && (ClosingEdge(b.links, after, id) && AllLinksClosed(after, id) <==> IssuesClose(b, e, id))
      && (OpeningEdge(b.links, after, id) <==> IssuesReopen(b, e, id))
      && (OpeningEdge(b.links, after, id) ==> !AllLinksClosed(after, id))
  {
    var after := Step(b, e).links;
    assert after.Keys == b.links.Keys;
    forall l | l in b.links
      ensures after[l].open == if l.issue.repo == e.repo then l.issue.number in e.open else b.links[l].open
    {
    }
    if IssuesClose(b, e, id) {
      var l :| l in b.links && l.note == id && l.issue.repo == e.repo && b.links[l].open && l.issue.number !in e.open;
      assert l in after;
    }
  }

  lemma FileEdges(b: Board, e: Event, tag: Tag)
    requires e.BacklogPush? && e.complete
    ensures var s := StatusOf(Step(b, e).lines, tag);
      && (s == OpenLine <==> HasOpenLine(e.entries, tag))
      && (Present(s) <==> HasLine(e.entries, tag))
  {
    CompletePushShowsTheFile(b.lines, e.entries, e.now);
    StatusIsTheFile(Step(b, e).lines, e.entries, tag);
  }

  lemma NoteAfterScanStep(b: Board, e: Event, id: NoteId)
    requires e.CompleteScan? && id in b.notes
    ensures id in Step(b, e).notes
    ensures Step(b, e).notes[id] == if IssuesReopen(b, e, id) then NoteAfterScan(b.notes[id], false, true, false, e.now)
                                    else NoteAfterScan(b.notes[id], IssuesClose(b, e, id), false, true, e.now)
  {
    ScanEdges(b, e, id);
  }

  lemma NoteAfterPushStep(b: Board, e: Event, id: NoteId)
    requires e.BacklogPush? && id in b.notes
    ensures id in Step(b, e).notes
    ensures Step(b, e).notes[id] == if !e.complete then b.notes[id]
      else NoteAfterPush(b.notes[id], StatusOf(b.lines, TagOf(id)), StatusOf(Step(b, e).lines, TagOf(id)), e.now)
  {
  }

  /** Steps that run no rule and are no hand change leave a note's state and its count alone. */
  lemma NoteAfterOther(b: Board, e: Event, id: NoteId)
    requires !e.CompleteScan? && !e.BacklogPush? && !IsHandChange(e, id) && id in b.notes && id in Step(b, e).notes
    ensures var n, m := b.notes[id], Step(b, e).notes[id];
      m.open == n.open && m.closedBy == n.closedBy && m.closedAt == n.closedAt && m.absent == n.absent
  {
  }

  /**
   A step closes an open note exactly when a hand does, or the issues a scan lists close
   it, or the file of a push does; and its closed_by says which.
   */
  lemma ClosedExactlyOnAnEdge(b: Board, e: Event, id: NoteId)
    requires id in b.notes && id in Step(b, e).notes && b.notes[id].open
    ensures !Step(b, e).notes[id].open <==> HandCloses(e, id) || IssuesClose(b, e, id) || FileCloses(b, e, id)
    ensures !Step(b, e).notes[id].open ==>
      (Step(b, e).notes[id].closedBy
       == (if IsHandChange(e, id) then None else if e.CompleteScan? then Some(Issues) else Some(Backlog)))
  {
    if e.CompleteScan? {
      NoteAfterScanStep(b, e, id);
    } else if e.BacklogPush? {
      NoteAfterPushStep(b, e, id);
      if e.complete {
        FileEdges(b, e, TagOf(id));
      }
    } else if !IsHandChange(e, id) {
      NoteAfterOther(b, e, id);
    }
  }

  /**
   A step reopens a closed note exactly when a hand does, or the issues rule closed it and
   a scan lists one of its issues again, or the backlog rule did and the file of a
   complete push has an open line of it.
   */
  lemma ReopenedExactlyByItsOwner(b: Board, e: Event, id: NoteId)
    requires id in b.notes && id in Step(b, e).notes && !b.notes[id].open
    ensures Step(b, e).notes[id].open <==>
      (|| (IsHandChange(e, id) && e.reopen)
       || (b.notes[id].closedBy == Some(Issues) && IssuesReopen(b, e, id))
       || (b.notes[id].closedBy == Some(Backlog) && FileReopens(b, e, id)))
  {
    if e.CompleteScan? {
      NoteAfterScanStep(b, e, id);
    } else if e.BacklogPush? {
      NoteAfterPushStep(b, e, id);
      if e.complete {
        FileEdges(b, e, TagOf(id));
      }
    } else if !IsHandChange(e, id) {
      NoteAfterOther(b, e, id);
    }
  }

  // ---- Over whole runs ----

  lemma ScanKeepsOwned(n: Note, closing: bool, opening: bool, allClosed: bool, now: int, writer: Writer)
    requires Owned(n, writer)
    ensures var m := NoteAfterScan(n, closing, opening, allClosed, now);
      Owned(m, if n.open != m.open then TheRule(Issues) else writer)
  {
  }

  lemma PushKeepsOwned(n: Note, before: Status, after: Status, now: int, writer: Writer)
    requires Owned(n, writer)
    ensures var m := NoteAfterPush(n, before, after, now);
      Owned(m, if n.open != m.open then TheRule(Backlog) else writer)
  {
  }

  /** One step keeps the columns true to the last writer. */
  lemma StepKeepsOwned(b: Board, e: Event, id: NoteId, writer: Writer)
    requires id in b.notes && id in Step(b, e).notes && Owned(b.notes[id], writer)
    ensures Owned(Step(b, e).notes[id],
                  if IsHandChange(e, id) then Hand
                  else if RuleOf(e).Some? && b.notes[id].open != Step(b, e).notes[id].open then TheRule(RuleOf(e).value)
                  else writer)
  {
    if e.CompleteScan? {
      NoteAfterScanStep(b, e, id);
      if IssuesReopen(b, e, id) {
        ScanKeepsOwned(b.notes[id], false, true, false, e.now, writer);
      } else {
        ScanKeepsOwned(b.notes[id], IssuesClose(b, e, id), false, true, e.now, writer);
      }
    } else if e.BacklogPush? {
      NoteAfterPushStep(b, e, id);
      PushKeepsOwned(b.notes[id], StatusOf(b.lines, TagOf(id)), StatusOf(Step(b, e).lines, TagOf(id)), e.now, writer);
    } else if !IsHandChange(e, id) {
      NoteAfterOther(b, e, id);
    }
  }

  lemma NewNotesAreOpen(b: Board, e: Event, id: NoteId)
    requires id !in b.notes && id in Step(b, e).notes
    ensures Owned(Step(b, e).notes[id], Nobody) && !Step(b, e).notes[id].filed && Step(b, e).notes[id].absent == 0
  {
  }

  /**
   OWNERSHIP. In every interleaving an open note has no closed_by and no closed_at, and
   a closed one's closed_by names the rule whose change was the last, or nothing when
   that was a hand.
   */
  lemma {:induction false} ClosedByNamesTheLastWriter(run: seq<Event>, id: NoteId)
    requires id in After(run).notes
    ensures Owned(After(run).notes[id], LastWriter(run, id))
  {
    if run == [] {
    } else {
      var e, earlier := run[|run| - 1], run[..|run| - 1];
      if id in After(earlier).notes {
        ClosedByNamesTheLastWriter(earlier, id);
        StepKeepsOwned(After(earlier), e, id, LastWriter(earlier, id));
      } else {
        NewNotesAreOpen(After(earlier), e, id);
      }
    }
  }

  /** A rule reopens a note only when that same rule made the note's latest change of state. */
  lemma RulesReopenTheirOwn(run: seq<Event>, e: Event, id: NoteId)
    requires id in After(run).notes && id in Step(After(run), e).notes
    requires !After(run).notes[id].open && Step(After(run), e).notes[id].open && !IsHandChange(e, id)
    ensures RuleOf(e).Some? && LastWriter(run, id) == TheRule(RuleOf(e).value)
  {
    ClosedByNamesTheLastWriter(run, id);
    ReopenedExactlyByItsOwner(After(run), e, id);
  }

  ghost predicate IsOpen(b: Board, id: NoteId) { id in b.notes && b.notes[id].open }

  // ---- How long a note stays open ----

  /** One of the three edges closes the note. */
  ghost predicate Closes(b: Board, e: Event, id: NoteId) {
    id in b.notes && (HandCloses(e, id) || IssuesClose(b, e, id) || FileCloses(b, e, id))
  }

  predicate Deletes(e: Event, id: NoteId) { e.DeleteNote? && e.id == id }

  lemma OpenAfterOneStep(b: Board, e: Event, id: NoteId)
    requires IsOpen(b, id)
    ensures IsOpen(Step(b, e), id) <==> !Closes(b, e, id) && !Deletes(e, id)
  {
    if !Deletes(e, id) {
      NotesStay(b, e, id);
      ClosedExactlyOnAnEdge(b, e, id);
    }
  }

  lemma NotesStay(b: Board, e: Event, id: NoteId)
    requires id in b.notes && !Deletes(e, id)
    ensures id in Step(b, e).notes
  {
    if e.CompleteScan? {
      NoteAfterScanStep(b, e, id);
    } else if e.BacklogPush? {
      NoteAfterPushStep(b, e, id);
    }
  }

  /** The board before the k-th of the later steps, or after them all. */
  ghost function At(from: seq<Event>, later: seq<Event>, k: int): Board
    requires 0 <= k <= |later|
  {
    After(from + later[..k])
  }

  lemma AtStepsOn(from: seq<Event>, later: seq<Event>, k: int)
    requires 0 <= k < |later|
    ensures At(from, later, k + 1) == Step(At(from, later, k), later[k])
  {
    assert from + later[..k + 1] == (from + later[..k]) + [later[k]];
    AfterOneMore(from + later[..k], later[k]);
  }

  /** The k-th of the later steps neither closes the note on an edge nor deletes it. */
  ghost predicate LeavesItOpen(from: seq<Event>, later: seq<Event>, id: NoteId, k: int)
    requires 0 <= k < |later|
  {
    !Closes(At(from, later, k), later[k], id) && !Deletes(later[k], id)
  }

  lemma OpenAtTheNext(from: seq<Event>, later: seq<Event>, id: NoteId, k: int)
    requires 0 <= k < |later|
    ensures IsOpen(At(from, later, k), id) ==> (IsOpen(At(from, later, k + 1), id) <==> LeavesItOpen(from, later, id, k))
  {
    AtStepsOn(from, later, k);
    if IsOpen(At(from, later, k), id) {
      OpenAfterOneStep(At(from, later, k), later[k], id);
    }
  }

  /**
   A note that is open, by a hand or otherwise, stays open through whatever follows
   exactly as long as no step closes it on one of the three edges, or deletes it.
   */
  lemma {:induction false} StaysOpenExactly(from: seq<Event>, later: seq<Event>, id: NoteId, upTo: nat)
    requires IsOpen(After(from), id) && upTo <= |later|
    ensures (forall k | 0 <= k <= upTo :: IsOpen(At(from, later, k), id))
       <==> (forall k | 0 <= k < upTo :: LeavesItOpen(from, later, id, k))
  {
    assert from + later[..0] == from;
    if upTo > 0 {
      StaysOpenExactly(from, later, id, upTo - 1);
      OpenAtTheNext(from, later, id, upTo - 1);
    }
  }

  /** A note that was open and is closed later was closed on one of the edges, while open, by a step between. */
  lemma {:induction false} ClosedLaterHasItsEdge(from: seq<Event>, later: seq<Event>, id: NoteId, upTo: nat) returns (k: nat)
    requires IsOpen(After(from), id) && upTo <= |later|
    requires id in At(from, later, upTo).notes && !At(from, later, upTo).notes[id].open
    ensures k < upTo && IsOpen(At(from, later, k), id) && Closes(At(from, later, k), later[k], id)
  {
    assert from + later[..0] == from;
    k := upTo - 1;
    AtStepsOn(from, later, k);
    var b := At(from, later, k);
    if IsOpen(b, id) {
      OpenAfterOneStep(b, later[k], id);
    } else {
      if id !in b.notes {
        NewNotesAreOpen(b, later[k], id);
      }
      k := ClosedLaterHasItsEdge(from, later, id, k);
    }
  }

  // ---- A hand reopen sticks ----

  /**
   What upstream goes on saying about a note while nothing about it changes there, and the
   keys its lines go by in the mirror and in the files.
   */
  datatype Standing = Standing(issues: set<Issue>, filed: bool, hasLine: bool, keys: set<Key>)

  /**
   A step that brings no news of the note: no hand closes, deletes, files or links it
   anew, its issues stay out of every listing, no restart respells its links, and the file
   of every push goes on saying its line is done, or goes on not having one; a push that
   is not of the whole file may also say nothing of the line.
   */
  ghost predicate NoNews(e: Event, id: NoteId, s: Standing) {
    match e
    case DeleteNote(other) => other != id
    case SetStateByHand(other, reopen, _) => other == id ==> reopen
    case FileToBacklog(other, _) => other == id ==> s.filed
    case LinkIssue(other, issue, _) => other == id ==> issue in s.issues
    case CompleteScan(repo, open, _, _, _) => forall issue | issue in s.issues && issue.repo == repo :: issue.number !in open
    case BacklogPush(entries, complete, _) => s.filed ==> QuietPush(entries, complete, TagOf(id), s)
    case Boot(spellings, _) => forall issue | issue in s.issues :: issue.repo in spellings ==> spellings[issue.repo] == issue.repo
    case _ => true
  }

  /** The push says of the tag's lines what was said before. */
  ghost predicate QuietPush(entries: seq<Entry>, complete: bool, tag: Tag, s: Standing) {
    if !s.hasLine then !HasLine(entries, tag)
    else
      && !HasOpenLine(entries, tag)
      && (forall i | TaggedEntry(entries, i, tag) :: entries[i].key in s.keys)
      && (HasLine(entries, tag) || (!complete && KeysOf(entries) !! s.keys))
  }

  /** The board says of the note what upstream says: its issues are closed, and its line is done or long gone. */
  ghost predicate InStanding(b: Board, id: NoteId, s: Standing) {
    && id in b.notes && b.notes[id].filed == s.filed
    && (forall l | l in b.links && l.note == id :: l.issue in s.issues && !b.links[l].open)
    && (forall issue | issue in s.issues :: LinkKey(id, issue) in b.links)
    && (s.filed ==> if s.hasLine
                    then StatusOf(b.lines, TagOf(id)) == DoneLines && LinesGoBy(b.lines, TagOf(id), s.keys)
                    else !Present(StatusOf(b.lines, TagOf(id))) && b.notes[id].absent == BACKLOG_ABSENT_PUSHES)
  }

  ghost predicate LinesGoBy(lines: map<Key, Line>, tag: Tag, keys: set<Key>) {
    forall k | k in lines && LiveTagged(lines, k, tag) :: k in keys
  }

  lemma QuietPushKeepsTheLines(b: Board, e: Event, id: NoteId, s: Standing)
    requires e.BacklogPush? && QuietPush(e.entries, e.complete, TagOf(id), s) && s.hasLine
    requires StatusOf(b.lines, TagOf(id)) == DoneLines && LinesGoBy(b.lines, TagOf(id), s.keys)
    ensures StatusOf(Step(b, e).lines, TagOf(id)) == DoneLines && LinesGoBy(Step(b, e).lines, TagOf(id), s.keys)
  {
    var tag, after := TagOf(id), Step(b, e).lines;
    forall k | k in after && LiveTagged(after, k, tag)
      ensures k in s.keys
    {
      PushedLineIsTagged(b.lines, e.entries, e.complete, e.now, k, tag);
    }
    if HasLine(e.entries, tag) {
      QuietPushKeepsTheStatus(b.lines, e.entries, e.complete, e.now, tag);
    } else {
      UnmentionedLinesStay(b.lines, e.entries, e.now, tag);
    }
  }

  lemma ScanKeepsStanding(b: Board, e: Event, id: NoteId, s: Standing)
    requires InStanding(b, id, s) && NoNews(e, id, s) && e.CompleteScan? && IsOpen(b, id)
    ensures InStanding(Step(b, e), id, s) && IsOpen(Step(b, e), id)
  {
    ScanEdges(b, e, id);
    NoteAfterScanStep(b, e, id);
  }

  lemma PushKeepsStanding(b: Board, e: Event, id: NoteId, s: Standing)
    requires InStanding(b, id, s) && NoNews(e, id, s) && e.BacklogPush? && IsOpen(b, id)
    ensures InStanding(Step(b, e), id, s) && IsOpen(Step(b, e), id)
  {
    if s.filed && s.hasLine {
      QuietPushKeepsTheLines(b, e, id, s);
    } else {
      QuietPushKeepsTheStatus(b.lines, e.entries, e.complete, e.now, TagOf(id));
    }
    NoteAfterPushStep(b, e, id);
  }

  lemma BootKeepsStanding(b: Board, e: Event, id: NoteId, s: Standing)
    requires InStanding(b, id, s) && NoNews(e, id, s) && e.Boot? && IsOpen(b, id)
    ensures InStanding(Step(b, e), id, s) && IsOpen(Step(b, e), id)
  {
    forall l | l in b.links && l.note == id
      ensures Respelt(e.spellings, l) == l
    {
      assert l.issue in s.issues;
    }
    forall l: LinkKey | l.note == id
      ensures l in Step(b, e).links <==> l in b.links
      ensures l in b.links ==> Step(b, e).links[l] == b.links[l]
    {
      InboxSpelling.WatchedLinksStay(b.links, e.spellings, e.order, id, l);
    }
  }

  lemma LinkKeepsStanding(b: Board, e: Event, id: NoteId, s: Standing)
    requires InStanding(b, id, s) && NoNews(e, id, s) && (e.LinkIssue? || e.DeleteNote?) && IsOpen(b, id)
    ensures InStanding(Step(b, e), id, s) && IsOpen(Step(b, e), id)
  {
  }

  lemma NoNewsKeepsItOpen(b: Board, e: Event, id: NoteId, s: Standing)
    requires InStanding(b, id, s) && NoNews(e, id, s) && IsOpen(b, id)
    ensures InStanding(Step(b, e), id, s) && IsOpen(Step(b, e), id)
  {
    match e
    case CompleteScan(_, _, _, _, _) => ScanKeepsStanding(b, e, id, s);
    case BacklogPush(_, _, _) => PushKeepsStanding(b, e, id, s);
    case Boot(_, _) => BootKeepsStanding(b, e, id, s);
    case LinkIssue(_, _, _) => LinkKeepsStanding(b, e, id, s);
    case DeleteNote(_) => LinkKeepsStanding(b, e, id, s);
    case _ =>
  }

  lemma {:induction false} StaysOpenWithoutNews(from: seq<Event>, later: seq<Event>, id: NoteId, s: Standing)
    requires InStanding(After(from), id, s) && IsOpen(After(from), id) && forall e | e in later :: NoNews(e, id, s)
    ensures IsOpen(After(from + later), id)
    decreases |later|
  {
    if later == [] {
      assert from + later == from;
    } else {
      NoNewsKeepsItOpen(After(from), later[0], id, s);
      AfterOneMore(from, later[0]);
      StaysOpenWithoutNews(from + [later[0]], later[1..], id, s);
      assert from + later == from + [later[0]] + later[1..];
    }
  }

  function IssuesOfNote(links: map<LinkKey, Link>, id: NoteId): set<Issue> { set l | l in links && l.note == id :: l.issue }

  /**
   A HAND REOPEN STICKS. A note whose issues are all closed, and whose line, if it was
   filed, is done or twice missed, stays open once a hand has reopened it, through every
   scan, push, sync, restart and change to any other note, until an issue of it is listed
   again or its line comes back or goes. `keys` are the keys its lines have or ever take.
   */
  lemma HandReopenSticks(run: seq<Event>, id: NoteId, now: int, later: seq<Event>, keys: set<Key>)
    requires id in After(run).notes && AllLinksClosed(After(run).links, id)
    requires var b := After(run);
      b.notes[id].filed ==> StatusOf(b.lines, TagOf(id)) == DoneLines
                            || (!Present(StatusOf(b.lines, TagOf(id))) && b.notes[id].absent == BACKLOG_ABSENT_PUSHES)
    requires LinesGoBy(After(run).lines, TagOf(id), keys)
    requires var b := After(run);
      var s := Standing(IssuesOfNote(b.links, id), b.notes[id].filed, StatusOf(b.lines, TagOf(id)) == DoneLines, keys);
      forall e | e in later :: NoNews(e, id, s)
    ensures IsOpen(After(run + [SetStateByHand(id, true, now)] + later), id)
  {
    var b := After(run);
    var s := Standing(IssuesOfNote(b.links, id), b.notes[id].filed, StatusOf(b.lines, TagOf(id)) == DoneLines, keys);
    AfterOneMore(run, SetStateByHand(id, true, now));
    forall issue | issue in s.issues
      ensures LinkKey(id, issue) in b.links
    {
      var l :| l in b.links && l.note == id && l.issue == issue;
      assert l == LinkKey(id, issue);
    }
    StaysOpenWithoutNews(run + [SetStateByHand(id, true, now)], later, id, s);
  }

  // ---- The absence count ----

  /** Complete pushes in a row, up to now, that ended with no live line of the filed note. */
  ghost function Misses(run: seq<Event>, id: NoteId): nat {
    if run == [] then 0
    else
      var e, earlier := run[|run| - 1], run[..|run| - 1];
      var before, after := After(earlier), After(run);
      if id !in before.notes || id !in after.notes then 0
      else if !(e.BacklogPush? && e.complete && before.notes[id].filed) then Misses(earlier, id)
      else if Present(StatusOf(after.lines, TagOf(id))) then 0
      else Misses(earlier, id) + 1
  }

  /** The stored count is the number of complete pushes in a row without the note's line, capped at two. */
  lemma {:induction false} AbsentCountsMisses(run: seq<Event>, id: NoteId)
    requires id in After(run).notes
    ensures After(run).notes[id].absent == if Misses(run, id) < BACKLOG_ABSENT_PUSHES then Misses(run, id) else BACKLOG_ABSENT_PUSHES
  {
    if run == [] {
    } else {
      var e, earlier := run[|run| - 1], run[..|run| - 1];
      if id in After(earlier).notes {
        AbsentCountsMisses(earlier, id);
        StepCountsAbsence(After(earlier), e, id);
      } else {
        NewNotesAreOpen(After(earlier), e, id);
      }
    }
  }

  function Counted(absent: nat, after: Status): nat {
    if Present(after) then 0 else if absent < BACKLOG_ABSENT_PUSHES then absent + 1 else absent
  }

  lemma PushCountsAbsence(n: Note, before: Status, after: Status, now: int)
    ensures NoteAfterPush(n, before, after, now).absent == if n.filed then Counted(n.absent, after) else n.absent
  {
  }

  lemma ScanCountsNothing(n: Note, closing: bool, opening: bool, allClosed: bool, now: int)
    ensures NoteAfterScan(n, closing, opening, allClosed, now).absent == n.absent
  {
  }

  lemma StepCountsAbsence(b: Board, e: Event, id: NoteId)
    requires id in b.notes && id in Step(b, e).notes
    ensures Step(b, e).notes[id].absent
         == if e.BacklogPush? && e.complete && b.notes[id].filed
            then Counted(b.notes[id].absent, StatusOf(Step(b, e).lines, TagOf(id))) else b.notes[id].absent
  {
    match e
    case CompleteScan(repo, open, _, _, now) =>
      var links := LinksAfterScan(b.links, repo, open, now);
      ScanCountsNothing(b.notes[id], ClosingEdge(b.links, links, id), OpeningEdge(b.links, links, id),
                        AllLinksClosed(links, id), now);
    case BacklogPush(entries, complete, now) =>
      var lines := PushedLines(b.lines, entries, complete, now);
      PushCountsAbsence(b.notes[id], StatusOf(b.lines, TagOf(id)), StatusOf(lines, TagOf(id)), now);
    case _ =>
  }

  lemma AbsenceClosesInOneStep(b: Board, e: Event, id: NoteId)
    requires id in b.notes && id in Step(b, e).notes && e.BacklogPush?
    requires b.notes[id].open && !Step(b, e).notes[id].open
    ensures e.complete && b.notes[id].filed && (HasLine(e.entries, TagOf(id)) || b.notes[id].absent == 1)
  {
    ClosedExactlyOnAnEdge(b, e, id);
  }

  /** One miss is forgiven: a file without the note's line closes it only as the second such push in a row. */
  lemma AbsenceClosesOnTheSecondMiss(run: seq<Event>, e: Event, id: NoteId)
    requires id in After(run).notes && id in Step(After(run), e).notes
    requires After(run).notes[id].open && !Step(After(run), e).notes[id].open && e.BacklogPush?
    ensures e.complete && After(run).notes[id].filed
    ensures HasLine(e.entries, TagOf(id)) || Misses(run, id) == 1
  {
    AbsenceClosesInOneStep(After(run), e, id);
    AbsentCountsMisses(run, id);
  }
}
