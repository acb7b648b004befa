/**
 The Inbox tables as they are written: one SQL UPDATE is one assignment over a whole
 table, one Python loop is a loop. Every operation is proved to be its step of the board.
 */
module InboxStore {
  import opened Wrappers
  import opened InboxRules
  import opened GithubListing
  import InboxMirror

  // ---- One row and one link in the middle of a scan ----

  function RowAfterIssue(r: Option<MirrorRow>, linked: bool, now: int): Option<MirrorRow> {
    if !linked then Some(if r.Some? then OwnRowAfterScan(r.value, true, now) else MirrorRow(true, None, None, now))
    else if r.Some? && r.value.archivedAt.None? then Some(r.value.(archivedAt := Some(now), updatedAt := now))
    else r
  }

  /** The rows once the scan has gone through the open issues `done`. */
  ghost predicate RowsSoFar(was: Board, repo: Repo, done: set<nat>, now: int, rows: map<Issue, MirrorRow>) {
    forall k: Issue :: Get(rows, k) == RowSoFar(was, repo, done, now, k)
  }

  ghost function RowSoFar(was: Board, repo: Repo, done: set<nat>, now: int, k: Issue): Option<MirrorRow> {
    if k.repo == repo && k.number in done then RowAfterIssue(Get(was.rows, k), Linked(was.links, k), now)
    else Get(was.rows, k)
  }

  ghost predicate LinksSoFar(was: Board, repo: Repo, done: set<nat>, now: int, links: map<LinkKey, Link>) {
    && links.Keys == was.links.Keys
    && forall l | l in links :: links[l] == if l.issue.repo == repo && l.issue.number in done
                                            then LinkAfterScan(was.links[l], true, now) else was.links[l]
  }

  function Unarchived(rows: map<Issue, MirrorRow>, back: set<Issue>, now: int): map<Issue, MirrorRow> {
    map k | k in rows :: if k in back then rows[k].(archivedAt := None, updatedAt := now) else rows[k]
  }

  /** The archived rows of the repo that no note stands for. */
  function OffTheBoard(rows: map<Issue, MirrorRow>, links: map<LinkKey, Link>, repo: Repo): set<Issue> {
    set k | k in rows && k.repo == repo && rows[k].archivedAt.Some? && !Linked(links, k)
  }

  function MissingClosed(rows: map<Issue, MirrorRow>, repo: Repo, seen: set<Issue>, now: int): map<Issue, MirrorRow> {
    map k | k in rows ::
      if rows[k].open && rows[k].archivedAt.None? && k.repo == repo && k !in seen
      then rows[k].(open := false, closedAt := Some(now), updatedAt := now) else rows[k]
  }

  function LinksClosed(links: map<LinkKey, Link>, repo: Repo, open: set<nat>, now: int): map<LinkKey, Link> {
    map l | l in links ::
      if l.issue.repo == repo && links[l].open && l.issue.number !in open then Link(false, Some(now), now) else links[l]
  }

  /** The passes after the loop finish every row of the repo. */
  lemma RowsComeOut(was: Board, repo: Repo, open: set<nat>, now: int, rows: map<Issue, MirrorRow>,
                    seen: set<Issue>)
    requires RowsSoFar(was, repo, open, now, rows)
    requires forall k :: k in seen <==> k.repo == repo && k.number in open && !Linked(was.links, k)
    ensures var back := OffTheBoard(rows, was.links, repo);
      MissingClosed(Unarchived(rows, back, now), repo, seen, now) == RowsAfterScan(was, repo, open, now)
  {
    var back := OffTheBoard(rows, was.links, repo);
    var end, want := MissingClosed(Unarchived(rows, back, now), repo, seen, now), RowsAfterScan(was, repo, open, now);
    forall k: Issue
      ensures Get(end, k) == Get(want, k)
    {
      assert Get(rows, k) == RowSoFar(was, repo, open, now, k);
      assert k in NewIssues(was, repo, open) <==> k.repo == repo && k.number in open && !Linked(was.links, k);
    }
    MapsAgree(end, want);
  }

  lemma LinksComeOut(was: Board, repo: Repo, open: set<nat>, now: int, links: map<LinkKey, Link>)
    requires LinksSoFar(was, repo, open, now, links)
    ensures LinksClosed(links, repo, open, now) == LinksAfterScan(was.links, repo, open, now)
  {
  }

  lemma OneMoreNumber(issues: seq<Raw>, i: nat)
    requires i < |issues|
    ensures OpenNumbers(issues[..i + 1])
         == OpenNumbers(issues[..i]) + if Numbered(issues[i]) then {issues[i].number.value as nat} else {}
  {
    assert issues[..i + 1] == issues[..i] + [issues[i]];
    forall n: nat
      ensures n in OpenNumbers(issues[..i + 1])
         <==> n in OpenNumbers(issues[..i]) || (Numbered(issues[i]) && n == issues[i].number.value)
    {
      if n in OpenNumbers(issues[..i]) {
        var raw :| raw in issues[..i] && Numbered(raw) && raw.number.value == n;
        assert raw in issues[..i + 1];
      }
      if Numbered(issues[i]) {
        assert issues[i] in issues[..i + 1];
      }
    }
  }

  /** Taking one issue moves its row on, or back to where it already was when it is listed twice. */
  lemma RowTaken(was: Board, repo: Repo, done: set<nat>, now: int, rows: map<Issue, MirrorRow>, issue: Issue,
                 after: map<Issue, MirrorRow>)
    requires RowsSoFar(was, repo, done, now, rows) && issue.repo == repo
    requires forall k | k != issue :: Get(after, k) == Get(rows, k)
    requires Get(after, issue) == RowAfterIssue(Get(rows, issue), Linked(was.links, issue), now)
    ensures RowsSoFar(was, repo, done + {issue.number}, now, after)
  {
    forall k: Issue
      ensures Get(after, k) == RowSoFar(was, repo, done + {issue.number}, now, k)
    {
      assert Get(rows, k) == RowSoFar(was, repo, done, now, k);
    }
  }

  lemma LinksTaken(was: Board, repo: Repo, done: set<nat>, now: int, links: map<LinkKey, Link>, issue: Issue,
                   after: map<LinkKey, Link>)
    requires LinksSoFar(was, repo, done, now, links) && issue.repo == repo && after.Keys == links.Keys
    requires forall l | l in links :: after[l] == if l.issue == issue then LinkAfterScan(links[l], true, now) else links[l]
    ensures LinksSoFar(was, repo, done + {issue.number}, now, after)
  {
  }

  lemma LinkedAreTheSame(before: map<LinkKey, Link>, after: map<LinkKey, Link>)
    requires before.Keys == after.Keys
    ensures forall k :: Linked(after, k) <==> Linked(before, k)
  {
    forall k
      ensures Linked(after, k) <==> Linked(before, k)
    {
      InboxMirror.SameKeysLinkTheSame(before, after, k);
    }
  }

  lemma SameOffTheBoard(rows: map<Issue, MirrorRow>, before: map<LinkKey, Link>, after: map<LinkKey, Link>, repo: Repo)
    requires forall k :: Linked(after, k) <==> Linked(before, k)
    ensures OffTheBoard(rows, before, repo) == OffTheBoard(rows, after, repo)
  {
  }

  function NoteReopens(n: Note, now: int): Note {
    if !n.open && n.closedBy == Some(Issues) then Reopened(n, now) else n
  }

  function NoteCloses(n: Note, allClosed: bool, now: int): Note {
    if n.open && allClosed then Closed(n, Some(Issues), now) else n
  }

  /** The two sets of notes the rule collects are the notes with a closing and an opening edge. */
  lemma EdgesAreTheSets(repo: Repo, before: map<LinkKey, Link>, after: map<LinkKey, Link>, id: NoteId,
                        closing: set<NoteId>, reopening: set<NoteId>)
    requires after.Keys == before.Keys && forall l | l in after && l.issue.repo != repo :: after[l] == before[l]
    requires closing == set l | l in after && l.issue.repo == repo && before[l].open && !after[l].open :: l.note
    requires reopening == set l | l in after && l.issue.repo == repo && !before[l].open && after[l].open :: l.note
    ensures id in closing <==> ClosingEdge(before, after, id)
    ensures id in reopening <==> OpeningEdge(before, after, id)
    ensures OpeningEdge(before, after, id) ==> !AllLinksClosed(after, id)
  {
    if ClosingEdge(before, after, id) {
      var l :| l in before && l in after && l.note == id && before[l].open && !after[l].open;
      assert l.issue.repo == repo;
    }
    if OpeningEdge(before, after, id) {
      var l :| l in before && l in after && l.note == id && !before[l].open && after[l].open;
      assert l.issue.repo == repo;
    }
  }

  // ---- The lines of backlog.txt ----

  function StatusIn(status: map<Tag, Status>, tag: Tag): Status { if tag in status then status[tag] else Never }

  /** A tag's status with one more row that carries it. */
  function WithLine(s: Status, row: Line): Status {
    if row.archivedAt.None? then (if row.open || s == OpenLine then OpenLine else DoneLines)
    else if s == Never then Gone else s
  }

  function Without(lines: map<Key, Line>, left: set<Key>): map<Key, Line> { map k | k in lines && k !in left :: lines[k] }

  lemma OneMoreLine(lines: map<Key, Line>, left: set<Key>, k: Key, tag: Tag)
    requires k in lines && k in left
    ensures StatusOf(Without(lines, left - {k}), tag)
         == if tag in lines[k].text.tags then WithLine(StatusOf(Without(lines, left), tag), lines[k])
            else StatusOf(Without(lines, left), tag)
  {
    var less, more := Without(lines, left), Without(lines, left - {k});
    assert more == less[k := lines[k]] && k !in less;
    OneMoreRow(less, k, lines[k], tag);
  }

  lemma OneMoreRow(less: map<Key, Line>, k: Key, row: Line, tag: Tag)
    requires k !in less
    ensures StatusOf(less[k := row], tag) == if tag in row.text.tags then WithLine(StatusOf(less, tag), row) else StatusOf(less, tag)
  {
    var more := less[k := row];
    forall j | j in less
      ensures j in more && more[j] == less[j]
      ensures LiveTagged(more, j, tag) == LiveTagged(less, j, tag)
    {
    }
    assert k in more;
  }

  lemma OneMoreKey(entries: seq<Entry>, e: Entry)
    ensures KeysOf(entries + [e]) == KeysOf(entries) + {e.key}
  {
    forall k
      ensures k in KeysOf(entries + [e]) <==> k in KeysOf(entries) || k == e.key
    {
      if k in KeysOf(entries) {
        var x :| x in entries && x.key == k;
        assert x in entries + [e];
      }
      assert e in entries + [e];
    }
  }

  /** A sync clears the order to stay away, unless it is given a new one or never learns whether there is one. */
  function BackoffAfter(backoff: map<Repo, int>, repo: Repo, out: Outcome): map<Repo, int> {
    match out
    case Truncated => backoff
    case Broken(until) => if until.Some? then backoff[repo := until.value] else backoff - {repo}
    case _ => backoff - {repo}
  }

  // ---- The store ----

  class Store {
    var notes: map<NoteId, Note>
    var links: map<LinkKey, Link>
    var rows: map<Issue, MirrorRow>
    var etags: map<Repo, Etag>
    var lines: map<Key, Line>
    /** Until when a repo's sync was told to stay away; no other step looks at it. */
    var backoff: map<Repo, int>

    function Contents(): Board
      reads this
    {
      Board(notes, links, rows, etags, lines)
    }

    constructor ()
      ensures Contents() == EMPTY
    {
      notes, links, rows, etags, lines, backoff := map[], map[], map[], map[], map[], map[];
    }

    // ---- Links and deletion ----

    method ForgetEtag(repo: Repo)
      modifies this`etags
      ensures etags == old(etags) - {repo}
    {
      etags := etags - {repo};
    }

    method ArchiveMirrorRowOfLinkedIssue(issue: Issue, now: int)
      modifies this`rows
      ensures rows == ArchiveRow(old(rows), issue, now)
    {
      if issue in rows && rows[issue].archivedAt.None? {
        rows := rows[issue := rows[issue].(archivedAt := Some(now), updatedAt := now)];
      }
    }

    method LinkIssue(id: NoteId, issue: Issue, now: int)
      modifies this`notes, this`links, this`rows, this`etags
      ensures Contents() == LinkStep(old(Contents()), id, issue, now)
    {
      if id !in notes { return; }
      var key := LinkKey(id, issue);
      if key in links {
        links := links[key := links[key].(checkedAt := now)];
      } else {
        links := links[key := Link(true, None, now)];
        notes := notes[id := notes[id].(updatedAt := now)];
        ForgetEtag(issue.repo);
      }
      ArchiveMirrorRowOfLinkedIssue(issue, now);
    }

    method DeleteItem(id: NoteId)
      modifies this`notes, this`links, this`rows, this`etags
      ensures Contents() == DeleteStep(old(Contents()), id)
    {
      if id !in notes { return; }
      var repos := ReposOf(links, id);
      ghost var all := repos;
      notes := notes - {id};
      links := map l | l in links && l.note != id :: links[l];
      while repos != {}
        invariant repos <= all
        invariant etags == old(etags) - (all - repos)
        invariant notes == old(notes) - {id} && rows == old(rows) && lines == old(lines)
        invariant links == map l | l in old(links) && l.note != id :: old(links)[l]
        decreases |repos|
      {
        var repo :| repo in repos;
        ForgetEtag(repo);
        repos := repos - {repo};
      }
      assert all - repos == all;
    }

    // ---- A scan of one repo ----

    method RefreshIssue(issue: Issue, now: int)
      modifies this`links
      ensures links == map l | l in old(links) ::
        if l.issue == issue then LinkAfterScan(old(links)[l], true, now) else old(links)[l]
    {
      links := map l | l in links :: if l.issue == issue && !links[l].open then Link(true, None, now) else links[l];
    }

    /** Insert, or take off the archive. The mirror passes no state: opening is a pass of its own. */
    method UpsertMirrorItem(issue: Issue, now: int)
      modifies this`rows
      ensures rows == old(rows)[issue :=
        if issue !in old(rows) then MirrorRow(true, None, None, now)
        else if old(rows)[issue].archivedAt.Some? then old(rows)[issue].(archivedAt := None, updatedAt := now)
        else old(rows)[issue]]
    {
      if issue !in rows {
        rows := rows[issue := MirrorRow(true, None, None, now)];
      } else if rows[issue].archivedAt.Some? {
        rows := rows[issue := rows[issue].(archivedAt := None, updatedAt := now)];
      }
    }

    method ReopenMirrorItem(issue: Issue, now: int)
      requires issue in rows
      modifies this`rows
      ensures rows == old(rows)[issue :=
        if old(rows)[issue].open then old(rows)[issue]
        else old(rows)[issue].(open := true, closedAt := None, updatedAt := now)]
    {
      if !rows[issue].open {
        rows := rows[issue := rows[issue].(open := true, closedAt := None, updatedAt := now)];
      }
    }

    method UnarchiveUnlinked(repo: Repo, now: int)
      modifies this`rows
      ensures rows == Unarchived(old(rows), OffTheBoard(old(rows), links, repo), now)
    {
      var all := OffTheBoard(rows, links, repo);
      var back := all;
      while back != {}
        invariant back <= all
        invariant rows.Keys == old(rows).Keys
        invariant forall k | k in rows :: rows[k] == if k in all - back
          then old(rows)[k].(archivedAt := None, updatedAt := now) else old(rows)[k]
        decreases |back|
      {
        var k :| k in back;
        rows := rows[k := rows[k].(archivedAt := None, updatedAt := now)];
        back := back - {k};
      }
    }

    method CloseMissing(repo: Repo, seen: set<Issue>, now: int)
      modifies this`rows
      ensures rows == MissingClosed(old(rows), repo, seen, now)
    {
      rows := MissingClosed(rows, repo, seen, now);
    }

    method MarkIssuesClosed(repo: Repo, open: set<nat>, now: int)
      modifies this`links
      ensures links == LinksClosed(old(links), repo, open, now)
    {
      links := LinksClosed(links, repo, open, now);
    }

    /** The loop over the listed issues: refresh what a note links, upsert and reopen the rest. */
    method TakeIssues(repo: Repo, issues: seq<Raw>, now: int) returns (seen: set<Issue>, open: set<nat>)
      modifies this`links, this`rows
      ensures open == OpenNumbers(issues)
      ensures forall k :: k in seen <==> k.repo == repo && k.number in open && !Linked(old(links), k)
      ensures RowsSoFar(old(Contents()), repo, open, now, rows)
      ensures LinksSoFar(old(Contents()), repo, open, now, links)
    {
      seen, open := {}, {};
      for i := 0 to |issues|
        invariant open == OpenNumbers(issues[..i])
        invariant forall k :: k in seen <==> k.repo == repo && k.number in open && !Linked(old(links), k)
        invariant RowsSoFar(old(Contents()), repo, open, now, rows)
        invariant LinksSoFar(old(Contents()), repo, open, now, links)
      {
        OneMoreNumber(issues, i);
        if !Numbered(issues[i]) { continue; }
        var issue := Issue(repo, issues[i].number.value);
        InboxMirror.SameKeysLinkTheSame(old(links), links, issue);
        ghost var before := open;
        open := open + {issue.number};
        label L:
        if Linked(links, issue) {
          RefreshIssue(issue, now);
          ArchiveMirrorRowOfLinkedIssue(issue, now);
        } else {
          UpsertMirrorItem(issue, now);
          ReopenMirrorItem(issue, now);
          seen := seen + {issue};
        }
        RowTaken(old(Contents()), repo, before, now, old@L(rows), issue, rows);
        LinksTaken(old(Contents()), repo, before, now, old@L(links), issue, links);
      }
      assert issues[..|issues|] == issues;
    }

    method ReopenNotes(reopening: set<NoteId>, now: int)
      modifies this`notes
      ensures notes == map id | id in old(notes) ::
        if id in reopening then NoteReopens(old(notes)[id], now) else old(notes)[id]
    {
      var left := reopening;
      while left != {}
        invariant left <= reopening
        invariant notes.Keys == old(notes).Keys
        invariant forall id | id in notes ::
          notes[id] == if id in reopening - left then NoteReopens(old(notes)[id], now) else old(notes)[id]
        decreases |left|
      {
        var id :| id in left;
        if id in notes && !notes[id].open && notes[id].closedBy == Some(Issues) {
          notes := notes[id := Reopened(notes[id], now)];
        }
        left := left - {id};
      }
    }

    method CloseNotes(closing: set<NoteId>, now: int)
      modifies this`notes
      ensures notes == map id | id in old(notes) ::
        if id in closing then NoteCloses(old(notes)[id], AllLinksClosed(links, id), now) else old(notes)[id]
    {
      var left := closing;
      while left != {}
        invariant left <= closing
        invariant notes.Keys == old(notes).Keys
        invariant forall id | id in notes ::
          notes[id] == if id in closing - left then NoteCloses(old(notes)[id], AllLinksClosed(links, id), now) else old(notes)[id]
        decreases |left|
      {
        var id :| id in left;
        if id in notes && notes[id].open && AllLinksClosed(links, id) {
          notes := notes[id := Closed(notes[id], Some(Issues), now)];
        }
        left := left - {id};
      }
    }

    /** The issues rule, for the links this scan moved. */
    method ApplyIssueTransitions(repo: Repo, before: map<LinkKey, Link>, now: int)
      requires links.Keys == before.Keys
      requires forall l | l in links && l.issue.repo != repo :: links[l] == before[l]
      modifies this`notes
      ensures notes == NotesAfterScan(old(notes), before, links, now)
    {
      var closing := set l | l in links && l.issue.repo == repo && before[l].open && !links[l].open :: l.note;
      var reopening := set l | l in links && l.issue.repo == repo && !before[l].open && links[l].open :: l.note;
      ReopenNotes(reopening, now);
      CloseNotes(closing, now);
      forall id | id in notes
        ensures notes[id] == NotesAfterScan(old(notes), before, links, now)[id]
      {
        EdgesAreTheSets(repo, before, links, id, closing, reopening);
      }
    }

    /** Everything a complete scan writes, in one transaction. */
    method CommitScan(repo: Repo, issues: seq<Raw>, answered: Option<Etag>, sent: Option<Etag>, now: int)
      modifies this`notes, this`links, this`rows, this`etags
      ensures Contents() == ScanStep(old(Contents()), repo, OpenNumbers(issues), answered, sent, now)
    {
      var before := links;
      var seen, open := TakeIssues(repo, issues, now);
      LinkedAreTheSame(before, links);
      SameOffTheBoard(rows, before, links, repo);
      RowsComeOut(old(Contents()), repo, open, now, rows, seen);
      LinksComeOut(old(Contents()), repo, open, now, links);
      UnarchiveUnlinked(repo, now);
      CloseMissing(repo, seen, now);
      MarkIssuesClosed(repo, open, now);
      ApplyIssueTransitions(repo, before, now);
      etags := StoredEtag(etags, repo, answered, sent);
    }

    /**
     One repo's sync with nothing between its fetch and its commit. Told to stay away, it
     asks nothing; whatever is not a whole, error-free listing changes nothing at all.
     */
    method SyncRepo(repo: Repo, fetch: nat -> Answer, now: int) returns (out: Option<Outcome>)
      modifies this`notes, this`links, this`rows, this`etags, this`backoff
      ensures out.None? <==> repo in old(backoff) && old(backoff)[repo] > now
      ensures out.Some? ==> ComesTo(fetch, out.value)
      ensures out.Some? && out.value.Whole? ==>
        Contents() == ScanStep(old(Contents()), repo, OpenNumbers(out.value.issues), out.value.etag, Get(old(etags), repo), now)
      ensures out.None? || !out.value.Whole? ==> Contents() == old(Contents())
      ensures backoff == if out.None? then old(backoff) else BackoffAfter(old(backoff), repo, out.value)
      ensures out.Some? && out.value.Broken? && out.value.until.Some? ==> repo in backoff && backoff[repo] == out.value.until.value
      ensures out.Some? && (out.value.Unchanged? || out.value.Whole? || (out.value.Broken? && out.value.until.None?)) ==>
        repo !in backoff
      ensures out.Some? && out.value.Truncated? ==> backoff == old(backoff)
      ensures forall other | other in old(backoff) && other != repo :: other in backoff && backoff[other] == old(backoff)[other]
    {
      if repo in backoff && backoff[repo] > now { return None; }
      var sent := Get(etags, repo);
      var came := Fetch(fetch);
      match came {
        case Unchanged => backoff := backoff - {repo};
        case Broken(until) => backoff := if until.Some? then backoff[repo := until.value] else backoff - {repo};
        case Truncated =>
        case Whole(issues, etag) =>
          CommitScan(repo, issues, etag, sent, now);
          backoff := backoff - {repo};
      }
      return Some(came);
    }

    // ---- Watching and booting ----

    method ArchiveRows(gone: set<Issue>, now: int)
      requires gone <= rows.Keys
      modifies this`rows
      ensures rows == map k | k in old(rows) ::
        if k in gone then old(rows)[k].(archivedAt := Some(now), updatedAt := now) else old(rows)[k]
    {
      var left := gone;
      while left != {}
        invariant left <= gone
        invariant rows.Keys == old(rows).Keys
        invariant forall k | k in rows :: rows[k] == if k in gone - left
          then old(rows)[k].(archivedAt := Some(now), updatedAt := now) else old(rows)[k]
        decreases |left|
      {
        var k :| k in left;
        rows := rows[k := rows[k].(archivedAt := Some(now), updatedAt := now)];
        left := left - {k};
      }
    }

    method ForgetEtags(forgotten: set<Repo>)
      modifies this`etags
      ensures etags == old(etags) - forgotten
    {
      var left := forgotten;
      while left != {}
        invariant left <= forgotten
        invariant etags == old(etags) - (forgotten - left)
        decreases |left|
      {
        var r :| r in left;
        ForgetEtag(r);
        left := left - {r};
      }
      assert forgotten - left == forgotten;
    }

    /** Rows of repos no longer watched leave the board, and their ETags are forgotten. */
    method ArchiveUnwatched(watched: set<Repo>, now: int)
      modifies this`rows, this`etags
      ensures Contents() == UnwatchStep(old(Contents()), watched, now)
    {
      var gone := set k | k in rows && rows[k].archivedAt.None? && k.repo !in watched;
      ArchiveRows(gone, now);
      assert rows == UnwatchStep(old(Contents()), watched, now).rows;
      ForgetEtags(set r | r in etags && r !in watched);
      assert etags == UnwatchStep(old(Contents()), watched, now).etags;
    }

    /** Each link's repo in the watched spelling, row by row; a note's two links to one issue become one. */
    method CanonicaliseIssueRepos(spellings: Spellings, order: seq<LinkKey>)
      modifies this`links
      ensures links == Canonicalised(old(links), spellings, order)
    {
      for i := 0 to |order|
        invariant links == Canonicalised(old(links), spellings, order[..i])
      {
        assert order[..i + 1][..i] == order[..i];
        var l := order[i];
        var twin := Respelt(spellings, l);
        if l !in links || twin == l { continue; }
        if twin in links {
          links := links - {l};
          links := links[twin := links[twin].(open := true, closedAt := None)];
        } else {
          links := (links - {l})[twin := links[l]];
        }
      }
      assert order[..|order|] == order;
    }

    /** What every boot repairs, in this order: link spellings, the rows notes stand for, every stored ETag. */
    method StartupRepairs(spellings: Spellings, order: seq<LinkKey>)
      modifies this`links, this`rows, this`etags
      ensures Contents() == BootStep(old(Contents()), spellings, order)
    {
      CanonicaliseIssueRepos(spellings, order);
      rows := RepairedRows(rows, links);
      etags := map[];
    }

    // ---- A push of backlog.txt ----

    method UpsertLine(e: Entry, now: int)
      modifies this`lines
      ensures lines == old(lines)[e.key := LineAfterPush(Get(old(lines), e.key), e, now)]
    {
      if e.key !in lines {
        lines := lines[e.key := Line(e.text, e.project, true, None, None, now)];
        if e.text.done {
          lines := lines[e.key := lines[e.key].(open := false, closedAt := Some(now))];
        }
        return;
      }
      var l := lines[e.key];
      var changed := false;
      if l.text != e.text { l := l.(text := e.text); changed := true; }
      if l.archivedAt.Some? { l := l.(archivedAt := None); changed := true; }
      if e.project.Some? && l.project != e.project { l := l.(project := e.project); changed := true; }
      if l.open != !e.text.done {
        l := l.(open := !e.text.done,
                closedAt := if !e.text.done then None else if l.closedAt.Some? then l.closedAt else Some(now));
        changed := true;
      }
      if changed {
        l := l.(updatedAt := now);
      }
      lines := lines[e.key := l];
    }

    /** For every tag any row carries, what backlog.txt says about it. */
    method FiledLineStatus() returns (status: map<Tag, Status>)
      ensures forall tag :: StatusIn(status, tag) == StatusOf(lines, tag)
    {
      status := map[];
      var left := lines.Keys;
      while left != {}
        invariant left <= lines.Keys
        invariant forall tag :: StatusIn(status, tag) == StatusOf(Without(lines, left), tag)
        decreases |left|
      {
        var k :| k in left;
        var row := lines[k];
        var tags := row.text.tags;
        ghost var before := status;
        while tags != {}
          invariant tags <= row.text.tags
          invariant forall tag :: StatusIn(status, tag)
                               == if tag in row.text.tags - tags then WithLine(StatusIn(before, tag), row)
                                  else StatusIn(before, tag)
          decreases |tags|
        {
          var tag :| tag in tags;
          status := status[tag := WithLine(StatusIn(status, tag), row)];
          tags := tags - {tag};
        }
        forall tag
          ensures StatusIn(status, tag) == StatusOf(Without(lines, left - {k}), tag)
        {
          OneMoreLine(lines, left, k, tag);
        }
        left := left - {k};
      }
      assert Without(lines, left) == lines;
    }

    method GoThroughFiledNotes(before: map<Tag, Status>, after: map<Tag, Status>, now: int)
      modifies this`notes
      ensures notes.Keys == old(notes).Keys
      ensures forall id | id in notes ::
        notes[id] == NoteAfterPush(old(notes)[id], StatusIn(before, TagOf(id)), StatusIn(after, TagOf(id)), now)
    {
      var all := set id | id in notes && notes[id].filed;
      var left := all;
      while left != {}
        invariant left <= all
        invariant notes.Keys == old(notes).Keys
        invariant forall id | id in notes :: notes[id] == if id in all - left
          then NoteAfterPush(old(notes)[id], StatusIn(before, TagOf(id)), StatusIn(after, TagOf(id)), now) else old(notes)[id]
        decreases |left|
      {
        var id :| id in left;
        FiledNote(id, StatusIn(before, TagOf(id)), StatusIn(after, TagOf(id)), now);
        left := left - {id};
      }
    }

    /** The rule for filed notes, after every upsert and the archive of a complete push. */
    method ApplyFiledBacklogRule(before: map<Tag, Status>, now: int, ghost was: map<Key, Line>)
      requires forall tag :: StatusIn(before, tag) == StatusOf(was, tag)
      modifies this`notes
      ensures notes == NotesAfterPush(old(notes), was, lines, now)
    {
      var after := FiledLineStatus();
      GoThroughFiledNotes(before, after, now);
      forall id | id in notes
        ensures notes[id] == NotesAfterPush(old(notes), was, lines, now)[id]
      {
        assert StatusIn(before, TagOf(id)) == StatusOf(was, TagOf(id));
        assert StatusIn(after, TagOf(id)) == StatusOf(lines, TagOf(id));
      }
    }

    method FiledNote(id: NoteId, before: Status, status: Status, now: int)
      requires id in notes && notes[id].filed
      modifies this`notes
      ensures notes == old(notes)[id := NoteAfterPush(old(notes)[id], before, status, now)]
    {
      var n := notes[id];
      var absent := n.absent;
      if status == OpenLine || status == DoneLines {
        if absent != 0 { n := n.(absent := 0); }
        if status == OpenLine {
          if !n.open && n.closedBy == Some(Backlog) { n := Reopened(n, now); }
        } else if n.open && before != DoneLines {
          n := Closed(n, Some(Backlog), now);
        }
      } else if absent < BACKLOG_ABSENT_PUSHES {
        absent := absent + 1;
        n := n.(absent := absent);
        if absent == BACKLOG_ABSENT_PUSHES && n.open { n := Closed(n, Some(Backlog), now); }
      }
      notes := notes[id := n];
    }

    method UpsertLines(entries: seq<Entry>, now: int) returns (seen: set<Key>)
      modifies this`lines
      ensures lines == Upserted(old(lines), entries, now) && seen == KeysOf(entries)
    {
      seen := {};
      for i := 0 to |entries|
        invariant lines == Upserted(old(lines), entries[..i], now)
        invariant seen == KeysOf(entries[..i])
      {
        assert entries[..i + 1] == entries[..i] + [entries[i]];
        assert entries[..i + 1][..i] == entries[..i];
        UpsertLine(entries[i], now);
        seen := seen + {entries[i].key};
        OneMoreKey(entries[..i], entries[i]);
      }
      assert entries[..|entries|] == entries;
    }

    /** One push, as one transaction; the archive and the rule only when the whole file was read. */
    method ApplyBacklogPush(entries: seq<Entry>, complete: bool, now: int)
      modifies this`lines, this`notes
      ensures Contents() == PushStep(old(Contents()), entries, complete, now)
    {
      var before: map<Tag, Status> := map[];
      if complete { before := FiledLineStatus(); }
      var seen := UpsertLines(entries, now);
      if complete {
        lines := ArchiveMissing(lines, seen, now);
        ApplyFiledBacklogRule(before, now, old(lines));
      }
    }

    // ---- By hand ----

    method SetStateByHand(id: NoteId, reopen: bool, now: int)
      modifies this`notes
      ensures Contents() == Step(old(Contents()), Event.SetStateByHand(id, reopen, now))
    {
      if id !in notes { return; }
      notes := notes[id := notes[id].(open := reopen, closedAt := if reopen then None else Some(now),
                                      closedBy := None, updatedAt := now)];
    }
  }
}
