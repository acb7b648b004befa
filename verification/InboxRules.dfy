/**
 The Inbox board: notes written here, the GitHub issues linked to them, the mirrored
 rows of issues nobody linked, and the mirrored lines of backlog.txt; and what each
 step that touches them does.
 */
module InboxRules {
  import opened Wrappers
  import GithubListing

  type Repo = string
  type NoteId = string
  type Etag = GithubListing.Etag
  type Tag = string
  type Key = string
  type Stamp = Option<int>

  /** Which rule closed a note. */
  datatype Rule = Backlog | Issues

  /** A voice or typed note. `absent` counts complete pushes in a row without its line. */
  datatype Note = Note(open: bool, closedAt: Stamp, closedBy: Option<Rule>,
                       filed: bool, absent: nat, updatedAt: int)

  datatype Issue = Issue(repo: Repo, number: nat)
  datatype LinkKey = LinkKey(note: NoteId, issue: Issue)
  datatype Link = Link(open: bool, closedAt: Stamp, checkedAt: int)

  /** A mirrored row of an issue: its state is upstream's, and archived means not on the board. */
  datatype MirrorRow = MirrorRow(open: bool, closedAt: Stamp, archivedAt: Stamp, updatedAt: int)

  /** A backlog entry's text, with what its What: line says: the voice tags on it and whether it is done. */
  datatype Text = Text(content: string, tags: set<Tag>, done: bool)
  datatype Entry = Entry(key: Key, text: Text, project: Option<string>)
  datatype Line = Line(text: Text, project: Option<string>, open: bool, closedAt: Stamp,
                       archivedAt: Stamp, updatedAt: int)

  datatype Board = Board(notes: map<NoteId, Note>, links: map<LinkKey, Link>, rows: map<Issue, MirrorRow>,
                         etags: map<Repo, Etag>, lines: map<Key, Line>)

  const EMPTY: Board := Board(map[], map[], map[], map[], map[])

  const BACKLOG_ABSENT_PUSHES := 2

  /** The tag that ties a filed note to its backlog line: the first eight characters of its id. */
  function TagOf(id: NoteId): Tag { if |id| <= 8 then id else id[..8] }

  // ---- Notes by hand ----

  function Closed(n: Note, rule: Option<Rule>, now: int): Note {
    n.(open := false, closedAt := Some(now), closedBy := rule, updatedAt := now)
  }

  function Reopened(n: Note, now: int): Note {
    n.(open := true, closedAt := None, closedBy := None, updatedAt := now)
  }

  // ---- Links ----

  predicate Linked(links: map<LinkKey, Link>, issue: Issue) { exists l | l in links :: l.issue == issue }

  predicate AllLinksClosed(links: map<LinkKey, Link>, id: NoteId) {
    forall l | l in links && l.note == id :: !links[l].open
  }

  function ArchiveRow(rows: map<Issue, MirrorRow>, issue: Issue, now: int): map<Issue, MirrorRow> {
    if issue in rows && rows[issue].archivedAt.None?
    then rows[issue := rows[issue].(archivedAt := Some(now), updatedAt := now)] else rows
  }

  function LinkStep(b: Board, id: NoteId, issue: Issue, now: int): Board {
    var key := LinkKey(id, issue);
    if id !in b.notes then b
    else if key in b.links then
      b.(links := b.links[key := b.links[key].(checkedAt := now)], rows := ArchiveRow(b.rows, issue, now))
    else
      b.(links := b.links[key := Link(true, None, now)],
         notes := b.notes[id := b.notes[id].(updatedAt := now)],
         etags := b.etags - {issue.repo},
         rows := ArchiveRow(b.rows, issue, now))
  }

  function ReposOf(links: map<LinkKey, Link>, id: NoteId): set<Repo> {
    set l | l in links && l.note == id :: l.issue.repo
  }

  function DeleteStep(b: Board, id: NoteId): Board {
    if id !in b.notes then b
    else b.(notes := b.notes - {id},
            links := map l | l in b.links && l.note != id :: b.links[l],
            etags := b.etags - ReposOf(b.links, id))
  }

  // ---- A complete scan of one repo ----

  function LinkAfterScan(link: Link, isOpen: bool, now: int): Link {
    if link.open == isOpen then link
    else if isOpen then Link(true, None, now)
    else Link(false, Some(now), now)
  }

  function LinksAfterScan(links: map<LinkKey, Link>, repo: Repo, open: set<nat>, now: int): map<LinkKey, Link> {
    map l | l in links ::
      if l.issue.repo == repo then LinkAfterScan(links[l], l.issue.number in open, now) else links[l]
  }

  /** A row whose issue a note links is off the board. */
  function LinkedRowAfterScan(r: MirrorRow, isOpen: bool, now: int): MirrorRow {
    if r.archivedAt.Some? then r
    else if isOpen then r.(archivedAt := Some(now), updatedAt := now)
    else if r.open then r.(open := false, closedAt := Some(now), updatedAt := now)
    else r
  }

  /** A row that stands for its issue is on the board, and open exactly when the issue is. */
  function OwnRowAfterScan(r: MirrorRow, isOpen: bool, now: int): MirrorRow {
    if r.archivedAt.None? && r.open == isOpen then r
    else MirrorRow(isOpen,
                   if r.open == isOpen then r.closedAt else if isOpen then None else Some(now),
                   None, now)
  }

  function NewIssues(b: Board, repo: Repo, open: set<nat>): set<Issue> {
    set n | n in open && !Linked(b.links, Issue(repo, n)) :: Issue(repo, n)
  }

  function RowsAfterScan(b: Board, repo: Repo, open: set<nat>, now: int): map<Issue, MirrorRow> {
    map k | k in b.rows.Keys + NewIssues(b, repo, open) ::
      if k.repo != repo then b.rows[k]
      else if Linked(b.links, k) then LinkedRowAfterScan(b.rows[k], k.number in open, now)
      else if k in b.rows then OwnRowAfterScan(b.rows[k], k.number in open, now)
      else MirrorRow(true, None, None, now)
  }

  /** A link of the note goes from open to closed in this scan, or the other way. */
  predicate ClosingEdge(before: map<LinkKey, Link>, after: map<LinkKey, Link>, id: NoteId) {
    exists l | l in before && l in after :: l.note == id && before[l].open && !after[l].open
  }

  predicate OpeningEdge(before: map<LinkKey, Link>, after: map<LinkKey, Link>, id: NoteId) {
    exists l | l in before && l in after :: l.note == id && !before[l].open && after[l].open
  }

  function NoteAfterScan(n: Note, closing: bool, opening: bool, allClosed: bool, now: int): Note {
    if opening && !n.open && n.closedBy == Some(Issues) then Reopened(n, now)
    else if closing && n.open && allClosed then Closed(n, Some(Issues), now)
    else n
  }

  function NotesAfterScan(notes: map<NoteId, Note>, before: map<LinkKey, Link>, after: map<LinkKey, Link>, now: int)
    : map<NoteId, Note>
  {
    map id | id in notes ::
      NoteAfterScan(notes[id], ClosingEdge(before, after, id), OpeningEdge(before, after, id),
                    AllLinksClosed(after, id), now)
  }

  /** What a scan stores as the repo's ETag: the answer's, or else the one read before the fetch. */
  function StoredEtag(etags: map<Repo, Etag>, repo: Repo, answered: Option<Etag>, sent: Option<Etag>): map<Repo, Etag> {
    if answered.Some? then etags[repo := answered.value]
    else if sent.Some? then etags[repo := sent.value]
    else etags - {repo}
  }

  /** The commit of a complete scan that found exactly `open`. */
  function ScanStep(b: Board, repo: Repo, open: set<nat>, answered: Option<Etag>, sent: Option<Etag>, now: int): Board {
    var after := LinksAfterScan(b.links, repo, open, now);
    b.(links := after,
       rows := RowsAfterScan(b, repo, open, now),
       notes := NotesAfterScan(b.notes, b.links, after, now),
       etags := StoredEtag(b.etags, repo, answered, sent))
  }

  // ---- Watching, booting ----

  function UnwatchStep(b: Board, watched: set<Repo>, now: int): Board {
    b.(rows := map k | k in b.rows ::
         if k.repo !in watched && b.rows[k].archivedAt.None?
         then b.rows[k].(archivedAt := Some(now), updatedAt := now) else b.rows[k],
       etags := map r | r in b.etags && r in watched :: b.etags[r])
  }

  /** For a repo as a link may spell it, the watched spelling that it matches. A watched repo matches itself. */
  type Spellings = map<Repo, Repo>

  function Respelt(spellings: Spellings, l: LinkKey): LinkKey {
    if l.issue.repo in spellings then LinkKey(l.note, Issue(spellings[l.issue.repo], l.issue.number)) else l
  }

  /** One link rewritten to the watched spelling. Merged with a link that already has it, it is open again. */
  function Canonical(links: map<LinkKey, Link>, spellings: Spellings, l: LinkKey): map<LinkKey, Link> {
    var twin := Respelt(spellings, l);
    if l !in links || twin == l then links
    else if twin in links then (links - {l})[twin := links[twin].(open := true, closedAt := None)]
    else (links - {l})[twin := links[l]]
  }

  /** All links rewritten, in the order of their rows. */
  function Canonicalised(links: map<LinkKey, Link>, spellings: Spellings, order: seq<LinkKey>): map<LinkKey, Link> {
    if order == [] then links
    else Canonical(Canonicalised(links, spellings, order[..|order| - 1]), spellings, order[|order| - 1])
  }

  function RepairedRows(rows: map<Issue, MirrorRow>, links: map<LinkKey, Link>): map<Issue, MirrorRow> {
    map k | k in rows ::
      if rows[k].archivedAt.None? && Linked(links, k) then rows[k].(archivedAt := Some(rows[k].updatedAt)) else rows[k]
  }

  /** Link spellings first, then the duplicates they reveal, then every ETag. */
  function BootStep(b: Board, spellings: Spellings, order: seq<LinkKey>): Board {
    var links := Canonicalised(b.links, spellings, order);
    b.(links := links, rows := RepairedRows(b.rows, links), etags := map[])
  }

  // ---- A backlog push ----

  /** A backlog row's state is its text. Nothing is written, no stamp either, when nothing changed. */
  function LineAfterPush(stored: Option<Line>, e: Entry, now: int): Line {
    if stored.None? then Line(e.text, e.project, !e.text.done, if e.text.done then Some(now) else None, None, now)
    else
      var l := stored.value;
      var project := if e.project.Some? then e.project else l.project;
      if l.text == e.text && l.archivedAt.None? && project == l.project && l.open == !e.text.done then l
      else Line(e.text, project, !e.text.done,
                if l.open == !e.text.done then l.closedAt
                else if !e.text.done then None
                else if l.closedAt.Some? then l.closedAt else Some(now),
                None, now)
  }

  function Get<K, V>(m: map<K, V>, k: K): Option<V> { if k in m then Some(m[k]) else None }

  /** Two tables that answer every key alike are one table. */
  lemma MapsAgree<K, V>(a: map<K, V>, b: map<K, V>)
    requires forall k :: Get(a, k) == Get(b, k)
    ensures a == b
  {
    forall k
      ensures k in a <==> k in b
      ensures k in a ==> a[k] == b[k]
    {
      assert Get(a, k) == Get(b, k);
    }
  }

  function Upserted(lines: map<Key, Line>, entries: seq<Entry>, now: int): map<Key, Line> {
    if entries == [] then lines
    else
      var e := entries[|entries| - 1];
      var before := Upserted(lines, entries[..|entries| - 1], now);
      before[e.key := LineAfterPush(Get(before, e.key), e, now)]
  }

  function KeysOf(entries: seq<Entry>): set<Key> { set e | e in entries :: e.key }

  function ArchiveMissing(lines: map<Key, Line>, seen: set<Key>, now: int): map<Key, Line> {
    map k | k in lines ::
      if k !in seen && lines[k].archivedAt.None?
      then lines[k].(archivedAt := Some(now), updatedAt := now) else lines[k]
  }

  /** What backlog.txt says about a tag: its live lines, or that it had some, or never. */
  datatype Status = Never | Gone | DoneLines | OpenLine

  predicate LiveTagged(lines: map<Key, Line>, k: Key, tag: Tag) {
    k in lines && lines[k].archivedAt.None? && tag in lines[k].text.tags
  }

  function StatusOf(lines: map<Key, Line>, tag: Tag): Status {
    if exists k | k in lines :: LiveTagged(lines, k, tag) && lines[k].open then OpenLine
    else if exists k | k in lines :: LiveTagged(lines, k, tag) then DoneLines
    else if exists k | k in lines :: tag in lines[k].text.tags then Gone
    else Never
  }

  predicate Present(s: Status) { s == OpenLine || s == DoneLines }

  function NoteAfterPush(n: Note, before: Status, after: Status, now: int): Note {
    if !n.filed then n
    else if Present(after) then
      var m := n.(absent := 0);
      if after == OpenLine && !n.open && n.closedBy == Some(Backlog) then Reopened(m, now)
      else if after == DoneLines && n.open && before != DoneLines then Closed(m, Some(Backlog), now)
      else m
    else if n.absent < BACKLOG_ABSENT_PUSHES then
      var m := n.(absent := n.absent + 1);
      if m.absent == BACKLOG_ABSENT_PUSHES && n.open then Closed(m, Some(Backlog), now) else m
    else n
  }

  function NotesAfterPush(notes: map<NoteId, Note>, before: map<Key, Line>, after: map<Key, Line>, now: int)
    : map<NoteId, Note>
  {
    map id | id in notes ::
      NoteAfterPush(notes[id], StatusOf(before, TagOf(id)), StatusOf(after, TagOf(id)), now)
  }

  function PushedLines(lines: map<Key, Line>, entries: seq<Entry>, complete: bool, now: int): map<Key, Line> {
    var upserted := Upserted(lines, entries, now);
    if complete then ArchiveMissing(upserted, KeysOf(entries), now) else upserted
  }

  function PushStep(b: Board, entries: seq<Entry>, complete: bool, now: int): Board {
    var lines := PushedLines(b.lines, entries, complete, now);
    if !complete then b.(lines := lines)
    else b.(lines := lines,
            notes := NotesAfterPush(b.notes, b.lines, lines, now))
  }

  // ---- The steps of a run ----

  datatype Event =
    | CreateNote(id: NoteId, now: int)
    | DeleteNote(id: NoteId)
    | SetStateByHand(id: NoteId, reopen: bool, now: int)
    | FileToBacklog(id: NoteId, now: int)
    | LinkIssue(id: NoteId, issue: Issue, now: int)
    | StartSync(watched: set<Repo>, now: int)
    | CompleteScan(repo: Repo, open: set<nat>, answered: Option<Etag>, sent: Option<Etag>, now: int)
    | NotModified(repo: Repo)
    | PartialScan(repo: Repo)
    | BacklogPush(entries: seq<Entry>, complete: bool, now: int)
    | Boot(spellings: Spellings, order: seq<LinkKey>)

  function Step(b: Board, e: Event): Board {
    match e
    case CreateNote(id, now) =>
      if id in b.notes then b else b.(notes := b.notes[id := Note(true, None, None, false, 0, now)])
    case DeleteNote(id) => DeleteStep(b, id)
    case SetStateByHand(id, reopen, now) =>
      if id !in b.notes then b
      else b.(notes := b.notes[id := if reopen then Reopened(b.notes[id], now) else Closed(b.notes[id], None, now)])
    case FileToBacklog(id, now) =>
      if id !in b.notes then b
      else b.(notes := b.notes[id := b.notes[id].(filed := true, updatedAt := now)])
    case LinkIssue(id, issue, now) => LinkStep(b, id, issue, now)
    case StartSync(watched, now) => UnwatchStep(b, watched, now)
    case CompleteScan(repo, open, answered, sent, now) => ScanStep(b, repo, open, answered, sent, now)
    case NotModified(_) => b
    case PartialScan(_) => b
    case BacklogPush(entries, complete, now) => PushStep(b, entries, complete, now)
    case Boot(spellings, order) => BootStep(b, spellings, order)
  }
}
