/**
 The GitHub mirror over whole runs: a complete scan makes the board say what is open
 upstream, and skipping a scan on an unchanged ETag is doing it.
 */
module InboxMirror {
  import opened Wrappers
  import opened InboxRules

  /** What GitHub answers: the open issues of a repo at the moment it gave out an ETag. */
  type Upstream = (Repo, Etag) -> set<nat>

  /** What every step keeps about the tables, whatever GitHub says. */
  ghost predicate Tidy(b: Board) {
    && (forall l | l in b.links :: l.note in b.notes)
    && (forall k | k in b.rows && Linked(b.links, k) :: b.rows[k].archivedAt.Some?)
    && (forall k | k in b.rows && b.rows[k].open :: b.rows[k].closedAt.None?)
  }

  /** The board says of `repo` that exactly the issues `open` are open. */
  ghost predicate Shows(b: Board, repo: Repo, open: set<nat>) {
    && (forall l | l in b.links && l.issue.repo == repo :: b.links[l].open <==> l.issue.number in open)
    && (forall n | n in open && !Linked(b.links, Issue(repo, n)) :: Issue(repo, n) in b.rows)
    && (forall k | k in b.rows && k.repo == repo && !Linked(b.links, k) ::
          b.rows[k].archivedAt.None? && (b.rows[k].open <==> k.number in open))
  }

  /** An ETag is only stored for a repo the board shows as it was when GitHub gave that ETag out. */
  ghost predicate Coherent(up: Upstream, b: Board) {
    forall repo | repo in b.etags :: Shows(b, repo, up(repo, b.etags[repo]))
  }

  /**
   The assumption about GitHub: every complete answer carries an ETag, and the ETag fixes
   its open issues. A scan's step is its commit; its answer may have been fetched any
   number of steps before, with links, pushes and hand changes in between.
   */
  predicate Honest(up: Upstream, e: Event) {
    e.CompleteScan? ==> e.answered.Some? && e.open == up(e.repo, e.answered.value)
  }

  // ---- A complete scan ----

  /** Two link tables of the same keys link the same issues. */
  lemma SameKeysLinkTheSame(before: map<LinkKey, Link>, after: map<LinkKey, Link>, k: Issue)
    requires after.Keys == before.Keys
    ensures Linked(after, k) <==> Linked(before, k)
  {
    if Linked(before, k) {
      var l :| l in before && l.issue == k;
      assert l in after;
    }
    if Linked(after, k) {
      var l :| l in after && l.issue == k;
      assert l in before;
    }
  }

  /** One row after a scan of its repo: the row of a linked issue is off the board, any other is on it and true. */
  lemma RowAfterScan(b: Board, repo: Repo, open: set<nat>, now: int, k: Issue)
    requires Tidy(b) && k.repo == repo && k in RowsAfterScan(b, repo, open, now)
    ensures var row := RowsAfterScan(b, repo, open, now)[k];
      && (Linked(b.links, k) ==> row.archivedAt.Some?)
      && (!Linked(b.links, k) ==> row.archivedAt.None? && (row.open <==> k.number in open))
      && (row.open ==> row.closedAt.None?)
  {
    assert k in b.rows || k in NewIssues(b, repo, open);
  }

  /** Every issue open upstream that no note links has a row after the scan. */
  lemma OpenIssuesHaveRows(b: Board, repo: Repo, open: set<nat>, now: int, n: nat)
    requires n in open && !Linked(b.links, Issue(repo, n))
    ensures Issue(repo, n) in RowsAfterScan(b, repo, open, now)
  {
    assert Issue(repo, n) in NewIssues(b, repo, open);
  }

  lemma NewIssuesAreOfTheRepo(b: Board, repo: Repo, open: set<nat>, now: int, k: Issue)
    requires k in RowsAfterScan(b, repo, open, now) && k.repo != repo
    ensures k in b.rows && RowsAfterScan(b, repo, open, now)[k] == b.rows[k]
  {
    assert k !in NewIssues(b, repo, open);
  }

  /**
   A COMPLETE SCAN IS THE SIMPLE BOARD. Afterwards every link of the repo is open
   exactly when its issue is; every issue nobody linked has a live row, open exactly
   when the issue is, or no row if it was never seen; and no other repo has changed.
   */
  lemma ScanShowsUpstream(b: Board, repo: Repo, open: set<nat>, answered: Option<Etag>, sent: Option<Etag>, now: int)
    requires Tidy(b)
    ensures Shows(ScanStep(b, repo, open, answered, sent, now), repo, open)
    ensures var after := ScanStep(b, repo, open, answered, sent, now);
      && after.rows.Keys == b.rows.Keys + NewIssues(b, repo, open)
      && after.links.Keys == b.links.Keys
      && (forall k | k in b.rows && k.repo != repo :: after.rows[k] == b.rows[k])
      && (forall l | l in b.links && l.issue.repo != repo :: after.links[l] == b.links[l])
  {
    var after := ScanStep(b, repo, open, answered, sent, now);
    forall k
      ensures Linked(after.links, k) <==> Linked(b.links, k)
    {
      SameKeysLinkTheSame(b.links, after.links, k);
    }
    forall k | k in after.rows && k.repo == repo && !Linked(after.links, k)
      ensures after.rows[k].archivedAt.None? && (after.rows[k].open <==> k.number in open)
    {
      RowAfterScan(b, repo, open, now, k);
    }
    forall n | n in open && !Linked(after.links, Issue(repo, n))
      ensures Issue(repo, n) in after.rows
    {
      OpenIssuesHaveRows(b, repo, open, now, n);
    }
  }

  lemma ScanKeepsTidy(b: Board, repo: Repo, open: set<nat>, answered: Option<Etag>, sent: Option<Etag>, now: int)
    requires Tidy(b)
    ensures Tidy(ScanStep(b, repo, open, answered, sent, now))
  {
    var after := ScanStep(b, repo, open, answered, sent, now);
    forall k | k in after.rows
      ensures Linked(after.links, k) ==> after.rows[k].archivedAt.Some?
      ensures after.rows[k].open ==> after.rows[k].closedAt.None?
    {
      SameKeysLinkTheSame(b.links, after.links, k);
      if k.repo == repo {
        RowAfterScan(b, repo, open, now, k);
      } else {
        NewIssuesAreOfTheRepo(b, repo, open, now, k);
      }
    }
  }

  /** A scan of what the board already shows writes nothing at all, whatever the clock says. */
  lemma {:induction false} ScanOfTheSameWritesNothing(b: Board, repo: Repo, open: set<nat>, now: int)
    requires Tidy(b) && Shows(b, repo, open) && repo in b.etags
    ensures ScanStep(b, repo, open, Some(b.etags[repo]), Some(b.etags[repo]), now) == b
  {
    var after := ScanStep(b, repo, open, Some(b.etags[repo]), Some(b.etags[repo]), now);
    assert after.links == b.links;
    forall n | n in open && !Linked(b.links, Issue(repo, n))
      ensures Issue(repo, n) in b.rows
    {
    }
    assert NewIssues(b, repo, open) <= b.rows.Keys;
    assert after.rows == b.rows;
    assert after.notes == b.notes;
    assert after.etags == b.etags;
  }

  /**
   SKIPPING IS SCANNING. Wherever an ETag is stored, the full scan GitHub's 304 saves
   would have changed nothing: no row, no link, no note, no stamp.
   */
  lemma SkippingEqualsScanning(up: Upstream, b: Board, repo: Repo, now: int)
    requires Tidy(b) && Coherent(up, b) && repo in b.etags
    ensures var etag := b.etags[repo];
      Step(b, CompleteScan(repo, up(repo, etag), Some(etag), Some(etag), now)) == Step(b, NotModified(repo))
  {
    ScanOfTheSameWritesNothing(b, repo, up(repo, b.etags[repo]), now);
  }

  // ---- What each step keeps ----

  predicate SameFace(r: MirrorRow, s: MirrorRow) {
    r.open == s.open && (r.archivedAt.None? <==> s.archivedAt.None?)
  }

  /** The two boards hold the same links and rows of `repo`, in the same states. */
  ghost predicate SameOf(a: Board, b: Board, repo: Repo) {
    && (forall l: LinkKey | l.issue.repo == repo ::
          && (l in a.links <==> l in b.links)
          && (l in a.links ==> b.links[l].open == a.links[l].open))
    && (forall k: Issue | k.repo == repo ::
          && (k in a.rows <==> k in b.rows)
          && (k in a.rows ==> SameFace(a.rows[k], b.rows[k])))
  }

  /** `Shows` reads only the links and the rows of its own repo. */
  lemma ShowsAgree(a: Board, b: Board, repo: Repo, open: set<nat>)
    requires Shows(a, repo, open) && SameOf(a, b, repo)
    ensures Shows(b, repo, open)
  {
    forall k: Issue | k.repo == repo
      ensures Linked(a.links, k) <==> Linked(b.links, k)
    {
      if Linked(a.links, k) {
        var l :| l in a.links && l.issue == k;
        assert l in b.links;
      }
      if Linked(b.links, k) {
        var l :| l in b.links && l.issue == k;
        assert l in a.links;
      }
    }
  }

  /** A step that leaves every repo it keeps an ETag for as it was keeps the ETags coherent. */
  lemma SameBoardsStayCoherent(up: Upstream, a: Board, b: Board)
    requires Coherent(up, a)
    requires forall repo | repo in b.etags :: repo in a.etags && b.etags[repo] == a.etags[repo] && SameOf(a, b, repo)
    ensures Coherent(up, b)
  {
    forall repo | repo in b.etags
      ensures Shows(b, repo, up(repo, b.etags[repo]))
    {
      ShowsAgree(a, b, repo, up(repo, a.etags[repo]));
    }
  }

  lemma ScanLeavesOtherRepos(b: Board, scanned: Repo, open: set<nat>, answered: Option<Etag>, sent: Option<Etag>, now: int,
                             repo: Repo)
    requires repo != scanned
    ensures SameOf(b, ScanStep(b, scanned, open, answered, sent, now), repo)
  {
    var after := ScanStep(b, scanned, open, answered, sent, now);
    forall k: Issue | k.repo == repo
      ensures k in b.rows <==> k in after.rows
      ensures k in b.rows ==> after.rows[k] == b.rows[k]
    {
      assert k !in NewIssues(b, scanned, open);
    }
  }

  lemma ScanKeepsCoherence(up: Upstream, b: Board, e: Event)
    requires Tidy(b) && Coherent(up, b) && e.CompleteScan? && Honest(up, e)
    ensures Coherent(up, Step(b, e))
  {
    var after := ScanStep(b, e.repo, e.open, e.answered, e.sent, e.now);
    assert after.etags == b.etags[e.repo := e.answered.value];
    forall repo | repo in after.etags
      ensures Shows(after, repo, up(repo, after.etags[repo]))
    {
      if repo == e.repo {
        ScanShowsUpstream(b, e.repo, e.open, e.answered, e.sent, e.now);
      } else {
        ScanLeavesOtherRepos(b, e.repo, e.open, e.answered, e.sent, e.now, repo);
        ShowsAgree(b, after, repo, up(repo, b.etags[repo]));
      }
    }
  }

  /** A link of `issue` leaves every other repo alone, and is the only new thing linked. */
  lemma LinkChangesOneIssue(b: Board, id: NoteId, issue: Issue, now: int, repo: Repo)
    requires Tidy(b) && id in b.notes
    requires repo != issue.repo || LinkKey(id, issue) in b.links
    ensures SameOf(b, LinkStep(b, id, issue, now), repo)
  {
    if LinkKey(id, issue) in b.links {
      assert Linked(b.links, issue);
    }
  }

  lemma LinkKeepsTidy(b: Board, id: NoteId, issue: Issue, now: int)
    requires Tidy(b)
    ensures Tidy(LinkStep(b, id, issue, now))
  {
    var after := LinkStep(b, id, issue, now);
    forall k | k in after.rows && Linked(after.links, k)
      ensures after.rows[k].archivedAt.Some?
    {
      var l :| l in after.links && l.issue == k;
      if k != issue {
        assert l in b.links;
        assert Linked(b.links, k);
      }
    }
  }

  lemma DeleteKeepsTidy(b: Board, id: NoteId)
    requires Tidy(b)
    ensures Tidy(DeleteStep(b, id))
  {
    var after := DeleteStep(b, id);
    forall k | k in after.rows && Linked(after.links, k)
      ensures after.rows[k].archivedAt.Some?
    {
      var l :| l in after.links && l.issue == k;
      assert l in b.links;
      assert Linked(b.links, k);
    }
  }

  lemma DeleteLeavesOtherRepos(b: Board, id: NoteId, repo: Repo)
    requires id in b.notes && repo !in ReposOf(b.links, id)
    ensures SameOf(b, DeleteStep(b, id), repo)
  {
  }

  lemma {:induction false} CanonicalisedKeepsNotes(links: map<LinkKey, Link>, spellings: Spellings, order: seq<LinkKey>, ids: set<NoteId>)
    requires forall l | l in links :: l.note in ids
    ensures forall l | l in Canonicalised(links, spellings, order) :: l.note in ids
  {
    if order != [] {
      CanonicalisedKeepsNotes(links, spellings, order[..|order| - 1], ids);
    }
  }

  lemma BootKeepsTidy(b: Board, spellings: Spellings, order: seq<LinkKey>)
    requires Tidy(b)
    ensures Tidy(BootStep(b, spellings, order))
  {
    CanonicalisedKeepsNotes(b.links, spellings, order, b.notes.Keys);
  }

  lemma StepKeepsTidy(b: Board, e: Event)
    requires Tidy(b)
    ensures Tidy(Step(b, e))
  {
    match e
    case CompleteScan(repo, open, answered, sent, now) => ScanKeepsTidy(b, repo, open, answered, sent, now);
    case LinkIssue(id, issue, now) => LinkKeepsTidy(b, id, issue, now);
    case DeleteNote(id) => DeleteKeepsTidy(b, id);
    case Boot(spellings, order) => BootKeepsTidy(b, spellings, order);
    case _ =>
  }

  lemma SyncLeavesWatchedRepos(b: Board, watched: set<Repo>, now: int, repo: Repo)
    requires repo in watched
    ensures SameOf(b, UnwatchStep(b, watched, now), repo)
  {
  }

  lemma SameTablesAreTheSameRepo(a: Board, b: Board, repo: Repo)
    requires a.links == b.links && a.rows == b.rows
    ensures SameOf(a, b, repo)
  {
  }

  /** Outside a scan, the repos whose ETag survives a step are the ones the step leaves alone. */
  lemma StepLeavesTheRepo(b: Board, e: Event, repo: Repo)
    requires Tidy(b) && !e.CompleteScan? && repo in Step(b, e).etags
    ensures repo in b.etags && Step(b, e).etags[repo] == b.etags[repo] && SameOf(b, Step(b, e), repo)
  {
    match e
    case LinkIssue(id, issue, now) =>
      if id in b.notes {
        LinkChangesOneIssue(b, id, issue, now, repo);
      }
    case DeleteNote(id) =>
      if id in b.notes {
        DeleteLeavesOtherRepos(b, id, repo);
      }
    case StartSync(watched, now) => SyncLeavesWatchedRepos(b, watched, now, repo);
    case Boot(_, _) =>
    case _ => SameTablesAreTheSameRepo(b, Step(b, e), repo);
  }

  /** Every step, hand changes and pushes and links and restarts included, keeps the ETags coherent. */
  lemma StepKeepsCoherence(up: Upstream, b: Board, e: Event)
    requires Tidy(b) && Coherent(up, b) && Honest(up, e)
    ensures Tidy(Step(b, e)) && Coherent(up, Step(b, e))
  {
    StepKeepsTidy(b, e);
    if e.CompleteScan? {
      ScanKeepsCoherence(up, b, e);
    } else {
      var after := Step(b, e);
      forall repo | repo in after.etags
        ensures repo in b.etags && after.etags[repo] == b.etags[repo] && SameOf(b, after, repo)
      {
        StepLeavesTheRepo(b, e, repo);
      }
      SameBoardsStayCoherent(up, b, after);
    }
  }

  // ---- Whole runs ----

  /** The board after a run of steps from an empty store. */
  ghost function After(run: seq<Event>): Board {
    if run == [] then EMPTY else Step(After(run[..|run| - 1]), run[|run| - 1])
  }

  lemma AfterOneMore(run: seq<Event>, e: Event)
    ensures After(run + [e]) == Step(After(run), e)
  {
    assert (run + [e])[..|run|] == run;
  }

  ghost predicate HonestRun(up: Upstream, run: seq<Event>) { forall e | e in run :: Honest(up, e) }

  /** In every reachable state the tables are tidy: a linked issue has no live row, so each piece of work shows once. */
  lemma {:induction false} ReachableIsTidy(run: seq<Event>)
    ensures Tidy(After(run))
  {
    if run != [] {
      ReachableIsTidy(run[..|run| - 1]);
      StepKeepsTidy(After(run[..|run| - 1]), run[|run| - 1]);
    }
  }

  /** In every reachable state a stored ETag names the open set the board shows. */
  lemma {:induction false} ReachableIsCoherent(up: Upstream, run: seq<Event>)
    requires HonestRun(up, run)
    ensures Coherent(up, After(run))
  {
    if run == [] {
    } else {
      var before := run[..|run| - 1];
      assert HonestRun(up, before);
      assert Honest(up, run[|run| - 1]);
      ReachableIsTidy(before);
      ReachableIsCoherent(up, before);
      StepKeepsCoherence(up, After(before), run[|run| - 1]);
    }
  }

  /**
   In every run against an honest GitHub, answering a scan with 304 leaves the board
   exactly as listing the repo would have.
   */
  lemma NotModifiedMeansNothingToDo(up: Upstream, run: seq<Event>, repo: Repo, now: int)
    requires HonestRun(up, run) && repo in After(run).etags
    ensures var etag := After(run).etags[repo];
      After(run + [NotModified(repo)]) == After(run + [CompleteScan(repo, up(repo, etag), Some(etag), Some(etag), now)])
  {
    var etag := After(run).etags[repo];
    var listed := CompleteScan(repo, up(repo, etag), Some(etag), Some(etag), now);
    ReachableIsTidy(run);
    ReachableIsCoherent(up, run);
    SkippingEqualsScanning(up, After(run), repo, now);
    AfterOneMore(run, NotModified(repo));
    AfterOneMore(run, listed);
  }

  // ---- What an answer without an ETag does ----

  /** The board can show only one open set. */
  lemma ShowsOneOpenSet(b: Board, repo: Repo, open: set<nat>, other: set<nat>)
    requires Shows(b, repo, open) && Shows(b, repo, other)
    ensures open == other
  {
    forall n: nat
      ensures n in open <==> n in other
    {
      if Linked(b.links, Issue(repo, n)) {
        var l :| l in b.links && l.issue == Issue(repo, n);
      } else if Issue(repo, n) in b.rows {
        assert b.rows[Issue(repo, n)].open <==> n in open;
      }
    }
  }

  /**
   When a complete answer carries no ETag, the code stores the one it sent. That is
   coherent exactly when no ETag is stored at all or the stored one names the set just
   listed: the caller can see this before the commit.
   */
  lemma StoredEtagIsCoherentExactly(up: Upstream, b: Board, repo: Repo, open: set<nat>,
                                    answered: Option<Etag>, sent: Option<Etag>, now: int)
    requires Tidy(b) && Coherent(up, b)
    ensures var stored := if answered.Some? then answered else sent;
      Coherent(up, ScanStep(b, repo, open, answered, sent, now)) <==> stored.None? || up(repo, stored.value) == open
  {
    var stored := if answered.Some? then answered else sent;
    var after := ScanStep(b, repo, open, answered, sent, now);
    ScanShowsUpstream(b, repo, open, answered, sent, now);
    if stored.Some? && Coherent(up, after) {
      assert after.etags[repo] == stored.value;
      ShowsOneOpenSet(after, repo, open, up(repo, stored.value));
    }
    if stored.None? || up(repo, stored.value) == open {
      forall r | r in after.etags
        ensures Shows(after, r, up(r, after.etags[r]))
      {
        if r != repo {
          ScanLeavesOtherRepos(b, repo, open, answered, sent, now, r);
          ShowsAgree(b, after, r, up(r, b.etags[r]));
        }
      }
    }
  }

  /** A scan of a board that holds no note, no link and only the rows of one repo. */
  lemma ScanOfOneRow(b: Board, repo: Repo, n: nat, open: set<nat>, answered: Option<Etag>, sent: Option<Etag>, now: int)
    requires b.links == map[] && b.notes == map[] && open <= {n} && b.rows.Keys <= {Issue(repo, n)}
    requires Issue(repo, n) in b.rows || n in open
    ensures var issue, after := Issue(repo, n), ScanStep(b, repo, open, answered, sent, now);
      && after.links == map[] && after.notes == map[] && after.rows.Keys == {issue}
      && after.rows[issue] == (if issue in b.rows then OwnRowAfterScan(b.rows[issue], n in open, now)
                               else MirrorRow(true, None, None, now))
      && after.etags == StoredEtag(b.etags, repo, answered, sent)
  {
    var issue := Issue(repo, n);
    if n in open {
      assert issue in NewIssues(b, repo, open);
    }
    var after := ScanStep(b, repo, open, answered, sent, now);
    assert after.rows.Keys == {issue};
  }

  const STRANDED := Issue("o/r", 1)
  const FIRST_ANSWER := CompleteScan("o/r", {1}, Some("e1"), None, 10)
  const NO_ETAG := CompleteScan("o/r", {}, None, Some("e1"), 20)

  /** The board after those two answers: the closed row of issue 1 beside the ETag it was open under. */
  const STRANDED_BOARD := Board(map[], map[], map[STRANDED := MirrorRow(false, Some(20), None, 20)],
                                map["o/r" := "e1"], map[])

  lemma StrandedAtFirst()
    ensures Step(EMPTY, FIRST_ANSWER) == Board(map[], map[], map[STRANDED := MirrorRow(true, None, None, 10)], map["o/r" := "e1"], map[])
  {
    ScanOfOneRow(EMPTY, "o/r", 1, {1}, Some("e1"), None, 10);
  }

  lemma StrandedThen()
    ensures Step(Step(EMPTY, FIRST_ANSWER), NO_ETAG) == STRANDED_BOARD
  {
    StrandedAtFirst();
    var one := Board(map[], map[], map[STRANDED := MirrorRow(true, None, None, 10)], map["o/r" := "e1"], map[]);
    ScanOfOneRow(one, "o/r", 1, {}, None, Some("e1"), 20);
  }

  /**
   The ETag assumption is needed: issue 1 closes in an answer that carries no ETag, so
   the old one stays stored; when the issue opens again GitHub answers 304 to it, and
   the board goes on saying closed although a full scan would say open.
   */
  lemma AnAnswerWithoutEtagIsReachable()
    ensures After([FIRST_ANSWER, NO_ETAG]) == STRANDED_BOARD
  {
    AfterOneMore([], FIRST_ANSWER);
    AfterOneMore([FIRST_ANSWER], NO_ETAG);
    assert [] + [FIRST_ANSWER] == [FIRST_ANSWER] && [FIRST_ANSWER] + [NO_ETAG] == [FIRST_ANSWER, NO_ETAG];
    StrandedThen();
  }

  lemma AnAnswerWithoutEtagStrandsTheBoard(now: int)
    ensures Step(STRANDED_BOARD, NotModified("o/r")) == STRANDED_BOARD
    ensures var listed := Step(STRANDED_BOARD, CompleteScan("o/r", {1}, Some("e1"), Some("e1"), now));
      STRANDED in listed.rows && listed.rows[STRANDED] == MirrorRow(true, None, None, now)
  {
    ScanOfOneRow(STRANDED_BOARD, "o/r", 1, {1}, Some("e1"), Some("e1"), now);
  }
}
