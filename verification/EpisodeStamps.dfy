/** What the alert columns of an open episode say is what was pushed. */
module EpisodeStamps {
  import opened Wrappers
  import opened Policy
  import opened EpisodeRules
  import opened EpisodeInvariant
  import opened EpisodeRuns

  /** The pages of the open episode that landed, carried over one more recompute. */
  function NextPages(m: Moment, pages: seq<Post>): seq<Post> {
    if m.post.row.badSince.None? then []
    else
      (if m.pre.row.badSince.Some? then pages else [])
      + if m.out.page.Some? && m.input.pageLands then [PagePost(m)] else []
  }

  /** The pages of the episode open at the end of the run that landed, in order. */
  function EpisodePages(run: Run): seq<Post>
    decreases |run|
  {
    if run == [] then [] else NextPages(Final(run), EpisodePages(Before(run)))
  }

  ghost predicate StampsName(row: Row, pages: seq<Post>) {
    && (row.badSince.None? ==> pages == [])
    && (pages == [] ==> row.alertedAt.None? && row.alertedState.None?)
    && (pages != [] ==>
          && row.alertedAt == Some(pages[|pages| - 1].at)
          && row.alertedState == Some(pages[|pages| - 1].state)
          && row.lastPagedAt == row.alertedAt)
    && (forall k | 0 <= k < |pages| ::
          pages[k].landed && pages[k].episode == row.badSince && Alertable(pages[k].state))
    && (forall j, k | 0 <= j < k < |pages| :: Severity(pages[j].state) < Severity(pages[k].state))
    && (forall k | 0 <= k < |pages| :: pages[k].kind == if k == 0 then Alert else Escalation)
  }

  lemma StampsOverOneMoment(job: Job, m: Moment, clock: int, pages: seq<Post>)
    requires Observed(job, m, clock) && StampsName(m.pre.row, pages)
    ensures StampsName(m.post.row, NextPages(m, pages))
  {
    RowFacts(job, m, clock);
    if m.out.page.Some? {
      PageFacts(job, m, clock);
    }
  }

  /**
   While an episode is open its stamps name exactly the last page of it that landed;
   the pages of one episode that landed grow strictly in severity, so there are at
   most two: an alert, then an escalation.
   */
  lemma {:induction false} StampsTellTheTruth(job: Job, from: int, run: Run)
    requires IsRun(job, FRESH, from, run)
    ensures StampsName(After(FRESH, run).row, EpisodePages(run))
    ensures |EpisodePages(run)| <= 2
    decreases |run|
  {
    if run != [] {
      FreshIsWellFormed(from);
      LastMoment(job, FRESH, from, run);
      StampsTellTheTruth(job, from, Before(run));
      StampsOverOneMoment(job, Final(run), End(from, Before(run)), EpisodePages(Before(run)));
    }
    AtMostTwoRanks(EpisodePages(run));
  }

  lemma AtMostTwoRanks(pages: seq<Post>)
    requires forall k | 0 <= k < |pages| :: Alertable(pages[k].state)
    requires forall j, k | 0 <= j < k < |pages| :: Severity(pages[j].state) < Severity(pages[k].state)
    ensures |pages| <= 2
  {
    if 2 < |pages| {
      var low, middle, top := Severity(pages[0].state), Severity(pages[1].state), Severity(pages[2].state);
      assert false;
    }
  }

  /** A failed POST gives back the pair and the cooldown stamp it had replaced, if the episode is still there. */
  lemma FailedPageIsGivenBack(job: Job, m: Moment, clock: int)
    requires Observed(job, m, clock) && m.out.page.Some? && !m.input.pageLands
    ensures var row, r := m.pre.row, m.post.row;
      && r.lastPagedAt == (if r.badSince.None? then Some(m.input.now) else row.lastPagedAt)
      && (r.badSince.Some? ==>
            && r.badSince == Some(EpisodeStart(m))
            && r.alertedAt == row.alertedAt && r.alertedState == row.alertedState)
  {
    RowFacts(job, m, clock);
    PageFacts(job, m, clock);
  }
}
