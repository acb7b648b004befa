/**
 From the whole board's pushes back to one job: what a recompute of the board sends is,
 job by job, what that job's own run says was posted, and so is what lands of it.
 */
module BoardPushes {
  import opened Wrappers
  import opened Policy
  import opened EpisodeRules
  import EpisodeRate
  import opened EpisodeRuns
  import opened Board
  import opened MachineOffline
  import opened Services

  predicate Refused(p: Intent, i: BoardInput) { p.job in (if p.kind == Recovery then i.refusedRecoveries else i.refusedPages) }

  function PostOf(p: Intent, i: BoardInput): Post { Post(i.now, p.kind, p.state, p.badSince, !Refused(p, i)) }

  /** The pushes of one job among those sent, as posts. */
  function PostsOf(sent: seq<Intent>, id: string, i: BoardInput): seq<Post> {
    if sent == [] then []
    else
      var last := sent[|sent| - 1];
      PostsOf(sent[..|sent| - 1], id, i) + if last.job == id then [PostOf(last, i)] else []
  }

  function OnlyLanded(posts: seq<Post>): seq<Post> {
    if posts == [] then []
    else OnlyLanded(posts[..|posts| - 1]) + if posts[|posts| - 1].landed then [posts[|posts| - 1]] else []
  }

  lemma PostsConcat(a: seq<Intent>, b: seq<Intent>, id: string, i: BoardInput)
    ensures PostsOf(a + b, id, i) == PostsOf(a, id, i) + PostsOf(b, id, i)
  {
    if b == [] {
      assert a + b == a;
    } else {
      assert (a + b)[..|a + b| - 1] == a + b[..|b| - 1];
      PostsConcat(a, b[..|b| - 1], id, i);
    }
  }

  lemma OnlyLandedConcat(a: seq<Post>, b: seq<Post>)
    ensures OnlyLanded(a + b) == OnlyLanded(a) + OnlyLanded(b)
  {
    if b == [] {
      assert a + b == a;
    } else {
      assert (a + b)[..|a + b| - 1] == a + b[..|b| - 1];
      OnlyLandedConcat(a, b[..|b| - 1]);
    }
  }

  /** Keeping one job's pushes and dropping the refused ones can be done in either order. */
  lemma {:induction false} LandedAreOfTheSent(sent: seq<Intent>, id: string, i: BoardInput)
    ensures PostsOf(LandedOf(sent, i.refusedPages, i.refusedRecoveries), id, i) == OnlyLanded(PostsOf(sent, id, i))
  {
    if sent != [] {
      var rest, last := sent[..|sent| - 1], sent[|sent| - 1];
      LandedAreOfTheSent(rest, id, i);
      var one := if last.job == id then [PostOf(last, i)] else [];
      OnlyLandedConcat(PostsOf(rest, id, i), one);
      assert one != [] ==> one[..0] == [];
      var tail := if Refused(last, i) then [] else [last];
      PostsConcat(LandedOf(rest, i.refusedPages, i.refusedRecoveries), tail, id, i);
      assert tail != [] ==> tail[..0] == [];
    }
  }

  // ---- One recompute ----

  /** What of one pass's decision for a job is sent. */
  function PostsOfOut(o: Out, i: BoardInput): seq<Post> {
    (if o.page.Some? then [PostOf(o.page.value, i)] else []) + if o.recovery.Some? then [PostOf(o.recovery.value, i)] else []
  }

  /** Of one job's pushes another job has none. */
  lemma OwnPosts(o: Out, owner: string, id: string, i: BoardInput)
    requires OwnedBy(o, owner)
    ensures PostsOf(IntentsOf(o), id, i) == if owner == id then PostsOfOut(o, i) else []
  {
    var page := if o.page.Some? then [o.page.value] else [];
    var recovery := if o.recovery.Some? then [o.recovery.value] else [];
    PostsConcat(page, recovery, id, i);
    assert page != [] ==> page[..0] == [];
    assert recovery != [] ==> recovery[..0] == [];
  }

  lemma OneMoreJob(outs: seq<Out>, n: nat, owner: string, id: string, i: BoardInput)
    requires n < |outs| && OwnedBy(outs[n], owner)
    ensures PostsOf(AllIntents(outs[..n + 1]), id, i)
         == PostsOf(AllIntents(outs[..n]), id, i) + if owner == id then PostsOfOut(outs[n], i) else []
  {
    var earlier, own := AllIntents(outs[..n]), IntentsOf(outs[n]);
    assert outs[..n + 1][..n] == outs[..n];
    assert AllIntents(outs[..n + 1]) == earlier + own;
    PostsConcat(earlier, own, id, i);
    OwnPosts(outs[n], owner, id, i);
  }

  lemma {:induction false} PostsUpTo(jobs: Registry, outs: seq<Out>, n: nat, k: nat, i: BoardInput)
    requires DistinctIds(jobs) && n <= |outs| == |jobs| && k < |jobs|
    requires forall j | 0 <= j < |jobs| :: OwnedBy(outs[j], jobs[j].id)
    ensures PostsOf(AllIntents(outs[..n]), jobs[k].id, i) == if k < n then PostsOfOut(outs[k], i) else []
  {
    if n > 0 {
      PostsUpTo(jobs, outs, n - 1, k, i);
      OneMoreJob(outs, n - 1, jobs[n - 1].id, jobs[k].id, i);
    }
  }

  lemma RecoveriesNameNoEpisode(jobs: Registry, board: Records, i: BoardInput, job: Job)
    requires Covers(jobs, board, i) && job in jobs
    ensures OutFor(jobs, board, i, job).recovery.Some? ==> OutFor(jobs, board, i, job).recovery.value.badSince.None?
  {
  }

  /** What a recompute of the board sends, seen from one job, is what that job's own recompute posted. */
  lemma SentPushesAreTheJobs(jobs: Registry, m: BoardMoment, job: Job)
    requires DistinctIds(jobs) && Covers(jobs, m.pre, m.input) && job in jobs
    ensures PostsOf(AllIntents(Decide(jobs, m.pre, m.input)), job.id, m.input) == Posted(Share(jobs, m, job))
  {
    var k :| 0 <= k < |jobs| && jobs[k] == job;
    var outs := Decide(jobs, m.pre, m.input);
    AllOwned(jobs, m.pre, m.input, outs);
    PostsUpTo(jobs, outs, |outs|, k, m.input);
    assert outs[..|outs|] == outs && DecidedAt(jobs, m.pre, m.input, outs, k);
    OutBelongs(jobs, m.pre, m.input, job);
    RecoveriesNameNoEpisode(jobs, m.pre, m.input, job);
  }

  /** So what lands of it is what of the job's own posts landed. */
  lemma LandedPushesAreTheJobs(jobs: Registry, m: BoardMoment, job: Job)
    requires DistinctIds(jobs) && Covers(jobs, m.pre, m.input) && job in jobs
    ensures PostsOf(LandedIn(jobs, m), job.id, m.input) == OnlyLanded(Posted(Share(jobs, m, job)))
  {
    SentPushesAreTheJobs(jobs, m, job);
    LandedAreOfTheSent(AllIntents(Decide(jobs, m.pre, m.input)), job.id, m.input);
  }

  /** The pushes of a recompute that land, as the recompute itself reports them. */
  function LandedIn(jobs: Registry, m: BoardMoment): seq<Intent>
    requires Covers(jobs, m.pre, m.input)
  {
    LandedOf(AllIntents(Decide(jobs, m.pre, m.input)), m.input.refusedPages, m.input.refusedRecoveries)
  }

  // ---- Whole runs ----

  ghost predicate AllCovered(jobs: Registry, run: BoardRun) { forall m | m in run :: Covers(jobs, m.pre, m.input) }

  /** Everything that was sent about one job over a run of the board, refused or not. */
  function SentOver(jobs: Registry, run: BoardRun, id: string): seq<Post>
    requires AllCovered(jobs, run)
    decreases |run|
  {
    if run == [] then []
    else
      var m := run[|run| - 1];
      SentOver(jobs, run[..|run| - 1], id) + PostsOf(AllIntents(Decide(jobs, m.pre, m.input)), id, m.input)
  }

  /** Everything about it that reached the phone. */
  function LandedOver(jobs: Registry, run: BoardRun, id: string): seq<Post>
    requires AllCovered(jobs, run)
    decreases |run|
  {
    if run == [] then []
    else
      var m := run[|run| - 1];
      LandedOver(jobs, run[..|run| - 1], id) + PostsOf(LandedIn(jobs, m), id, m.input)
  }

  /**
   Over a whole run of the board what is sent about a job, refused or not, is what that
   job's own run posted: the ceiling, the retry gap and the push rate are about it.
   */
  lemma {:induction false} BoardSendsTheJobsRun(jobs: Registry, run: BoardRun, job: Job, own: Run)
    requires DistinctIds(jobs) && job in jobs && Shares(jobs, run, job, own) && AllCovered(jobs, run)
    ensures SentOver(jobs, run, job.id) == Posts(own)
    decreases |run|
  {
    if run != [] {
      var last := |run| - 1;
      assert Shares(jobs, run[..last], job, own[..last]);
      BoardSendsTheJobsRun(jobs, run[..last], job, own[..last]);
      SentPushesAreTheJobs(jobs, run[last], job);
    }
  }

  /** And what reaches the phone is what of that landed. */
  lemma {:induction false} PhoneHearsTheJobsRun(jobs: Registry, run: BoardRun, job: Job, own: Run)
    requires DistinctIds(jobs) && job in jobs && Shares(jobs, run, job, own) && AllCovered(jobs, run)
    ensures LandedOver(jobs, run, job.id) == OnlyLanded(Posts(own))
    decreases |run|
  {
    if run != [] {
      var last := |run| - 1;
      assert Shares(jobs, run[..last], job, own[..last]);
      PhoneHearsTheJobsRun(jobs, run[..last], job, own[..last]);
      LandedPushesAreTheJobs(jobs, run[last], job);
      OnlyLandedConcat(Posts(Before(own)), Posted(Final(own)));
    }
  }

  /** The count the rate bounds speak of is the number of those pushes. */
  lemma {:induction false} LandedCounts(posts: seq<Post>)
    ensures EpisodeRate.Landed(posts) == |OnlyLanded(posts)|
  {
    if posts != [] {
      LandedCounts(posts[..|posts| - 1]);
    }
  }

  lemma BoardRunsAreCovered(jobs: Registry, board: Records, from: int, run: BoardRun)
    requires IsBoardRun(jobs, board, from, run)
    ensures AllCovered(jobs, run)
  {
    forall m | m in run
      ensures Covers(jobs, m.pre, m.input)
    {
      var k :| 0 <= k < |run| && run[k] == m;
      assert BoardLink(jobs, board, from, run, k);
    }
  }

  /** A job's own run ends when the board's does. */
  lemma SameClock(jobs: Registry, from: int, run: BoardRun, job: Job, own: Run)
    requires job in jobs && Shares(jobs, run, job, own)
    ensures End(from, own) == ClockAfter(from, run)
  {
  }

  /** `count` pushes up to `end`: none before the first of the pages, and at most three per started cooldown since. */
  predicate WithinRate(job: Job, pages: seq<int>, from: int, end: int, count: nat) {
    && (pages == [] ==> count == 0)
    && (pages != [] ==> count <= 3 * ((end - pages[0]) / Cooldown(job) + 1))
    && count <= 3 * ((end - from) / Cooldown(job) + 1)
  }

  lemma LandedRate(job: Job, from: int, own: Run)
    requires IsRun(job, FRESH, from, own)
    ensures WithinRate(job, EpisodeRate.FirstPages(own), from, End(from, own), |OnlyLanded(Posts(own))|)
  {
    LandedCounts(Posts(own));
    EpisodeRate.PushRate(job, from, own);
  }

  /**
   THE PHONE. In every run of the whole board, restarts and refusals included, nothing
   about a job reaches the phone before the first of its page stamps that stays, and in
   the T seconds after it at most three pushes per started cooldown do; so too counted
   from the run's start.
   */
  lemma PhonePushRate(jobs: Registry, board: Records, from: int, run: BoardRun, job: Job) returns (own: Run)
    requires DistinctIds(jobs) && IsBoardRun(jobs, board, from, run) && job in jobs
    ensures Shares(jobs, run, job, own) && AllCovered(jobs, run)
    ensures WithinRate(job, EpisodeRate.FirstPages(own), from, ClockAfter(from, run), |LandedOver(jobs, run, job.id)|)
  {
    own := RunOfOneJob(jobs, board, from, run, job);
    BoardRunsAreCovered(jobs, board, from, run);
    PhoneHearsTheJobsRun(jobs, run, job, own);
    SameClock(jobs, from, run, job, own);
    LandedRate(job, from, own);
  }
}
