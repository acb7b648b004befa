/**
 Concrete runs: three in which an episode past its threshold ends without anybody
 hearing of it, and one in which a restart forgets a refused POST.
 */
module EpisodeLosses {
  import opened Wrappers
  import opened Policy
  import opened StateLog
  import opened EpisodeRules
  import opened EpisodeInvariant
  import opened EpisodeRuns

  /** A job with a one-minute threshold and no cadence: six seconds of dwell, six hours of cooldown. */
  const BOX: Job := Job("box-containers", "box", false, 0, 60, false)

  function Sees(now: int, state: State, lands: bool): Input {
    Input(now, Obs(state, false, false), false, lands, lands)
  }

  /** The n-th recompute ends an episode its job had every right to be paged for, and no page of it landed. */
  ghost predicate EndsUnheard(run: Run, n: nat) {
    && n < |run|
    && run[n].pre.row.badSince.Some? && run[n].post.row.badSince.None?
    && run[n].pre.row.alertedAt.None?
    && PastClock(BOX, run[n].pre.row.badSince.value, run[n].input.now)
    && (run[n].out.page.None? || !run[n].input.pageLands)
  }

  /** Each of these runs starts with the job going FAIL at zero, which pages nobody yet. */
  lemma GoesBad() returns (run: Run)
    ensures IsRun(BOX, FRESH, 0, run) && |run| == 1 && End(0, run) == 0 && Posts(run) == []
    ensures After(FRESH, run) == Rec(Row(FAIL, Some(0), Some(0), None, None, None), [Change(0, FAIL)], NoTries)
  {
    run := Extend(BOX, FRESH, [], Sees(0, FAIL, true));
    ExtendIsRun(BOX, FRESH, 0, [], After(FRESH, []), Sees(0, FAIL, true));
    assert Before(run) == [] && Posted(Final(run)) == [];
  }

  /** UNKNOWN closes the episode without offering its page: not one POST in the whole run. */
  lemma UnknownLosesThePage() returns (run: Run)
    ensures IsRun(BOX, FRESH, 0, run) && EndsUnheard(run, 1) && Posts(run) == []
  {
    var first := GoesBad();
    run := Extend(BOX, FRESH, first, Sees(100, UNKNOWN, true));
    ExtendIsRun(BOX, FRESH, 0, first, After(FRESH, first), Sees(100, UNKNOWN, true));
    assert Before(run) == first && Posted(Final(run)) == [];
  }

  /** The threshold and the dwell are both first seen in one recompute whose POST fails: only the recovery lands. */
  lemma PageAndCloseLoseThePage() returns (run: Run)
    ensures IsRun(BOX, FRESH, 0, run) && EndsUnheard(run, 2)
    ensures run[2].out.page.Some? && run[2].out.recovery.Some? && run[2].input.recoveryLands
    ensures run[2].post.row.lastPagedAt == Some(100)
  {
    var b, c := Sees(0, OK, true), Sees(100, OK, false).(recoveryLands := true);
    var first := GoesBad();
    var second := Extend(BOX, FRESH, first, b);
    ExtendIsRun(BOX, FRESH, 0, first, After(FRESH, first), b);
    assert second[1].post.row == Row(OK, Some(0), Some(0), None, None, None);
    run := Extend(BOX, FRESH, second, c);
    ExtendIsRun(BOX, FRESH, 0, second, After(FRESH, second), c);
  }

  /** A page held by the cooldown is lost when the job recovers first. */
  lemma CooldownLosesThePage() returns (run: Run)
    ensures IsRun(BOX, FRESH, 0, run) && EndsUnheard(run, 6)
    ensures run[6].pre.row.lastPagedAt == Some(60) && run[6].out.page.None?
  {
    var paged := PagedAndRecovered();
    var a, b, c := Sees(100, FAIL, true), Sees(161, OK, true), Sees(170, OK, true);
    var four := Extend(BOX, FRESH, paged, a);
    ExtendIsRun(BOX, FRESH, 0, paged, After(FRESH, paged), a);
    assert four[4].post.row == Row(FAIL, Some(100), Some(100), None, None, Some(60));
    var five := Extend(BOX, FRESH, four, b);
    ExtendIsRun(BOX, FRESH, 0, four, After(FRESH, four), b);
    assert five[5].post.row == Row(OK, Some(161), Some(100), None, None, Some(60));
    run := Extend(BOX, FRESH, five, c);
    ExtendIsRun(BOX, FRESH, 0, five, After(FRESH, five), c);
  }

  lemma PagedAndRecovered() returns (run: Run)
    ensures IsRun(BOX, FRESH, 0, run) && |run| == 4 && End(0, run) == 67
    ensures After(FRESH, run).row == Row(OK, Some(61), None, None, None, Some(60))
  {
    var b, c, d := Sees(60, FAIL, true), Sees(61, OK, true), Sees(67, OK, true);
    var first := GoesBad();
    var second := Extend(BOX, FRESH, first, b);
    ExtendIsRun(BOX, FRESH, 0, first, After(FRESH, first), b);
    assert second[1].post.row == Row(FAIL, Some(0), Some(0), Some(60), Some(FAIL), Some(60));
    var third := Extend(BOX, FRESH, second, c);
    ExtendIsRun(BOX, FRESH, 0, second, After(FRESH, second), c);
    assert third[2].post.row == Row(OK, Some(61), Some(0), Some(60), Some(FAIL), Some(60));
    run := Extend(BOX, FRESH, third, d);
    ExtendIsRun(BOX, FRESH, 0, third, After(FRESH, third), d);
  }

  // ---- Across a restart ----

  /** One POST, refused: the row is as it was, and only the retry map knows. */
  lemma RefusedOnce() returns (run: Run)
    ensures IsRun(BOX, FRESH, 0, run) && |run| == 2 && End(0, run) == 60
    ensures After(FRESH, run).row == Row(FAIL, Some(0), Some(0), None, None, None)
    ensures After(FRESH, run).log == [Change(0, FAIL)]
    ensures run[1].out.page.Some? && !run[1].input.pageLands && run[1].input.now == 60
    ensures run[1].out.page.value.state == FAIL && run[1].out.page.value.badSince == Some(0)
  {
    var first := GoesBad();
    run := Extend(BOX, FRESH, first, Sees(60, FAIL, false));
    ExtendIsRun(BOX, FRESH, 0, first, After(FRESH, first), Sees(60, FAIL, false));
  }

  /** The distance is one life's: a restart forgets the refused POST, and the page is tried again a second later. */
  lemma ARestartForgetsTheGap() returns (run: Run)
    ensures IsRun(BOX, FRESH, 0, run) && |run| == 3 && run[2].pre == Forget(After(FRESH, run[..2]))
    ensures run[1].out.page.Some? && run[2].out.page.Some? && !run[1].input.pageLands
    ensures run[1].out.page.value.state == run[2].out.page.value.state
         && run[1].out.page.value.badSince == run[2].out.page.value.badSince
    ensures run[1].input.now == 60 && run[2].input.now == 61
  {
    var second := RefusedOnce();
    var up := Forget(After(FRESH, second));
    run := ExtendFrom(BOX, second, up, Sees(61, FAIL, false));
    ExtendIsRun(BOX, FRESH, 0, second, up, Sees(61, FAIL, false));
    assert run[..2] == second && run[1] == second[1];
  }
}
