# The Hopper dashboard, verified

A Dafny model of the parts of the dashboard whose behaviour is hard to see from
reading one function: when the phone rings, what the Inbox says is still open,
which probe turns the board red, and what the drafting worker may do to a note.
Times are whole seconds, a table is a map or a sequence, and one `BEGIN IMMEDIATE`
block or one `UPDATE` is one step. `dafny verify dfyconfig.toml` checks everything.

**The alert episode machine** (`dashboard/services.py`, `dashboard/db.py`).
`Policy` holds the numbers one job declares; `StateLog` the transition log and the
backwards walk that sums the bad seconds of a window. `EpisodeRules` says what one
recompute does to one job: open an episode, spend or hold its page, hold, dwell or
close it, and give back a page whose POST failed. `EpisodeInvariant` is what every
recompute keeps; `EpisodeRuns` makes runs of them, with a clock that never runs
back, any state in any order, POSTs failing anywhere and the process restarting
anywhere, which empties its in-memory retry map. `EpisodeExactly` says from outside when
one recompute opens, pages, closes and recovers; `EpisodeStamps`, `EpisodeCeiling`,
`EpisodeRetry` and `EpisodeRate` are the theorems over runs; `EpisodeLosses` are
concrete runs in which a due page is never heard or a refused one is forgotten.
`Board` and `MachineOffline` put the jobs of a machine together under the
machine-offline rule, and `MachineMute` says whom it mutes. `Services.Core` carries a recompute out as the source does, pass
by pass and table write by table write, and is proved to be one `Step` of every job;
`BoardPushes` that the pushes it sends and lands are those of the jobs' own runs, so that
the rate bounds what the phone receives.

**The Inbox mirror and its closing rules** (`dashboard/inbox_db.py`,
`dashboard/github_mirror.py`). `GithubListing` is the paged fetch; `InboxRules` what
each step does to notes, links, mirrored rows, ETags and backlog lines;
`InboxMirror` the ETag shortcut; `InboxClosing` who closes and reopens a note over
runs; `InboxBacklog` the pushes of backlog.txt; `InboxSpelling` the start-up rewrite of
links to the watched spelling of their repo; `InboxSteps` what each step changes and
leaves alone, table by table; `InboxStore.Store` the same steps as
loops and table updates, each proved to be its step. GitHub is an arbitrary function
from an ETag to a set of open issues; that every complete answer carries an ETag is
an assumption (`Honest`), and what happens without it is proved exactly.

**Probe damping and scheduling** (`dashboard/services.py`, `dashboard/db.py`).
`ProbeTable` is the pruned log of probes, `ProbeDamping` the verdicts read off it,
`ProbeQueue` the oldest-first queue, `ProbeCycle.Scheduler` one cycle as it runs.

**Drafting** (`probes/inbox_transcribe.py`, `dashboard/inbox_db.py`).
`DraftingRules` and `DraftingDrain` are the circuit breaker across runs,
`DraftingExactly` one run said of its replies alone, `Drafting.Worker` the loop;
`DraftWrites` is the draft protocol with every operation's read and write as separate
steps, and `DraftEdits` what a hand's write leaves and that no machine undoes it.

**The backlog parser** (`probes/backlog.py`). `BacklogText`, `BacklogKeys` and
`BacklogParser` read the file, `BacklogEntries` says what an entry holds of it, `BacklogRewrap` says when re-wrapping a line keeps its
key, and `BacklogPushes` is what the server makes of a push: strings are Python's, with
its whitespace and control characters; the label expression is a parameter,
lower-casing is any per-character map that leaves whitespace alone, and a key is the
words it hashes. Where the hash itself matters it is any function, and what is assumed
of it is only that no two keys of the one file at hand collide.

What the proofs found, each with its exact condition or a concrete run:

- An answer without an ETag keeps the old one stored (`new_etag or etag`), and the
  board can then stay wrong for as long as GitHub answers 304:
  `StoredEtagIsCoherentExactly`, `AnAnswerWithoutEtagStrandsTheBoard`.
- The server hands out at most 20 notes, so a drafting limit above 20 does not drain
  in 3 * ceil(n / limit) runs; up to 20 it does: `BadNotesDrainByTheLimit`,
  `AboveTheCapThreeRunsAreNotEnough`.
- A draft-title edit that was read before a review and written after it leaves the
  reviewed note filed under the old title: `DraftEditStaysInStepExactly`,
  `AnEditCanMissTheReview`.
- A What: value of control characters alone, in an entry with other text, makes the
  two keys differ, and the server then refuses the whole push: `KeysAgreeExactly`.
- Re-wrapping a What: value keeps its key if and only if cleaning keeps as many visible
  characters of the one as of the other; past 20000 characters it need not:
  `RewrapKeepsTheKeyExactly`, `PastTheCapARewrapCanMatter`.
- A pushed file settles if and only if it gives no key two texts or two projects:
  `LinesSettleExactly`.
- An episode past its bar, by the clock or the accumulator, can end unheard in exactly
  six ways: `EndsUnheardExactly`, with runs for three of them in `EpisodeLosses`.
- A page whose ceiling is reached goes out if and only if the running process has not
  tried it within 300 s: `CeilingExactly`. A restart forgets a refused POST:
  `ARestartForgetsTheGap`.
- Under a clock that stands still the probe queue can starve a job:
  `AStoppedClockStarves`.

## Model

| member | source | states |
|---|---|---|
| `Policy.OkDwellTenths` | dashboard/services.py:188-210 | exactly the longer of its two floors, a tenth of the threshold up to 300 s and two cadences up to 900 s; zero only for a job with neither threshold nor cadence |
| `Policy.OkHoldTenths` | dashboard/services.py:296-317 | exactly the largest of the verified dwell, the whole threshold and 300 s |
| `Policy.Cooldown` | dashboard/services.py:213-252 | exactly the larger of six hours and the threshold |
| `StateLog.NotOkSeconds` | dashboard/db.py:579-651 | for every log the sum lies between 0 and the window; with stamps in order a full scan equals the number of seconds whose last logged state is bad, and a cut scan never exceeds it |
| `StateLog.WalkIsPointwise` | dashboard/db.py:633-651 | the backwards walk counts exactly the bad seconds of the part of the window its rows reach |
| `StateLog.LastNonOkIsTheLatest` | dashboard/db.py:565-576 | the state an OK job's page is about is that of the latest transition that was not to OK, the later row where stamps tie |
| `EpisodeInvariant.StepKeepsWellFormed` | dashboard/services.py:1081-1216 | every recompute, dispatch failures included, keeps: no spent page without an open episode, an alertable state has one, UNKNOWN has none, an open episode's newest non-OK entry is alertable |
| `EpisodeInvariant.HeldOkEndsTheEpisode` | dashboard/services.py:296-317 | no episode survives a pass that sees the whole hold of continuous OK |
| `EpisodeRuns.ReachableIsWellFormed` | dashboard/services.py:1020-1218 | the invariant holds in every reachable state |
| `EpisodeStamps.StampsTellTheTruth` | dashboard/services.py:934-1018 | in every run the alert columns name exactly the last landed page of the open episode; its landed pages grow strictly in severity, so there are at most two |
| `EpisodeStamps.FailedPageIsGivenBack` | dashboard/services.py:1315-1371 | a failed POST restores the pair and the cooldown stamp it replaced, unless the episode closed in the same recompute |
| `EpisodeCeiling.HardCeiling` | dashboard/services.py:892-1018 | in every run, restarts included, a recompute that sees an open, unspent, unmuted episode past its bar, by the clock or by the accumulator, and past its cooldown pages, whether the job reads not-OK, dwelling OK or held OK, or the same page was refused within the last retry gap |
| `EpisodeCeiling.PagesAreEarned` | dashboard/services.py:765-871 | the converse: every page is for an episode a threshold old, or a job that spent a threshold of real seconds in that state inside the window |
| `EpisodeCeiling.TriesRememberAttempts` | dashboard/services.py:700-763 | in every run, restarts included, every time the retry map remembers is that of a POST of that episode and rank |
| `EpisodeCeiling.EndsUnheardExactly` | dashboard/services.py:1113-1204 | an episode past its bar, by the clock or by the accumulator, or closed by UNKNOWN, ends without a landed page if and only if UNKNOWN closed it, the job opted out, or mute, cooldown, retry gap or this very POST withheld it |
| `EpisodeCeiling.PageAndCloseTogether` | dashboard/services.py:1129-1193 | when page and close coincide the recovery names that page, or is not sent when it was a hold that ran out, and the cooldown stamp survives either way |
| `EpisodeLosses.UnknownLosesThePage` | dashboard/services.py:1196-1204 | a run with no POST at all in which a due episode ends |
| `EpisodeLosses.PageAndCloseLoseThePage` | dashboard/services.py:1350-1352 | a run in which only the recovery of an episode is heard |
| `EpisodeLosses.CooldownLosesThePage` | dashboard/services.py:873-890 | a run in which the cooldown outlasts the episode |
| `EpisodeLosses.ARestartForgetsTheGap` | dashboard/services.py:700-763 | a run in which a refused page is tried again one second later, because the process restarted in between |
| `EpisodeRetry.AttemptsKeepTheirDistance` | dashboard/services.py:700-763 | in every life of the process, from any record it comes up with, attempts at one rank of one episode are 300 s apart, however the state flips, and none names OK or UNKNOWN |
| `EpisodeRetry.AtMostTwoAttemptsPerGap` | dashboard/services.py:996-1008 | any three attempts of one episode in one life of the process span at least 300 s |
| `EpisodeRetry.BackoffOnlyHoldsRetries` | dashboard/services.py:700-749 | the first attempt at each rank is never delayed |
| `EpisodeRetry.CeilingExactly` | dashboard/services.py:700-763 | in every run, restarts included, a recompute that sees its ceiling reached pages if and only if the process that makes it has not tried that page, of that episode and rank, within 300 s |
| `EpisodeRetry.SomeProcessIsUp` | dashboard/services.py:700-749 | every recompute of every run is made by a process that came up with an empty retry map at some recompute of it |
| `EpisodeRate.PushRate` | dashboard/services.py:213-252 | over T seconds from the first page stamp that stays, or from the run's start, at most 3 * (T / cooldown + 1) pushes land, escalations and recoveries included |
| `EpisodeRate.PushRateOfAnyWindow` | dashboard/services.py:962-1018 | the same over any window of any run, plus the two pushes an earlier page may owe |
| `EpisodeRate.FirstPagesAreApart` | dashboard/services.py:873-890 | first pages whose stamp stays are a cooldown apart |
| `EpisodeExactly.PagesExactly` | dashboard/services.py:892-1018 | a recompute pages if and only if the job is in trouble and may push, is not muted, its episode is unpaged or turned from mild to loud, a first page is outside the cooldown, a threshold has passed on the clock or in seconds of that very state, and the page was not tried within 300 s; it names that state and which of the two it was |
| `EpisodeExactly.ClosesExactly` | dashboard/services.py:1113-1204 | an episode opens now when the job is broken and none is open, keeps its start, and closes if and only if the job reads UNKNOWN or has been OK for its dwell, or its hold while nobody can verify it |
| `EpisodeExactly.RecoversExactly` | dashboard/services.py:1159-1194 | a recovery is sent if and only if a believed OK closes an episode that was paged for, before or in this recompute, by a job that may push and is not muted; it names the page that is on the phone |
| `EpisodeExactly.LandedPagesAreTakenBack` | dashboard/services.py:1159-1194 | in every run a believed, unmuted OK that closes an episode of which a page reached the phone posts the recovery of the last such page |
| `EpisodeExactly.NamelessPagesAreNamed` | dashboard/services.py:936-955 | a page sent before its state was kept is named once and not sent again |
| `EpisodeExactly.NothingFromTheFuture` | dashboard/services.py:1066-1102 | whatever a row says, what a pass writes holds no stamp from the future and no page without an episode |
| `EpisodeExactly.FutureEpisodesAreNone` | dashboard/services.py:1080-1092 | a start in the future is treated as no episode |
| `EpisodeExactly.FutureStampsHoldNothing` | dashboard/services.py:1066-1079 | a cooldown stamp in the future holds no page back |
| `Board.MachineProbe` | dashboard/services.py:555-563 | the probe that speaks for a machine is the first declared probe job of it, never the dashboard's own, and there is none only when none is declared |
| `MachineOffline.MuteSpendsNothing` | dashboard/services.py:989-995 | a mute leaves the sibling's page, stamps and retry entry alone |
| `MachineOffline.MuteIsSpokenFor` | dashboard/services.py:565-681 | whenever a page is withheld because the machine's probe job is LATE, that probe may page, is not muted itself, and is paged for or not cooling |
| `MachineOffline.ProbeSpeaksByItsThreshold` | dashboard/services.py:625-681 | if it stays LATE, its own page is out, goes out, or was refused within the retry gap, by its own threshold |
| `MachineOffline.RunOfOneJob` | dashboard/services.py:1373-1385 | seen from one job, a run of the board is a run of that job |
| `MachineMute.MuteExactly` | dashboard/services.py:625-681 | a job is muted if and only if another job is the machine's probe, which may page and is paged for or not cooling, and either both read LATE or the job reads OK after LATE while the probe is on its way back from LATE |
| `MachineMute.OnlyLateIsMuted` | dashboard/services.py:625-681 | nobody is muted but a job that reads LATE, or OK after LATE |
| `MachineMute.LateSiblingsAreMuted` | dashboard/services.py:625-681 | a LATE sibling of a LATE probe job that can speak always is |
| `MachineMute.LoudJobsAreHeard` | dashboard/services.py:639-647 | in every run of the board a job that reads FAIL, STALE_DEST or BEHIND is never muted, and its page is out at its ceiling or was just refused |
| `Services.Core.SetState` | dashboard/db.py:330-347 | writes and logs a transition, and nothing when the state is the same |
| `Services.Core.RetryDue` | dashboard/services.py:700-749 | decides the retry gap from the in-memory map |
| `Services.Core.PastBar` | dashboard/services.py:765-871 | past the bar by the clock or by the accumulator, and says which |
| `Services.Core.Page` | dashboard/services.py:892-1018 | spends or holds the page: row, cooldown stamp, retry entry and intent are those of the rules |
| `Services.Core.ReturningProbes` | dashboard/services.py:565-593 | finds exactly the probes coming back from a LATE episode |
| `Services.Core.CooledProbes` | dashboard/services.py:595-623 | finds exactly the probes whose own page their cooldown holds |
| `Services.Core.SuppressedOffline` | dashboard/services.py:625-681 | mutes exactly when the rule says so, and `MachineMute.MuteExactly` says when that is |
| `Services.Core.ResolveAlerts` | dashboard/services.py:1020-1218 | the loop over the finished batch resolves every job by the rules: pages, recoveries and closes as `EpisodeExactly` has them |
| `Services.Core.Dispatch` | dashboard/services.py:1268-1313 | hands back exactly the refused pages |
| `Services.Core.ReturnUnsentPages` | dashboard/services.py:1315-1371 | each page goes back to its own episode or not at all |
| `Services.Core.RecomputeAll` | dashboard/services.py:1373-1385 | one recompute of the board is one step of every job, and the pushes that land are those the rules decide, less the refused ones |
| `Services.Core.Restart` | dashboard/services.py:700-749 | a restart forgets the retry map of every job and nothing else |
| `BoardPushes.LandedPushesAreTheJobs` | dashboard/services.py:1268-1313 | the pushes about a job that land in one recompute of the board are, in order, those its own share of it posted and landed |
| `BoardPushes.PhoneHearsTheJobsRun` | dashboard/services.py:1373-1385 | over a whole run of the board what reaches the phone about a job is what that job's own run landed |
| `BoardPushes.BoardSendsTheJobsRun` | dashboard/services.py:1373-1385 | what the board sends about a job over a whole run, refused or not, is what that job's own run posted |
| `BoardPushes.PhonePushRate` | dashboard/services.py:213-252 | in every run of the whole board nothing about a job reaches the phone before its first page stamp that stays, and in T seconds from then, or from the run's start, at most 3 * (T / cooldown + 1) pushes do |
| `GithubListing.Fetch` | dashboard/github_mirror.py:268-322 | comes to exactly one thing: truncated when all ten pages are full, and otherwise what the first page that is not says; whole only at a short page, with the issues of its pages in order and the ETag of page 1 |
| `GithubListing.ComesToOneThing` | dashboard/github_mirror.py:268-322 | no two outcomes fit the same answers |
| `GithubListing.OpenSetIsTheListing` | dashboard/github_mirror.py:301-315 | the open set is exactly the positive issue numbers on the pages read |
| `InboxMirror.ScanShowsUpstream` | dashboard/github_mirror.py:324-375 | after a complete scan every link is open exactly when its issue is, every unlinked issue has a live row open exactly when it is, or none if never seen, and no other repo changed |
| `InboxMirror.ReachableIsTidy` | dashboard/inbox_db.py:837-845 | in every reachable state a linked issue has no live mirror row |
| `InboxMirror.SkippingEqualsScanning` | dashboard/github_mirror.py:275-289 | where an ETag is stored, the scan a 304 saves would have written nothing |
| `InboxMirror.StepKeepsCoherence` | dashboard/inbox_db.py:794-834 | links, deletions, unwatching, restarts, hand changes, pushes and scans all keep each stored ETag true to the board |
| `InboxMirror.ReachableIsCoherent` | dashboard/github_mirror.py:331-375 | so it holds in every reachable state |
| `InboxMirror.NotModifiedMeansNothingToDo` | dashboard/github_mirror.py:275-289 | in every run, answering 304 and listing the repo end in the same board |
| `InboxMirror.StoredEtagIsCoherentExactly` | dashboard/github_mirror.py:372-375 | after a scan the stored ETag is coherent if and only if there is none or it names the set just listed |
| `InboxMirror.AnAnswerWithoutEtagIsReachable` | dashboard/github_mirror.py:372-375 | two answers, the second without an ETag, leave a closed row beside the ETag it was open under |
| `InboxMirror.AnAnswerWithoutEtagStrandsTheBoard` | dashboard/github_mirror.py:275-289 | from there a 304 keeps the issue closed and a listing would open it |
| `InboxClosing.ClosedExactlyOnAnEdge` | dashboard/inbox_db.py:1267-1310 | a step closes an open note if and only if a hand does, or the scan lists no more an issue it had open and leaves none of its issues open in any repo, or the file pushed has only done lines of it, which they were not, or none for the second time; and closed_by says which |
| `InboxClosing.ReopenedExactlyByItsOwner` | dashboard/inbox_db.py:1267-1310 | a step reopens a closed note if and only if a hand does, or the issues rule closed it and one of its closed issues is listed again, or the backlog rule did and the file pushed has an open line of it |
| `InboxClosing.ClosedByNamesTheLastWriter` | dashboard/inbox_db.py:553-557 | in every interleaving an open note has no closed_by and no closed_at, and a closed one's closed_by names its last writer |
| `InboxClosing.RulesReopenTheirOwn` | dashboard/inbox_db.py:1297-1302 | a rule reopens a note only if that rule made its latest change of state |
| `InboxClosing.HandReopenSticks` | dashboard/inbox_db.py:1286-1289 | a hand reopen of a note whose issues are all closed, and whose line is done or twice missed if it was filed, survives everything that follows until a listing has one of its issues again or a pushed file changes what it says of its line, or a hand, a new link or a respelt link does; a push of part of the file may leave the line out |
| `InboxClosing.StaysOpenExactly` | dashboard/inbox_db.py:1276-1310 | any open note, whatever its issues and line, stays open through whatever follows if and only if no step closes it on one of the three edges or deletes it |
| `InboxClosing.ClosedLaterHasItsEdge` | dashboard/inbox_db.py:1276-1310 | a note that was open and is closed later was closed by a hand, a scan or a file on one of those edges, while open, by a step between |
| `InboxClosing.AbsentCountsMisses` | dashboard/inbox_db.py:1116-1137 | in every run the count is min(2, complete pushes in a row that ended with no live tagged line) |
| `InboxClosing.AbsenceClosesOnTheSecondMiss` | dashboard/inbox_db.py:1132-1137 | a push that closes a note whose line its file does not have is the second such push in a row; one miss closes nothing |
| `InboxBacklog.CompletePushShowsTheFile` | dashboard/inbox_db.py:1141-1164 | after a complete push of any file the live rows are exactly its keys, each saying what the last entry of the key says, and no row is lost |
| `InboxBacklog.StatusIsTheFile` | dashboard/inbox_db.py:1062-1077 | a tag is open, done or missing as the file's own entries say |
| `InboxBacklog.QuietPushKeepsTheStatus` | dashboard/inbox_db.py:1062-1077 | a push, complete or not, that still says a line is done keeps its tag done, and one without it keeps a missing tag missing |
| `InboxBacklog.SecondPushMovesNoLine` | dashboard/inbox_db.py:912-968 | the second complete push of a file that gives no key two texts or two projects changes no row, not even a stamp |
| `InboxBacklog.LinesSettleExactly` | dashboard/inbox_db.py:912-968 | a second complete push at any time moves no line if and only if the file gives no key two texts or two projects |
| `InboxBacklog.ThirdPushWritesNothing` | dashboard/inbox_db.py:1080-1164 | the third complete push in a row of such a file writes nothing at all |
| `InboxBacklog.RepeatedKeyNeverSettles` | dashboard/inbox_db.py:949-960 | two texts or two projects under one key stamp the row anew in every complete push |
| `InboxSpelling.WhereLinksGo` | dashboard/inbox_db.py:848-875 | after the start-up rewrite no link stands under another spelling, and at each watched one stands the one link that came there, unchanged, or the merger of several, open again |
| `InboxSpelling.WatchedLinksStay` | dashboard/inbox_db.py:848-875 | a note whose links are all in the watched spelling keeps them exactly, whatever becomes of the others |
| `InboxSpelling.SpeltOnceIsSpelt` | dashboard/inbox_db.py:848-875 | a second boot rewrites nothing |
| `InboxSteps.LinkMeans` | dashboard/inbox_db.py:794-825 | a new link of a known note is in the table, open and undated, its repo has no ETag and its issue no live row; a repeated link changes no state |
| `InboxSteps.LinkedThenClosed` | dashboard/inbox_db.py:813-821 | in every run, once an open note is linked to an issue, the next complete scan of the repo that does not list it closes the note by the issues rule, if its other issues are closed by then |
| `InboxSteps.LinkLeavesTheRest` | dashboard/inbox_db.py:794-845 | a link changes no other note, link, row or repo |
| `InboxSteps.DeleteMeans` | dashboard/inbox_db.py:1376-1400 | a deletion takes the note, its links and the ETags of their repos, and nothing else |
| `InboxSteps.HandsMean` | dashboard/inbox_db.py:549-557 | a hand's close or reopen, a filing and a new note touch that note alone |
| `InboxSteps.ScanStampsWhatItChanges` | dashboard/github_mirror.py:324-375 | a scan writes no link and no note whose state it does not change, and dates the ones it does with its own time |
| `InboxSteps.ScanStampsRows` | dashboard/github_mirror.py:324-375 | nor any row, and a row it closes is dated by it |
| `InboxSteps.DuplicatesAreRepaired` | dashboard/inbox_db.py:837-845 | a live row beside a link of its issue goes off the board when listed and is closed when not |
| `InboxSteps.ScanStoresItsEtag` | dashboard/github_mirror.py:372-375 | the answer's own ETag is stored and no other repo's changes |
| `InboxSteps.UnwatchMeans` | dashboard/inbox_db.py:1171-1192 | exactly the live rows and the ETags of unwatched repos go |
| `InboxSteps.BootMeans` | dashboard/inbox_db.py:878-909 | a restart takes exactly the rows of linked issues off the board and forgets every ETag |
| `InboxSteps.LineMeans` | dashboard/inbox_db.py:937-961 | a push writes a line exactly when its text, project, state or place changed; a done line keeps its date and a project is never taken away |
| `InboxSteps.NewLineMeans` | dashboard/inbox_db.py:961-968 | a new line is dated if it comes done |
| `InboxSteps.LinesThatLeft` | dashboard/inbox_db.py:998-1015 | a line that left the file is kept as it was, archived |
| `InboxSteps.NoteOverPush` | dashboard/inbox_db.py:1080-1164 | a push touches a note only if it is of the whole file and the note is filed |
| `InboxSteps.ReachableIsDated` | dashboard/inbox_db.py:912-968 | in every run closed_at is set exactly on what is closed: notes, links, mirrored issues and lines |
| `InboxStore.Store.LinkIssue` | dashboard/inbox_db.py:794-825 | link, forgotten ETag and archived row as one step, whose link starts open: `InboxSteps.LinkMeans` |
| `InboxStore.Store.DeleteItem` | dashboard/inbox_db.py:1376-1400 | the note, its links and its repos' ETags go, and nothing else |
| `InboxStore.Store.TakeIssues` | dashboard/github_mirror.py:335-364 | the loop over the listed issues, repeats included |
| `InboxStore.Store.UnarchiveUnlinked` | dashboard/inbox_db.py:1195-1218 | brings back exactly the repo's archived rows that no note stands for |
| `InboxStore.Store.ApplyIssueTransitions` | dashboard/inbox_db.py:1267-1310 | the two loops change exactly the notes the edges name |
| `InboxStore.Store.CommitScan` | dashboard/github_mirror.py:324-375 | the whole transaction is the scan step |
| `InboxStore.Store.SyncRepo` | dashboard/github_mirror.py:257-379 | a repo in back-off is not asked and nothing changes; otherwise the fetch comes to its one outcome, only a whole listing is committed, as one scan step, and the back-off is set, cleared or kept as the outcome says |
| `InboxStore.Store.ArchiveUnwatched` | dashboard/inbox_db.py:1171-1192 | archives and forgets exactly what is no longer watched |
| `InboxStore.Store.CanonicaliseIssueRepos` | dashboard/inbox_db.py:848-875 | the loop over the links in id order gives the rewritten links |
| `InboxStore.Store.StartupRepairs` | dashboard/inbox_db.py:878-909 | every boot respells the links, archives the live rows of the issues then linked and forgets every ETag, in that order |
| `InboxStore.Store.UpsertLine` | dashboard/inbox_db.py:912-968 | writes what changed and stamps only then |
| `InboxStore.Store.FiledLineStatus` | dashboard/inbox_db.py:1062-1077 | one pass over the rows finds every tag's status |
| `InboxStore.Store.FiledNote` | dashboard/inbox_db.py:1116-1137 | the rule for one filed note |
| `InboxStore.Store.ApplyBacklogPush` | dashboard/inbox_db.py:1141-1164 | the whole push is one step, and an incomplete one leaves every note alone |
| `ProbeTable.PruneKeepsTheNewest` | dashboard/db.py:392-406 | of each job exactly its newest rows are kept, in order, whatever the other jobs did |
| `ProbeTable.Table.ProbeFailStreak` | dashboard/db.py:512-534 | the trailing failures of the job, up to the scan limit |
| `ProbeTable.LastOkEndsTheStreak` | dashboard/db.py:493-499 | the last success is the row before the streak, or there is none |
| `ProbeDamping.EffectiveThreshold` | dashboard/config.py:317-321 | between 1 and 10 whatever is configured, and the configured value where that already is |
| `ProbeDamping.TripsExactlyWhen` | dashboard/services.py:1497-1529 | a job trips if and only if its newest probe failed and the failure is hard, or the last threshold probes all failed, or nothing succeeded for longer than the window |
| `ProbeDamping.OnlyItsOwnSuccessClears` | dashboard/services.py:1452-1469 | one success of the job clears it, other jobs' probes change nothing, and a failure never shortens the streak |
| `ProbeDamping.PruningIsInvisible` | dashboard/services.py:1452-1529 | in every run each verdict is the one the unpruned history gives |
| `ProbeDamping.KeepingFewerMissesTheStreak` | dashboard/config.py:317-321 | keeping fewer rows than the threshold would lose a streak, so the clamp is what makes pruning safe |
| `ProbeDamping.ThresholdFailuresTrip` | dashboard/services.py:1508-1521 | in every run, threshold failures of a job in a row trip it however many cycles lie between |
| `ProbeQueue.DueListIs` | dashboard/services.py:1426-1450 | the list is exactly the due jobs, oldest stamp first, the registry breaking ties |
| `ProbeQueue.StampsAfter` | dashboard/services.py:1581-1594 | a cycle stamps what it probed with its end and, pruning included, moves no other stamp |
| `ProbeQueue.RowsAreTheAnswers` | dashboard/services.py:1558-1594 | a cycle stores one row for each of the first due jobs its budget let it probe, stamped with its end and saying what the probe answered |
| `ProbeQueue.NewestIsTheAnswer` | dashboard/services.py:1584-1594 | after it the newest row of a probed job is its answer, and any other job has the rows it had |
| `ProbeQueue.DueExactly` | dashboard/services.py:1426-1450 | a job is due if it has no row or no interval, and otherwise if and only if its newest row is that old |
| `ProbeQueue.ProbedWithinTheQueue` | dashboard/services.py:1558-1594 | a due job is probed within one cycle more than there are jobs ahead of it |
| `ProbeQueue.NoJobStarves` | dashboard/services.py:1426-1450 | so, with cycle ends that strictly increase and starts that never go back, within n cycles for n probed jobs, however early each budget cuts |
| `ProbeQueue.AStoppedClockStarves` | dashboard/services.py:1581-1584 | with clocks that do not advance a due job can wait for ever |
| `ProbeCycle.Scheduler.DueProbes` | dashboard/services.py:1426-1450 | the loop and the stable sort give the due list |
| `ProbeCycle.Scheduler.ProbeTrouble` | dashboard/services.py:1452-1495 | one entry per failing job, in registry order |
| `ProbeCycle.Scheduler.RunProbeCycle` | dashboard/services.py:1531-1634 | probes a non-empty prefix up to the budget, stores what each probe answered, and fails the self-job if and only if some job's history trips, which a hard failure does at once |
| `ProbeCycle.HardFailuresTrip` | dashboard/services.py:1497-1529 | a probe that fails for good trips the very cycle |
| `ProbeCycle.SuccessesClear` | dashboard/services.py:1531-1548 | a probed job is healthy after the cycle if and only if its probe succeeded, and an unprobed one keeps its verdict |
| `ProbeCycle.TroubleTripsAsHistoriesDo` | dashboard/services.py:1497-1529 | the verdict over the list is the verdict over the histories |
| `Drafting.Worker.DraftQueue` | dashboard/inbox_db.py:1612-1643 | the oldest notes with attempts left and no fresh ready draft, within the limit and the server's cap, in order; a due note left out comes after a full batch |
| `Drafting.Worker.DraftItems` | probes/inbox_transcribe.py:612-654 | once something succeeded nothing is held and every bad note before has been reported once, as far as the first report that was rejected, which stops the run |
| `Drafting.Worker.EndBatch` | probes/inbox_transcribe.py:655-673 | trips, gives up on the notes at the third trip, or lets them count |
| `Drafting.Worker.RunDrafting` | probes/inbox_transcribe.py:527-684 | one run, its token rejected anywhere included, changes exactly the notes the rules name, and remembers exactly the trips and the timeout they name |
| `DraftingDrain.MemoIsFixed` | probes/inbox_transcribe.py:682-683 | what the loop leaves in the state file is what the runs over days carry on from |
| `DraftingDrain.ASuccessBurnsOneEach` | probes/inbox_transcribe.py:627-654 | a run with any success burns exactly one attempt of each bad note and touches no other |
| `DraftingDrain.ATrippedRunBurnsNothing` | probes/inbox_transcribe.py:655-670 | a tripped run before the third changes no note |
| `DraftingDrain.AStoppedRunBurnsNothing` | probes/inbox_transcribe.py:674-681 | nor does one that is stopped before any success |
| `DraftingDrain.ARejectedReportEndsTheRun` | probes/inbox_transcribe.py:563-577 | once a failure report is rejected no later bad note is counted, and at most one later note is drafted, the run's first |
| `DraftingExactly.PlainRunsExactly` | probes/inbox_transcribe.py:612-673 | in a plain run a drafted note has a fresh ready draft, an unusable one is counted once if anything was drafted or it was alone, given up on the third trip in a row and left alone otherwise, and no other note moves |
| `DraftingExactly.PlainTripsExactly` | probes/inbox_transcribe.py:655-673 | the trips in a row grow exactly when nothing was drafted and two results were unusable, to two at most |
| `DraftingExactly.AStopBurnsNothing` | probes/inbox_transcribe.py:612-626 | a systemic failure or a first timeout, with nothing drafted before, changes no note and no trip, and only the timeout is remembered |
| `DraftingExactly.ASecondTimeoutIsABadResult` | probes/inbox_transcribe.py:619-626 | a second timeout in a row on the same note is exactly a bad result |
| `DraftingDrain.TheHeadIsSettledInNineRuns` | dashboard/inbox_db.py:729-753 | whatever is queued, and whatever new notes arrive, a note in the first batch is drafted or failed within nine plain runs |
| `DraftingDrain.SettledByItsBatch` | dashboard/inbox_db.py:1612-1643 | while only new notes arrive, any queued note is drafted or failed within nine plain runs for every batch up to its own |
| `DraftingDrain.SettledWhateverBecomesDue` | dashboard/inbox_db.py:1612-1643 | when older notes become due ahead of it too, it is so within nine plain runs for every note ahead of it, itself included, and for every one that becomes due at or before it |
| `DraftingDrain.BadNotesDrain` | probes/inbox_transcribe.py:655-673 | n undraftable notes are all failed after three runs for each batch of them |
| `DraftingDrain.BadNotesDrainByTheLimit` | dashboard/inbox.py:918 | for limits up to 20 that is 3 * ceil(n / limit) runs |
| `DraftingDrain.AboveTheCapThreeRunsAreNotEnough` | dashboard/inbox.py:109 | for every larger limit it is not |
| `DraftWrites.Store.WritePatch` | dashboard/inbox_db.py:481-605 | lands if and only if its guards hold of the row it finds, and then sets the request's fields, state and review included, and the copies they imply: what those are is in `DraftEdits` |
| `DraftWrites.Store.WriteDraft` | dashboard/inbox_db.py:688-726 | refuses a reviewed, edited or changed note, read or found |
| `DraftWrites.Store.WriteAttempt` | dashboard/inbox_db.py:729-753 | counts one bad result, or all that are left |
| `DraftWrites.MachineWritesKeepOut` | dashboard/inbox_db.py:688-753 | no machine write changes an edited draft or a reviewed note, whatever it had read |
| `DraftWrites.EditedDraftsAreHands` | dashboard/inbox_db.py:504-517 | over any stretch of any interleaving an edited draft, its state and count included, changes only by an edit |
| `DraftWrites.DraftsLandOnTheirBody` | dashboard/inbox_db.py:702-723 | a stored draft's hash is that of the body it lands on |
| `DraftWrites.StoredHashesAreOfThePast` | dashboard/inbox_db.py:702-723 | in every interleaving a stored hash is that of a body the note has had |
| `DraftWrites.ReadyDraftsAreHashed` | dashboard/inbox_db.py:519-524 | an unedited draft that reads ready always has a hash to compare |
| `DraftWrites.OneReadOneAttempt` | dashboard/inbox_db.py:746-752 | two bad results that read the same count are counted once |
| `DraftWrites.TakenTitlesAreTheDrafts` | dashboard/inbox_db.py:566-587 | a review copy or edit that takes the draft's title leaves title equal to the stored draft title |
| `DraftWrites.DraftEditStaysInStepExactly` | dashboard/inbox_db.py:588-597 | an edit of a reviewed note's draft title keeps the two equal if and only if it is not blank and had read the note reviewed, or changes nothing |
| `DraftWrites.AnEditCanMissTheReview` | dashboard/inbox_db.py:562-597 | an interleaving in which they part |
| `DraftWrites.ReviewedTitlesStayInStep` | dashboard/inbox_db.py:566-597 | over all other writes they never do |
| `DraftEdits.NoMachineUndoesAnEdit` | dashboard/inbox_db.py:504-526 | in every interleaving, once a PATCH that edits the draft has landed no machine write changes anything in the note |
| `DraftEdits.LandedEditsStay` | dashboard/inbox_db.py:504-526 | and until the hand edits it again the draft is what that PATCH left, ready and stamped by it |
| `DraftEdits.EditsAreStamped` | dashboard/inbox_db.py:519-545 | a landed edit of the draft makes it ready, the hand's and what the hand wrote |
| `DraftEdits.QuietPatchesLand` | dashboard/inbox_db.py:600-605 | a PATCH that finds the note as it read it lands, and so does one that neither reviews nor rewrites |
| `DraftEdits.ConflictsExactly` | dashboard/inbox_db.py:519-605 | a PATCH is a conflict if and only if a tick finds the note reviewed or its draft changed, a new body finds it reviewed or edited, or an edit finds the tick gone |
| `DraftEdits.NothingElseMoves` | dashboard/inbox_db.py:527-565 | what a request neither names nor implies stays |
| `DraftEdits.WhatItNamesIsSet` | dashboard/inbox_db.py:527-565 | what it names is set; a typed title is manual for good and a hand's close or reopen belongs to no rule |
| `DraftEdits.NewBodiesAreRedrafted` | dashboard/inbox_db.py:522-530 | a new body of an unreviewed, unedited note makes its draft due afresh, or none when it is empty |
| `DraftEdits.TicksTakeTheDraft` | dashboard/inbox_db.py:566-587 | the first tick takes the draft's title and project, and no later one takes back a typed title or a project |
| `DraftEdits.EditsOfReviewedNotesAreFiled` | dashboard/inbox_db.py:588-597 | an edit of a reviewed note's draft goes to the note |
| `DraftEdits.FreshDraftsLand` | dashboard/inbox_db.py:688-726 | a draft of the body as it is lands on a note neither reviewed nor edited, and a typed title stays the title |
| `DraftEdits.BadResultsCount` | dashboard/inbox_db.py:729-753 | a bad result counts once, and the third or a final one fails the note |
| `BacklogKeys.KeysAgree` | dashboard/inbox_db.py:361-406 | for every entry whose What: value keeps a visible character the two keys agree, through control characters, stripping and both truncations |
| `BacklogKeys.KeysAgreeExactly` | dashboard/inbox.py:1183-1191 | the server takes or skips an entry if and only if that holds or nothing else of the entry is visible |
| `BacklogRewrap.RewrapKeepsTheKeyExactly` | probes/backlog.py:76-137 | when the same words break over other lines the key is the same if and only if cleaning keeps as many visible characters of the one value as of the other |
| `BacklogRewrap.RewrapKeepsTheKey` | probes/backlog.py:127-137 | in particular the key is the same while both values fit the cap |
| `BacklogRewrap.PastTheCapARewrapCanMatter` | probes/backlog.py:76-96 | past the cap there are values of the same words whose keys differ |
| `BacklogText.LowerWordByWord` | probes/backlog.py:87-96 | a key depends on the cleaned text only through its words |
| `BacklogParser.SplitEntries` | probes/backlog.py:99-109 | the loop splits the file at its separators, and no entry keeps one |
| `BacklogParser.SplitKeepsLines` | probes/backlog.py:99-109 | no line is lost by splitting |
| `BacklogParser.SplitReadsBack` | probes/backlog.py:99-109 | separator-free entries are read back from the file they make |
| `BacklogParser.FieldsKeepLines` | probes/backlog.py:112-124 | the fields are all the lines from the first label on |
| `BacklogParser.Fields` | probes/backlog.py:112-124 | the loop groups the lines into fields: a label line and the lines after it that are none |
| `BacklogEntries.EntryKeepsTheChunk` | probes/backlog.py:140-168 | a chunk is an entry if and only if its first What: field says something; its key is that value's and its text holds those words and then all the words of its other fields, none lost within the cap |
| `BacklogEntries.SeparatorsExactly` | probes/backlog.py:99-109 | a separator is three dashes and whitespace after them |
| `BacklogParser.ParseBacklog` | probes/backlog.py:140-168 | the loop sends the first entry of each key |
| `BacklogParser.KeysAreDistinct` | probes/backlog.py:143-144 | no key is sent twice, which is what makes pushes converge |
| `BacklogPushes.ParsedFilesSettle` | dashboard/inbox.py:1171-1206 | whatever the file holds, the third push in a row of what the parser makes of it writes nothing, a refused push included, while no two keys of this file hash alike |
| `BacklogPushes.SeenEntriesAreAcceptable` | dashboard/inbox.py:1178-1194 | an entry the parser makes with a visible What: value is stored under the key it was sent with, whatever the hash |
| `BacklogParser.TheFirstIsSent` | probes/backlog.py:163-168 | the entry sent for a key is the file's first with it |
| `BacklogParser.EveryKeyIsSent` | probes/backlog.py:163-168 | every entry's key is sent and no other |
| `BacklogParser.SentKeysAreAccepted` | dashboard/inbox.py:1178-1194 | every entry sent with a visible What: value is one the server accepts |

## Left out

- Flask routes, the password gate, sessions, templates, page script, HTTP, rclone, Whisper and claude calls: each is an arbitrary answer.
- How a job's state is computed from its runs and probes: the episode machine is fed any state with any of the two "unverified OK" flags.
- Two recomputes dispatching at once, and clocks that run back: runs are serialised and their clock never decreases; of a stepped clock only what one pass heals is proved.
- Whether an error is a quota or a timeout: a fact of the probe's row.
- Unparseable stamps and sub-second time: stamps are integers, and dwells are counted in tenths of a second so that a tenth of a threshold is exact.
- A disabled notifier: POSTs are made or refused, never skipped.
- Titles, bodies, projects and URLs of mirrored GitHub rows and links, and the reviewed tick on mirrored rows: only open, closed and archived are kept.
- InboxStore.Store.SyncRepo: the columns that only report a sync (last time, status, error, remaining rate) are not kept; the back-off is.
- BacklogPushes.ParsedFilesSettle: the `allow_empty` flag of a push is left out, since the parser's pusher never sends it.
- An exception raised in the middle of a sync: the transaction rolls it back, so it is a failed scan.
- The single-clock-step claim of the accumulator's documentation: a recovery stamped in the future inflates the sum; what holds for every log is its bounds.
- DraftWrites.Store.WritePatch: the unconditional write of a new transcript is a different request and is not part of this model.
- DraftingDrain.BadNotesDrain: nothing becomes due and no body changes while this queue drains; `SettledWhateverBecomesDue` is the bound when they do.
- EpisodeRetry.AttemptsKeepTheirDistance: nothing is promised between an attempt before a restart and one after it, because the code keeps nothing; `ARestartForgetsTheGap` is the run.
- BacklogText.Lowered: a lower-casing that looks at neighbouring characters, as for a final sigma, is not modelled.
- Which lines are labels: the expression is a parameter of the parser.
- Audio sweeps, backups, snapshots, views, configuration files and migrations.
