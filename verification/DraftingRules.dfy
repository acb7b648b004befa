/**
 The drafting worker's circuit breaker: what one run does to the notes it was handed, and
 what it remembers for the next run.
 */
module DraftingRules {
  import opened Wrappers

  const DRAFT_MAX_ATTEMPTS := 3
  /** The server hands out no more than this, whatever the worker asks for. */
  const DRAFT_QUEUE_MAX := 20
  /** Bad results without a success that make a run systemic, and such runs in a row that make it the notes. */
  const BREAKER_FAILURES := 2
  const BREAKER_MAX_TRIPS := 3

  datatype Status = Pending | Ready | Failed
  /**
   A note, in the order the notes were created. `stale` is whether its ready draft was
   made from an older transcript.
   */
  datatype Note = Note(attempts: nat, status: Status, stale: bool)

  /**
   What drafting one note comes to. Systemic is also a token rejected when the draft is
   posted; the last two are a draft the server no longer wants, or did not take.
   */
  datatype Reply = Drafted | Unusable | TimedOut | Systemic | NotNeeded | NotStored

  /** What posting a failure report comes to: taken, lost on the way, or the token rejected, which ends the run. */
  datatype Receipt = Taken | Lost | Rejected

  /** One run's fortune: how each note's drafting goes, and what a failure report on it comes to. */
  datatype Run = Run(reply: nat -> Reply, report: nat -> Receipt)

  /** What the worker's state file carries from run to run. */
  datatype Memo = Memo(timedOut: Option<nat>, trips: nat)

  /** Due for a draft: attempts are left, and there is no ready draft of the transcript as it is. */
  predicate Queued(n: Note) { n.attempts < DRAFT_MAX_ATTEMPTS && !(n.status == Ready && !n.stale) }

  function WithDraft(n: Note): Note { n.(status := Ready, stale := false) }

  function BatchSize(limit: nat): (size: nat)
    ensures 1 <= size <= DRAFT_QUEUE_MAX
  {
    if limit < 1 then 1 else if limit < DRAFT_QUEUE_MAX then limit else DRAFT_QUEUE_MAX
  }

  /** How many queued notes are older than note `i`. */
  function Rank(notes: seq<Note>, i: nat): nat
    requires i <= |notes|
  {
    if i == 0 then 0 else Rank(notes, i - 1) + if Queued(notes[i - 1]) then 1 else 0
  }

  /** The note is handed to a run: the oldest first. */
  predicate InBatch(notes: seq<Note>, limit: nat, i: nat) {
    i < |notes| && Queued(notes[i]) && Rank(notes, i) < BatchSize(limit)
  }

  /** A first timeout and a systemic failure stop the run. A second timeout on the same note is a bad result. */
  predicate Stops(m: Memo, r: Run, i: nat) {
    r.reply(i) == Systemic || (r.reply(i) == TimedOut && m.timedOut != Some(i))
  }

  predicate Bad(m: Memo, r: Run, i: nat) {
    r.reply(i) == Unusable || (r.reply(i) == TimedOut && m.timedOut == Some(i))
  }

  /** A failure report on the note, if one is posted, is where the token is rejected. */
  predicate Rejects(m: Memo, r: Run, i: nat) { Bad(m, r, i) && r.report(i) == Rejected }

  /** A note of the batch before `i` was drafted. */
  ghost predicate DraftedBefore(notes: seq<Note>, limit: nat, r: Run, i: nat) {
    exists j: nat :: j < i && InBatch(notes, limit, j) && r.reply(j) == Drafted
  }

  ghost predicate RejectsBefore(notes: seq<Note>, m: Memo, limit: nat, r: Run, i: nat) {
    exists j: nat :: j < i && InBatch(notes, limit, j) && Rejects(m, r, j)
  }

  ghost predicate StopsHere(notes: seq<Note>, m: Memo, limit: nat, r: Run, i: nat) {
    InBatch(notes, limit, i) && Stops(m, r, i)
  }

  /**
   The run ends with the note, over a report that was rejected: the note's own, which goes
   out at once when something was drafted before, or one held until it, the first, was.
   */
  ghost predicate EndsWith(notes: seq<Note>, m: Memo, limit: nat, r: Run, i: nat) {
    && InBatch(notes, limit, i)
    && if DraftedBefore(notes, limit, r, i) then Rejects(m, r, i)
       else r.reply(i) == Drafted && RejectsBefore(notes, m, limit, r, i)
  }

  /** Nothing stopped the run before it came to the note. */
  ghost predicate CameTo(notes: seq<Note>, m: Memo, limit: nat, r: Run, i: nat) {
    InBatch(notes, limit, i) && forall j: nat | j < i :: !StopsHere(notes, m, limit, r, j) && !EndsWith(notes, m, limit, r, j)
  }

  /** The note was gone through: the run came to it and did not stop at it. */
  ghost predicate Reached(notes: seq<Note>, m: Memo, limit: nat, r: Run, i: nat) {
    CameTo(notes, m, limit, r, i) && !StopsHere(notes, m, limit, r, i)
  }

  ghost predicate Stopped(notes: seq<Note>, m: Memo, limit: nat, r: Run) {
    exists i: nat :: StopsHere(notes, m, limit, r, i) || EndsWith(notes, m, limit, r, i)
  }

  ghost predicate DraftedNow(notes: seq<Note>, m: Memo, limit: nat, r: Run, i: nat) {
    Reached(notes, m, limit, r, i) && r.reply(i) == Drafted
  }

  ghost predicate BadNow(notes: seq<Note>, m: Memo, limit: nat, r: Run, i: nat) {
    Reached(notes, m, limit, r, i) && Bad(m, r, i)
  }

  ghost predicate AnySuccess(notes: seq<Note>, m: Memo, limit: nat, r: Run) {
    exists i: nat :: DraftedNow(notes, m, limit, r, i)
  }

  ghost predicate TwoBad(notes: seq<Note>, m: Memo, limit: nat, r: Run) {
    exists i: nat, j: nat :: i < j && BadNow(notes, m, limit, r, i) && BadNow(notes, m, limit, r, j)
  }

  /** The breaker trips: the batch was finished with no success and at least two bad results. */
  ghost predicate TripsNow(notes: seq<Note>, m: Memo, limit: nat, r: Run) {
    !Stopped(notes, m, limit, r) && !AnySuccess(notes, m, limit, r) && TwoBad(notes, m, limit, r)
  }

  /** What the run does to its bad notes. */
  datatype Fate = Spared | OneAttempt | AllAttempts

  ghost function FateOf(notes: seq<Note>, m: Memo, limit: nat, r: Run): Fate {
    if AnySuccess(notes, m, limit, r) then OneAttempt
    else if Stopped(notes, m, limit, r) then Spared
    else if !TwoBad(notes, m, limit, r) then OneAttempt
    else if m.trips + 1 >= BREAKER_MAX_TRIPS then AllAttempts
    else Spared
  }

  /** The server counts one bad result, or, when it is final, every one that was left. */
  function Counted(n: Note, forGood: bool): Note {
    var attempts := if forGood && n.attempts + 1 < DRAFT_MAX_ATTEMPTS then DRAFT_MAX_ATTEMPTS else n.attempts + 1;
    Note(attempts, if attempts >= DRAFT_MAX_ATTEMPTS then Failed else Pending, n.stale)
  }

  /** The report on the note is taken, the token not having been rejected over an older one. */
  ghost predicate Lands(notes: seq<Note>, m: Memo, limit: nat, r: Run, i: nat) {
    r.report(i) == Taken && !RejectsBefore(notes, m, limit, r, i)
  }

  ghost function NoteAfter(notes: seq<Note>, m: Memo, limit: nat, r: Run, i: nat): Note
    requires i < |notes|
  {
    if DraftedNow(notes, m, limit, r, i) then WithDraft(notes[i])
    else if BadNow(notes, m, limit, r, i) && Lands(notes, m, limit, r, i) && FateOf(notes, m, limit, r) != Spared
    then Counted(notes[i], FateOf(notes, m, limit, r) == AllAttempts)
    else notes[i]
  }

  ghost function NotesAfter(notes: seq<Note>, m: Memo, limit: nat, r: Run): seq<Note> {
    seq(|notes|, i requires 0 <= i < |notes| => NoteAfter(notes, m, limit, r, i))
  }

  ghost function TripsAfter(notes: seq<Note>, m: Memo, limit: nat, r: Run): nat {
    if Stopped(notes, m, limit, r) then m.trips
    else if TripsNow(notes, m, limit, r) && m.trips + 1 < BREAKER_MAX_TRIPS then m.trips + 1
    else 0
  }

  /** The note a first timeout stopped the run at. */
  ghost predicate TimedOutAt(notes: seq<Note>, m: Memo, limit: nat, r: Run, i: nat) {
    CameTo(notes, m, limit, r, i) && Stops(m, r, i) && r.reply(i) == TimedOut
  }

  ghost predicate MemoAfter(notes: seq<Note>, m: Memo, limit: nat, r: Run, after: Memo) {
    && after.trips == TripsAfter(notes, m, limit, r)
    && (forall i: nat :: after.timedOut == Some(i) <==> TimedOutAt(notes, m, limit, r, i))
  }
}
