/** From the file to the board: what the parser sends, what the server makes of it, and that it settles. */
module BacklogPushes {
  import opened Wrappers
  import BacklogKeys
  import opened BacklogParser
  import opened BacklogText
  import InboxBacklog
  import InboxRules

  const MAX_BACKLOG_ITEMS := 2000

  /** How a server row is made of what is sent: the hash of a key's words, and what the stored text says. */
  datatype Derivation = Derivation(lower: char -> string, hash: seq<string> -> string, says: string -> InboxRules.Text)

  /** The text that would be stored of an entry. */
  function StoredText(e: Entry): string { Clean(e.text) }

  /** The key the server derives from that text is the one that was sent. */
  predicate KeyMatches(d: Derivation, e: Entry) { d.hash(KeyWords(d.lower, FirstLine(StoredText(e)))) == d.hash(e.key) }

  predicate Acceptable(d: Derivation, e: Entry) { StoredText(e) == "" || KeyMatches(d, e) }

  /** What is left to store: the entries that are not blank, in order. */
  function Stored(d: Derivation, entries: seq<Entry>): seq<InboxRules.Entry> {
    if entries == [] then []
    else
      var rest, e := Stored(d, entries[..|entries| - 1]), entries[|entries| - 1];
      if StoredText(e) == "" then rest else rest + [InboxRules.Entry(d.hash(e.key), d.says(StoredText(e)), None)]
  }

  /**
   What the server makes of a push. It is refused as a whole for too many items, for one
   key that does not match, or for nothing to store.
   */
  function Accepted(d: Derivation, entries: seq<Entry>): Option<seq<InboxRules.Entry>> {
    if |entries| > MAX_BACKLOG_ITEMS || (exists e | e in entries :: !Acceptable(d, e)) || Stored(d, entries) == [] then None
    else Some(Stored(d, entries))
  }

  /** A refused push leaves the store exactly as it was. */
  function ServerStep(b: InboxRules.Board, d: Derivation, entries: seq<Entry>, complete: bool, now: int): InboxRules.Board {
    match Accepted(d, entries)
    case None => b
    case Some(items) => InboxRules.PushStep(b, items, complete, now)
  }

  /** No two of the keys sent hash alike. */
  ghost predicate NoCollision(d: Derivation, entries: seq<Entry>) {
    forall e, other | e in entries && other in entries && d.hash(e.key) == d.hash(other.key) :: e.key == other.key
  }

  ghost predicate KeyOfSome(d: Derivation, entries: seq<Entry>, key: string) {
    exists e :: e in entries && d.hash(e.key) == key
  }

  lemma {:induction false} StoredAreOfTheEntries(d: Derivation, entries: seq<Entry>)
    ensures forall item | item in Stored(d, entries) :: KeyOfSome(d, entries, item.key)
  {
    if entries != [] {
      var rest, last := entries[..|entries| - 1], entries[|entries| - 1];
      StoredAreOfTheEntries(d, rest);
      assert last in entries && entries == rest + [last];
      forall item | item in Stored(d, rest)
        ensures KeyOfSome(d, entries, item.key)
      {
        var e :| e in rest && d.hash(e.key) == item.key;
        assert e in entries;
      }
    }
  }

  lemma {:induction false} StoredKeysAreDistinct(d: Derivation, entries: seq<Entry>)
    requires DistinctKeys(entries) && NoCollision(d, entries)
    ensures InboxBacklog.DistinctKeys(Stored(d, entries))
  {
    if entries != [] {
      var rest, last := entries[..|entries| - 1], entries[|entries| - 1];
      assert last in entries && entries == rest + [last];
      StoredKeysAreDistinct(d, rest);
      StoredAreOfTheEntries(d, rest);
      forall item | item in Stored(d, rest)
        ensures item.key != d.hash(last.key)
      {
        var e :| e in rest && d.hash(e.key) == item.key;
        var at :| 0 <= at < |rest| && rest[at] == e;
        assert entries[at].key != entries[|entries| - 1].key && e in entries;
      }
    }
  }

  /**
   END TO END. Whatever the file holds, repeated What: lines included, pushing what the
   parser makes of it three times in a row writes nothing the third time, as long as no
   two of its own keys hash alike.
   */
  lemma ParsedFilesSettle(b: InboxRules.Board, d: Derivation, labelOf: Labels, lines: seq<string>, t1: int, t2: int, t3: int)
    requires NoCollision(d, Firsts(Candidates(labelOf, d.lower, Split(IsSeparator, lines))))
    ensures var entries := Firsts(Candidates(labelOf, d.lower, Split(IsSeparator, lines)));
      var twice := ServerStep(ServerStep(b, d, entries, true, t1), d, entries, true, t2);
      ServerStep(twice, d, entries, true, t3) == twice
  {
    var candidates := Candidates(labelOf, d.lower, Split(IsSeparator, lines));
    var entries := Firsts(candidates);
    if Accepted(d, entries).Some? {
      KeysAreDistinct(candidates);
      StoredKeysAreDistinct(d, entries);
      InboxBacklog.DistinctKeysAgree(Stored(d, entries));
      InboxBacklog.ThirdPushWritesNothing(b, Stored(d, entries), t1, t2, t3);
    }
  }

  /** An entry the parser makes of one-line lines is acceptable when its What: value can be seen. */
  lemma SeenEntriesAreAcceptable(d: Derivation, labelOf: Labels, chunk: seq<string>)
    requires Lowers(d.lower) && OneLineLabels(labelOf) && forall line | line in chunk :: BacklogKeys.OneLine(line)
    ensures var e := EntryOf(labelOf, d.lower, chunk);
      e.Some? && BacklogKeys.Inked(e.value.what) ==> Acceptable(d, e.value) && StoredText(e.value) != ""
  {
    SentKeysAreAccepted(labelOf, d.lower, chunk);
    var e := EntryOf(labelOf, d.lower, chunk);
    if e.Some? && BacklogKeys.Inked(e.value.what) {
      var blocks := Blocks(labelOf, chunk);
      var at := WhatBlock(labelOf, blocks);
      BacklogKeys.ReceivedIsACut(e.value.what, Lines(Flat(blocks[..at] + blocks[at + 1..])));
    }
  }
}
