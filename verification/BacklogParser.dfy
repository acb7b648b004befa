/**
 The parser of backlog.txt: entries between separator lines, labelled fields in an entry,
 and one key per entry.
 */
module BacklogParser {
  import opened Wrappers
  import opened BacklogText
  import opened BacklogKeys

  /** A field's first line: whether its label is What, and what follows the colon. */
  datatype Label = Label(isWhat: bool, value: string)
  type Labels = string -> Option<Label>

  /** A key is hashed from these words; equal words are equal keys. */
  datatype Entry = Entry(key: seq<string>, what: string, text: string)

  /** Which lines part entries. */
  type Separators = string -> bool

  /** The file's own: three dashes and nothing else but trailing space. */
  predicate IsSeparator(line: string) { TrimRight(line) == "---" }

  // ---- Entries between separators ----

  function Extend(chunks: seq<seq<string>>, line: string): seq<seq<string>>
    requires chunks != []
  {
    chunks[..|chunks| - 1] + [chunks[|chunks| - 1] + [line]]
  }

  function Split(sep: Separators, lines: seq<string>): (chunks: seq<seq<string>>)
    ensures chunks != []
  {
    if lines == [] then [[]]
    else
      var before, last := Split(sep, lines[..|lines| - 1]), lines[|lines| - 1];
      if sep(last) then before + [[]] else Extend(before, last)
  }

  /** The file that entries make, with plain separators. */
  function Unsplit(chunks: seq<seq<string>>): seq<string>
    requires chunks != []
  {
    if |chunks| == 1 then chunks[0] else Unsplit(chunks[..|chunks| - 1]) + ["---"] + chunks[|chunks| - 1]
  }

  predicate NoSeparator(sep: Separators, chunk: seq<string>) { forall i | 0 <= i < |chunk| :: !sep(chunk[i]) }

  /** The lines with every separator written plainly. */
  function Normal(sep: Separators, lines: seq<string>): seq<string> {
    if lines == [] then []
    else Normal(sep, lines[..|lines| - 1]) + [if sep(lines[|lines| - 1]) then "---" else lines[|lines| - 1]]
  }

  lemma UnsplitSnoc(chunks: seq<seq<string>>, chunk: seq<string>)
    requires chunks != []
    ensures Unsplit(chunks + [chunk]) == Unsplit(chunks) + ["---"] + chunk
  {
    assert (chunks + [chunk])[..|chunks|] == chunks;
  }

  lemma UnsplitExtended(chunks: seq<seq<string>>, line: string)
    requires chunks != []
    ensures Unsplit(Extend(chunks, line)) == Unsplit(chunks) + [line]
  {
    var most, last := chunks[..|chunks| - 1], chunks[|chunks| - 1];
    if most != [] {
      UnsplitSnoc(most, last + [line]);
      assert Unsplit(most) + ["---"] + (last + [line]) == Unsplit(most) + ["---"] + last + [line];
    }
  }

  /** Splitting loses no line. */
  lemma {:induction false} SplitKeepsLines(sep: Separators, lines: seq<string>)
    ensures Unsplit(Split(sep, lines)) == Normal(sep, lines)
  {
    if lines == [] {
    } else {
      var rest, last := lines[..|lines| - 1], lines[|lines| - 1];
      SplitKeepsLines(sep, rest);
      if sep(last) {
        UnsplitSnoc(Split(sep, rest), []);
      } else {
        UnsplitExtended(Split(sep, rest), last);
      }
    }
  }

  lemma {:induction false} SplitLeavesNoSeparator(sep: Separators, lines: seq<string>)
    ensures forall i | 0 <= i < |Split(sep, lines)| :: NoSeparator(sep, Split(sep, lines)[i])
  {
    if lines != [] {
      SplitLeavesNoSeparator(sep, lines[..|lines| - 1]);
    }
  }

  lemma ExtendLast(chunks: seq<seq<string>>, chunk: seq<string>, line: string)
    ensures Extend(chunks + [chunk], line) == chunks + [chunk + [line]]
  {
    assert (chunks + [chunk])[..|chunks|] == chunks;
  }

  /** Lines without a separator extend the last chunk. */
  lemma {:induction false} SplitOfMore(sep: Separators, lines: seq<string>, chunks: seq<seq<string>>, more: seq<string>)
    requires NoSeparator(sep, more) && Split(sep, lines) == chunks + [[]]
    ensures Split(sep, lines + more) == chunks + [more]
  {
    if more == [] {
      assert lines + more == lines;
    } else {
      var fewer, last := more[..|more| - 1], more[|more| - 1];
      SplitOfMore(sep, lines, chunks, fewer);
      assert fewer + [last] == more && (lines + more)[..|lines + more| - 1] == lines + fewer;
      ExtendLast(chunks, fewer, last);
    }
  }

  /** Any separator-free entries are read back from the file they make. */
  lemma {:induction false} SplitReadsBack(sep: Separators, chunks: seq<seq<string>>)
    requires sep("---") && chunks != [] && forall i | 0 <= i < |chunks| :: NoSeparator(sep, chunks[i])
    ensures Split(sep, Unsplit(chunks)) == chunks
  {
    var rest, last := chunks[..|chunks| - 1], chunks[|chunks| - 1];
    assert chunks == rest + [last];
    if rest == [] {
      SplitOfMore(sep, [], [], last);
      assert [] + last == last;
    } else {
      SplitReadsBack(sep, rest);
      var upTo := Unsplit(rest) + ["---"];
      assert upTo[..|upTo| - 1] == Unsplit(rest);
      SplitOfMore(sep, upTo, rest, last);
    }
  }

  method SplitEntries(sep: Separators, lines: seq<string>) returns (chunks: seq<seq<string>>)
    ensures chunks == Split(sep, lines)
    ensures forall i | 0 <= i < |chunks| :: NoSeparator(sep, chunks[i])
  {
    chunks := [];
    var current: seq<string> := [];
    for i := 0 to |lines|
      invariant chunks + [current] == Split(sep, lines[..i])
    {
      assert lines[..i + 1][..i] == lines[..i];
      if sep(lines[i]) {
        chunks := chunks + [current];
        current := [];
      } else {
        assert (chunks + [current])[..|chunks|] == chunks;
        current := current + [lines[i]];
      }
    }
    assert lines[..|lines|] == lines;
    chunks := chunks + [current];
    SplitLeavesNoSeparator(sep, lines);
  }

  // ---- Fields of an entry ----

  function Blocks(labelOf: Labels, lines: seq<string>): (blocks: seq<seq<string>>)
    ensures forall i | 0 <= i < |blocks| :: blocks[i] != []
  {
    if lines == [] then []
    else
      var before, last := Blocks(labelOf, lines[..|lines| - 1]), lines[|lines| - 1];
      if labelOf(last).Some? then before + [[last]] else if before == [] then [] else Extend(before, last)
  }

  function Flat(blocks: seq<seq<string>>): seq<string> {
    if blocks == [] then [] else Flat(blocks[..|blocks| - 1]) + blocks[|blocks| - 1]
  }

  lemma FlatSnoc(blocks: seq<seq<string>>, block: seq<string>)
    ensures Flat(blocks + [block]) == Flat(blocks) + block
  {
    assert (blocks + [block])[..|blocks|] == blocks;
  }

  lemma FlatExtended(blocks: seq<seq<string>>, line: string)
    requires blocks != []
    ensures Flat(Extend(blocks, line)) == Flat(blocks) + [line]
  {
    var most, last := blocks[..|blocks| - 1], blocks[|blocks| - 1];
    FlatSnoc(most, last + [line]);
    assert Flat(most) + (last + [line]) == Flat(most) + last + [line];
  }

  /** The lines from the first label on. */
  function FromFirstLabel(labelOf: Labels, lines: seq<string>): seq<string> {
    if lines == [] then [] else if labelOf(lines[0]).Some? then lines else FromFirstLabel(labelOf, lines[1..])
  }

  lemma {:induction false} FromFirstLabelSnoc(labelOf: Labels, lines: seq<string>, line: string)
    ensures var before := FromFirstLabel(labelOf, lines);
      FromFirstLabel(labelOf, lines + [line]) == if before != [] || labelOf(line).Some? then before + [line] else []
  {
    if lines == [] {
      assert [] + [line] == [line];
    } else if labelOf(lines[0]).None? {
      assert (lines + [line])[1..] == lines[1..] + [line];
      FromFirstLabelSnoc(labelOf, lines[1..], line);
    }
  }

  /** The fields are all the lines from the first label on: only the preamble is dropped. */
  lemma {:induction false} FieldsKeepLines(labelOf: Labels, lines: seq<string>)
    ensures Flat(Blocks(labelOf, lines)) == FromFirstLabel(labelOf, lines)
    ensures Blocks(labelOf, lines) == [] <==> FromFirstLabel(labelOf, lines) == []
  {
    if lines == [] {
    } else {
      var rest, last := lines[..|lines| - 1], lines[|lines| - 1];
      var before := Blocks(labelOf, rest);
      FieldsKeepLines(labelOf, rest);
      assert lines == rest + [last];
      FromFirstLabelSnoc(labelOf, rest, last);
      if labelOf(last).Some? {
        FlatSnoc(before, [last]);
      } else if before != [] {
        FlatExtended(before, last);
      }
    }
  }

  /** A field: its label line, and lines that are none. */
  predicate IsField(labelOf: Labels, block: seq<string>) {
    block != [] && labelOf(block[0]).Some? && forall i | 1 <= i < |block| :: labelOf(block[i]).None?
  }

  lemma {:induction false} BlocksAreFields(labelOf: Labels, lines: seq<string>)
    ensures forall i | 0 <= i < |Blocks(labelOf, lines)| :: IsField(labelOf, Blocks(labelOf, lines)[i])
  {
    if lines != [] {
      BlocksAreFields(labelOf, lines[..|lines| - 1]);
    }
  }

  method Fields(labelOf: Labels, lines: seq<string>) returns (blocks: seq<seq<string>>)
    ensures blocks == Blocks(labelOf, lines)
    ensures forall i | 0 <= i < |blocks| :: IsField(labelOf, blocks[i])
  {
    blocks := [];
    for i := 0 to |lines|
      invariant blocks == Blocks(labelOf, lines[..i])
    {
      assert lines[..i + 1][..i] == lines[..i];
      if labelOf(lines[i]).Some? {
        blocks := blocks + [[lines[i]]];
      } else if blocks != [] {
        blocks := blocks[..|blocks| - 1] + [blocks[|blocks| - 1] + [lines[i]]];
      }
    }
    assert lines[..|lines|] == lines;
    BlocksAreFields(labelOf, lines);
  }

  // ---- One entry ----

  function WhatBlock(labelOf: Labels, blocks: seq<seq<string>>): (at: nat)
    requires forall i | 0 <= i < |blocks| :: blocks[i] != []
    ensures at <= |blocks|
    ensures at < |blocks| ==> labelOf(blocks[at][0]).Some? && labelOf(blocks[at][0]).value.isWhat
    ensures forall i | 0 <= i < at :: !(labelOf(blocks[i][0]).Some? && labelOf(blocks[i][0]).value.isWhat)
  {
    if blocks == [] || (labelOf(blocks[0][0]).Some? && labelOf(blocks[0][0]).value.isWhat) then 0
    else 1 + WhatBlock(labelOf, blocks[1..])
  }

  function Lines(lines: seq<string>): string { if lines == [] then "" else "\n" + lines[0] + Lines(lines[1..]) }

  /** The first What: field decides the entry; its other fields follow its value in the text. */
  function EntryOf(labelOf: Labels, lower: char -> string, chunk: seq<string>): Option<Entry> {
    OfFields(labelOf, lower, Blocks(labelOf, chunk))
  }

  function OfFields(labelOf: Labels, lower: char -> string, blocks: seq<seq<string>>): Option<Entry>
    requires forall i | 0 <= i < |blocks| :: blocks[i] != []
  {
    var at := WhatBlock(labelOf, blocks);
    if at == |blocks| then None
    else
      var what := Folded([labelOf(blocks[at][0]).value.value] + blocks[at][1..]);
      if what == "" then None
      else Some(Entry(KeyWords(lower, what), what, Posted(what, Lines(Flat(blocks[..at] + blocks[at + 1..])))))
  }

  // ---- The file ----

  function KeysOf(entries: seq<Entry>): set<seq<string>> { set e | e in entries :: e.key }

  /** What each chunk of the file says, if it is an entry. */
  function Candidates(labelOf: Labels, lower: char -> string, chunks: seq<seq<string>>): seq<Option<Entry>> {
    seq(|chunks|, i requires 0 <= i < |chunks| => EntryOf(labelOf, lower, chunks[i]))
  }

  /** The candidates whose key no earlier one had. */
  function Firsts(candidates: seq<Option<Entry>>): seq<Entry> {
    if candidates == [] then []
    else Added(Firsts(candidates[..|candidates| - 1]), candidates[|candidates| - 1])
  }

  method ParseBacklog(labelOf: Labels, lower: char -> string, lines: seq<string>) returns (out: seq<Entry>)
    ensures out == Firsts(Candidates(labelOf, lower, Split(IsSeparator, lines)))
  {
    out := [];
    var seen: set<seq<string>> := {};
    var chunks := SplitEntries(IsSeparator, lines);
    for i := 0 to |chunks|
      invariant out == Firsts(Candidates(labelOf, lower, chunks[..i])) && seen == KeysOf(out)
    {
      var c := Read(labelOf, lower, chunks[i]);
      OneMoreChunk(labelOf, lower, chunks, i);
      out, seen := Add(out, seen, c);
    }
    assert chunks[..|chunks|] == chunks;
  }

  lemma OneMoreChunk(labelOf: Labels, lower: char -> string, chunks: seq<seq<string>>, i: nat)
    requires i < |chunks|
    ensures Firsts(Candidates(labelOf, lower, chunks[..i + 1]))
         == Added(Firsts(Candidates(labelOf, lower, chunks[..i])), EntryOf(labelOf, lower, chunks[i]))
  {
    var more := Candidates(labelOf, lower, chunks[..i + 1]);
    assert more[..i] == Candidates(labelOf, lower, chunks[..i]);
  }

  function Added(out: seq<Entry>, c: Option<Entry>): seq<Entry> {
    if c.None? || c.value.key in KeysOf(out) then out else out + [c.value]
  }

  /** A duplicate key is dropped rather than sent twice. */
  method Add(out: seq<Entry>, seen: set<seq<string>>, c: Option<Entry>) returns (more: seq<Entry>, nowSeen: set<seq<string>>)
    requires seen == KeysOf(out)
    ensures more == Added(out, c) && nowSeen == KeysOf(more)
  {
    if c.None? || c.value.key in seen { return out, seen; }
    OneMoreEntry(out, c.value);
    return out + [c.value], seen + {c.value.key};
  }

  method Read(labelOf: Labels, lower: char -> string, chunk: seq<string>) returns (e: Option<Entry>)
    ensures e == EntryOf(labelOf, lower, chunk)
  {
    var blocks := Fields(labelOf, chunk);
    e := OfFields(labelOf, lower, blocks);
  }

  lemma OneMoreEntry(entries: seq<Entry>, e: Entry)
    ensures KeysOf(entries + [e]) == KeysOf(entries) + {e.key}
  {
    forall k
      ensures k in KeysOf(entries + [e]) <==> k in KeysOf(entries) || k == e.key
    {
      assert e in entries + [e];
      if k in KeysOf(entries) {
        var x :| x in entries && x.key == k;
        assert x in entries + [e];
      }
    }
  }

  ghost predicate DistinctKeys(out: seq<Entry>) { forall i, j | 0 <= i < j < |out| :: out[i].key != out[j].key }

  lemma AddedStaysDistinct(out: seq<Entry>, c: Option<Entry>)
    requires DistinctKeys(out)
    ensures DistinctKeys(Added(out, c))
  {
    forall i | 0 <= i < |out|
      ensures out[i].key in KeysOf(out)
    {
      assert out[i] in out;
    }
  }

  /** No key is sent twice. */
  lemma {:induction false} KeysAreDistinct(candidates: seq<Option<Entry>>)
    ensures DistinctKeys(Firsts(candidates))
  {
    if candidates != [] {
      KeysAreDistinct(candidates[..|candidates| - 1]);
      AddedStaysDistinct(Firsts(candidates[..|candidates| - 1]), candidates[|candidates| - 1]);
    }
  }

  ghost predicate HasKey(candidates: seq<Option<Entry>>, i: int, key: seq<string>) {
    0 <= i < |candidates| && candidates[i].Some? && candidates[i].value.key == key
  }

  /** Every entry's key is sent, and no other. */
  lemma {:induction false} EveryKeyIsSent(candidates: seq<Option<Entry>>, key: seq<string>)
    ensures key in KeysOf(Firsts(candidates)) <==> exists i :: HasKey(candidates, i, key)
  {
    if candidates == [] {
    } else {
      var rest, last := candidates[..|candidates| - 1], |candidates| - 1;
      EveryKeyIsSent(rest, key);
      forall i | 0 <= i < last
        ensures HasKey(candidates, i, key) <==> HasKey(rest, i, key)
      {
      }
      if candidates[last].Some? {
        OneMoreEntry(Firsts(rest), candidates[last].value);
        assert HasKey(candidates, last, key) <==> candidates[last].value.key == key;
      }
      if i :| HasKey(rest, i, key) {
        assert HasKey(candidates, i, key);
      }
    }
  }

  /** The entry sent for a key is the first of the file that has it. */
  lemma {:induction false} TheFirstIsSent(candidates: seq<Option<Entry>>, i: nat)
    requires i < |candidates| && candidates[i].Some?
    requires forall j | 0 <= j < i :: !HasKey(candidates, j, candidates[i].value.key)
    ensures candidates[i].value in Firsts(candidates)
  {
    var rest, last := candidates[..|candidates| - 1], |candidates| - 1;
    if i == last {
      EveryKeyIsSent(rest, candidates[i].value.key);
      forall j
        ensures !HasKey(rest, j, candidates[i].value.key)
      {
        assert HasKey(rest, j, candidates[i].value.key) ==> HasKey(candidates, j, candidates[i].value.key);
      }
    } else {
      forall j | 0 <= j < i
        ensures !HasKey(rest, j, rest[i].value.key)
      {
        assert !HasKey(candidates, j, candidates[i].value.key);
      }
      TheFirstIsSent(rest, i);
    }
  }

  // ---- The server takes what the parser sends ----

  /** Labels cut from a line hold no newline. */
  ghost predicate OneLineLabels(labelOf: Labels) {
    forall line | OneLine(line) && labelOf(line).Some? :: OneLine(labelOf(line).value.value)
  }

  lemma {:induction false} FoldedIsOneLine(lines: seq<string>)
    requires forall line | line in lines :: OneLine(line)
    ensures OneLine(Folded(lines))
  {
    if lines != [] {
      FoldedIsOneLine(lines[1..]);
      TrimLeftDrops(lines[0]);
      TrimRightDrops(TrimLeft(lines[0]));
      assert OneLine(lines[0]);
    }
  }

  lemma {:induction false} BlocksAreOfTheLines(labelOf: Labels, lines: seq<string>)
    ensures forall i, k | 0 <= i < |Blocks(labelOf, lines)| && 0 <= k < |Blocks(labelOf, lines)[i]| ::
      Blocks(labelOf, lines)[i][k] in lines
  {
    if lines != [] {
      BlocksAreOfTheLines(labelOf, lines[..|lines| - 1]);
    }
  }

  /**
   Every entry the parser sends whose What: value can be seen is one the server accepts:
   the key it derives from the text it stores is the key it was sent.
   */
  lemma SentKeysAreAccepted(labelOf: Labels, lower: char -> string, chunk: seq<string>)
    requires Lowers(lower) && OneLineLabels(labelOf) && forall line | line in chunk :: OneLine(line)
    ensures var e := EntryOf(labelOf, lower, chunk);
      e.Some? && Inked(e.value.what) ==> KeyWords(lower, FirstLine(Clean(e.value.text))) == e.value.key
  {
    var blocks := Blocks(labelOf, chunk);
    var at := WhatBlock(labelOf, blocks);
    if at < |blocks| {
      BlocksAreOfTheLines(labelOf, chunk);
      var lines := [labelOf(blocks[at][0]).value.value] + blocks[at][1..];
      forall line | line in lines
        ensures OneLine(line)
      {
        if line != lines[0] {
          var k :| 0 <= k < |blocks[at][1..]| && blocks[at][1..][k] == line;
          assert blocks[at][k + 1] in chunk;
        } else {
          assert blocks[at][0] in chunk;
        }
      }
      FoldedIsOneLine(lines);
      var what, rest := Folded(lines), Lines(Flat(blocks[..at] + blocks[at + 1..]));
      if Inked(what) {
        KeysAgree(lower, what, rest);
      }
    }
  }
}
