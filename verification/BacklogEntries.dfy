/**
 What an entry holds: all the words of its chunk of the file, the What: value's first, under
 the key of that value; and which lines part the chunks.
 */
module BacklogEntries {
  import opened Wrappers
  import opened BacklogText
  import opened BacklogKeys
  import opened BacklogParser

  // ---- Separators ----

  /** A separator is three dashes and whitespace after them, and nothing before. */
  lemma SeparatorsExactly(line: string)
    ensures IsSeparator(line) <==> |line| >= 3 && line[..3] == "---" && AllSpace(line[3..])
  {
    TrimRightDrops(line);
    if |line| >= 3 && line[..3] == "---" && AllSpace(line[3..]) {
      assert line == "---" + line[3..];
      TrimRightPast("---", line[3..]);
    }
  }

  // ---- The words of an entry ----

  lemma {:induction false} LinesKeepWords(lines: seq<string>)
    ensures Words(Visible(Lines(lines))) == WordsOf(lines)
  {
    if lines != [] {
      LinesKeepWords(lines[1..]);
      VisibleOfThree("\n", lines[0], Lines(lines[1..]));
      VisibleStays("\n");
      LeadingSpace("\n", Visible(lines[0]) + Visible(Lines(lines[1..])));
      assert "\n" + Visible(lines[0]) + Visible(Lines(lines[1..])) == "\n" + (Visible(lines[0]) + Visible(Lines(lines[1..])));
      WordsOfTwo(Visible(lines[0]), Lines(lines[1..]));
    }
  }

  /** Text and the lines after it share no word. */
  lemma WordsOfTwo(s: string, rest: string)
    requires IsRest(rest)
    ensures Words(s + Visible(rest)) == Words(s) + Words(Visible(rest))
  {
    if rest == "" {
      assert s + Visible(rest) == s;
      assert Words(s) + [] == Words(s);
    } else {
      var more := Visible(rest[1..]);
      assert Visible(rest) == ['\n'] + more;
      assert s + Visible(rest) == s + ['\n'] + more;
      SpaceParts(s, '\n', more);
      SpaceBefore('\n', more);
    }
  }

  lemma LinesAreRest(lines: seq<string>)
    ensures IsRest(Lines(lines))
  {
  }

  /** The whole text of the entry is within the cap, so that nothing is cut from it. */
  predicate TextFits(what: string, rest: string) { |Trim(Visible(what + rest))| <= MAX_TEXT }

  lemma PostedKeepsWords(what: string, rest: string)
    requires TextFits(what, rest) && IsRest(rest)
    ensures Words(Posted(what, rest)) == Words(Visible(what)) + Words(Visible(rest))
  {
    TrimFirstOrNot(what + rest);
    TrimKeepsWords(Visible(what + rest));
    VisibleConcat(what, rest);
    WordsOfTwo(Visible(what), rest);
  }

  /** The lines of the What: field, its label cut off, and the lines of all the other fields. */
  function WhatLines(labelOf: Labels, blocks: seq<seq<string>>, at: nat): seq<string>
    requires at < |blocks| && blocks[at] != [] && labelOf(blocks[at][0]).Some?
  {
    [labelOf(blocks[at][0]).value.value] + blocks[at][1..]
  }

  function OtherLines(blocks: seq<seq<string>>, at: nat): seq<string>
    requires at < |blocks|
  {
    Flat(blocks[..at] + blocks[at + 1..])
  }

  /**
   A chunk is an entry if and only if it has a What: field that says something. Its key is
   that of the first such field's words, and its text holds those words and then, in
   order, the words of every line of the other fields: none is lost while it fits the cap.
   */
  lemma EntryKeepsTheChunk(labelOf: Labels, lower: char -> string, chunk: seq<string>)
    requires Lowers(lower)
    ensures var blocks, at, e := Blocks(labelOf, chunk), WhatBlock(labelOf, Blocks(labelOf, chunk)), EntryOf(labelOf, lower, chunk);
      && (e.Some? <==> at < |blocks| && Folded(WhatLines(labelOf, blocks, at)) != "")
      && (e.Some? ==>
            && Words(Visible(e.value.what)) == WordsOf(WhatLines(labelOf, blocks, at))
            && e.value.key == LoweredWords(lower, Words(Clean(e.value.what)))
            && (TextFits(e.value.what, Lines(OtherLines(blocks, at))) ==>
                  Words(e.value.text) == WordsOf(WhatLines(labelOf, blocks, at)) + WordsOf(OtherLines(blocks, at))))
  {
    var blocks, at := Blocks(labelOf, chunk), WhatBlock(labelOf, Blocks(labelOf, chunk));
    if at < |blocks| {
      var what, rest := Folded(WhatLines(labelOf, blocks, at)), Lines(OtherLines(blocks, at));
      FoldingKeepsWords(WhatLines(labelOf, blocks, at));
      KeyIsItsWords(lower, what);
      LinesKeepWords(OtherLines(blocks, at));
      LinesAreRest(OtherLines(blocks, at));
      if TextFits(what, rest) {
        PostedKeepsWords(what, rest);
      }
    }
  }
}
