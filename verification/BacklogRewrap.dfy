/**
 Re-wrapping a What: value: when breaking the same words over other lines keeps the key.
 */
module BacklogRewrap {
  import opened BacklogText
  import opened BacklogKeys

  /** How many characters of `s` are not whitespace. */
  function Ink(s: string): nat { if s == "" then 0 else Ink(s[1..]) + if IsSpace(s[0]) then 0 else 1 }

  function InkOfAll(words: seq<string>): nat { if words == [] then 0 else Ink(words[0]) + InkOfAll(words[1..]) }

  /** The words of the first `n` characters of ink, the last of them cut if need be. */
  function TakeInk(words: seq<string>, n: nat): seq<string> {
    if words == [] || n == 0 then []
    else if |words[0]| <= n then [words[0]] + TakeInk(words[1..], n - |words[0]|)
    else [words[0][..n]]
  }

  /** Words as they come from a text: none empty, and no whitespace in them. */
  ghost predicate AllInk(words: seq<string>) { forall w | w in words :: IsInk(w) }

  // ---- Ink ----

  lemma {:induction false} InkConcat(a: string, b: string)
    ensures Ink(a + b) == Ink(a) + Ink(b)
  {
    if a == "" {
      assert a + b == b;
    } else {
      assert (a + b)[1..] == a[1..] + b;
      InkConcat(a[1..], b);
    }
  }

  lemma {:induction false} InkOfInk(w: string)
    requires IsInk(w)
    ensures Ink(w) == |w|
  {
    if |w| > 1 {
      InkOfInk(w[1..]);
    } else {
      assert w[1..] == "";
    }
  }

  lemma {:induction false} SomeInk(s: string, i: nat)
    requires i < |s| && !IsSpace(s[i])
    ensures Ink(s) > 0
  {
    if IsSpace(s[0]) {
      SomeInk(s[1..], i - 1);
    }
  }

  lemma {:induction false} WordsAreInk(s: string)
    ensures AllInk(Words(s)) && InkOfAll(Words(s)) == Ink(s)
    decreases |s|
  {
    if s == "" {
    } else if IsSpace(s[0]) {
      WordsAreInk(s[1..]);
    } else {
      var w, rest := s[..WordEnd(s)], s[WordEnd(s)..];
      FirstWord(s);
      WordEndMeans(s);
      InkOfInk(w);
      WordsAreInk(rest);
      assert s == w + rest;
      InkConcat(w, rest);
    }
  }

  // ---- The words of a cut ----

  /** The words of a text cut short are fixed by its words and by how much ink is left. */
  lemma {:induction false} WordsOfPrefix(s: string, k: nat)
    requires k <= |s|
    ensures Words(s[..k]) == TakeInk(Words(s), Ink(s[..k]))
    decreases |s|
  {
    if k == 0 {
      assert s[..k] == "";
    } else if IsSpace(s[0]) {
      assert s[..k][1..] == s[1..][..k - 1];
      WordsOfPrefix(s[1..], k - 1);
    } else {
      FirstWord(s);
      if k <= WordEnd(s) {
        CutInFirstWord(s, k);
      } else {
        CutAfterFirstWord(s, k);
        WordsOfPrefix(s[WordEnd(s)..], k - WordEnd(s));
      }
    }
  }

  lemma CutInFirstWord(s: string, k: nat)
    requires s != "" && !IsSpace(s[0]) && 0 < k <= WordEnd(s)
    ensures Words(s[..k]) == TakeInk(Words(s), Ink(s[..k]))
  {
    var w, cut := s[..WordEnd(s)], s[..k];
    FirstWord(s);
    WordEndMeans(s);
    assert cut == w[..k] && IsInk(cut);
    OneWord(cut);
    InkOfInk(cut);
    assert TakeInk(Words(s)[1..], 0) == [];
  }

  lemma CutAfterFirstWord(s: string, k: nat)
    requires s != "" && !IsSpace(s[0]) && WordEnd(s) < k <= |s|
    ensures var n := WordEnd(s);
      && Words(s[..k]) == [s[..n]] + Words(s[n..][..k - n])
      && Ink(s[..k]) == |s[..n]| + Ink(s[n..][..k - n])
  {
    var n := WordEnd(s);
    var w, rest := s[..n], s[n..][..k - n];
    WordEndMeans(s);
    assert s[..k] == w + rest && rest[0] == s[n..][0];
    WordThenRest(w, rest);
    InkConcat(w, rest);
    InkOfInk(w);
  }

  // ---- More ink is another key ----

  function LoweredInkOf(lower: char -> string, words: seq<string>): nat {
    if words == [] then 0 else Ink(Lowered(lower, words[0])) + LoweredInkOf(lower, words[1..])
  }

  lemma InkOfConcat(a: seq<string>, b: seq<string>)
    ensures InkOfAll(a + b) == InkOfAll(a) + InkOfAll(b)
  {
    if a == [] {
      assert a + b == b;
    } else {
      assert (a + b)[1..] == a[1..] + b;
      InkOfConcat(a[1..], b);
    }
  }

  lemma {:induction false} LoweredWordsHaveTheInk(lower: char -> string, words: seq<string>)
    ensures InkOfAll(LoweredWords(lower, words)) == LoweredInkOf(lower, words)
  {
    if words != [] {
      LoweredWordsHaveTheInk(lower, words[1..]);
      WordsAreInk(Lowered(lower, words[0]));
      InkOfConcat(Words(Lowered(lower, words[0])), LoweredWords(lower, words[1..]));
    }
  }

  /** A word cut short has less ink, and so has its lower case. */
  lemma LoweredCutIsLess(lower: char -> string, w: string, n: nat)
    requires Lowers(lower) && IsInk(w) && n < |w|
    ensures Ink(Lowered(lower, w[..n])) < Ink(Lowered(lower, w))
  {
    var rest := w[n..];
    assert w == w[..n] + rest && !IsSpace(rest[0]);
    LoweredConcat(lower, w[..n], rest);
    InkConcat(Lowered(lower, w[..n]), Lowered(lower, rest));
    var i :| 0 <= i < |lower(rest[0])| && !IsSpace(lower(rest[0])[i]);
    assert Lowered(lower, rest)[i] == lower(rest[0])[i];
    SomeInk(Lowered(lower, rest), i);
  }

  /** Of the same words, the longer cut has more ink in lower case too. */
  lemma {:induction false} MoreInkIsMore(lower: char -> string, words: seq<string>, n: nat, m: nat)
    requires Lowers(lower) && AllInk(words) && n < m <= InkOfAll(words)
    ensures LoweredInkOf(lower, TakeInk(words, n)) < LoweredInkOf(lower, TakeInk(words, m))
  {
    var w, rest := words[0], words[1..];
    assert w in words;
    InkOfInk(w);
    if |w| <= n {
      MoreInkIsMore(lower, rest, n - |w|, m - |w|);
      TakeWholeWord(lower, words, n);
      TakeWholeWord(lower, words, m);
    } else {
      TakeWithin(lower, words, n);
      if |w| <= m {
        TakeWholeWord(lower, words, m);
        LoweredCutIsLess(lower, w, n);
      } else {
        TakeWithin(lower, words, m);
        assert w[..m][..n] == w[..n] && IsInk(w[..m]);
        LoweredCutIsLess(lower, w[..m], n);
      }
    }
  }

  lemma TakeWholeWord(lower: char -> string, words: seq<string>, n: nat)
    requires words != [] && words[0] != "" && |words[0]| <= n
    ensures LoweredInkOf(lower, TakeInk(words, n))
         == Ink(Lowered(lower, words[0])) + LoweredInkOf(lower, TakeInk(words[1..], n - |words[0]|))
  {
    var tail := TakeInk(words[1..], n - |words[0]|);
    assert ([words[0]] + tail)[1..] == tail;
  }

  lemma TakeWithin(lower: char -> string, words: seq<string>, n: nat)
    requires words != [] && n < |words[0]|
    ensures LoweredInkOf(lower, TakeInk(words, n)) == Ink(Lowered(lower, words[0][..n]))
  {
    if n == 0 {
      assert words[0][..0] == "";
    } else {
      assert [words[0][..n]][1..] == [];
    }
  }

  // ---- The theorem ----

  /** What cleaning keeps of a folded value: the first words of its lines, by ink. */
  lemma CleanedWords(lines: seq<string>)
    ensures var kept := Ink(Clean(Folded(lines)));
      && kept <= InkOfAll(WordsOf(lines))
      && Words(Clean(Folded(lines))) == TakeInk(WordsOf(lines), kept)
  {
    var t := Trim(Visible(Folded(lines)));
    var k := if |t| <= MAX_TEXT then |t| else MAX_TEXT;
    assert Clean(Folded(lines)) == t[..k] && t == t[..k] + t[k..];
    TrimKeepsWords(Visible(Folded(lines)));
    FoldingKeepsWords(lines);
    WordsOfPrefix(t, k);
    WordsAreInk(t);
    InkConcat(t[..k], t[k..]);
  }

  /**
   RE-WRAPPING, EXACTLY. When the same words are broken over other lines the key is the
   same if and only if cleaning keeps as many characters of ink of the one value as of
   the other.
   */
  lemma RewrapKeepsTheKeyExactly(lower: char -> string, lines: seq<string>, rewrapped: seq<string>)
    requires Lowers(lower) && WordsOf(lines) == WordsOf(rewrapped)
    ensures KeyWords(lower, Folded(lines)) == KeyWords(lower, Folded(rewrapped))
       <==> Ink(Clean(Folded(lines))) == Ink(Clean(Folded(rewrapped)))
  {
    var words, n, m := WordsOf(lines), Ink(Clean(Folded(lines))), Ink(Clean(Folded(rewrapped)));
    KeyIsItsWords(lower, Folded(lines));
    KeyIsItsWords(lower, Folded(rewrapped));
    CleanedWords(lines);
    CleanedWords(rewrapped);
    if n != m {
      WordsAreInk(Visible(Folded(lines)));
      FoldingKeepsWords(lines);
      LoweredWordsHaveTheInk(lower, TakeInk(words, n));
      LoweredWordsHaveTheInk(lower, TakeInk(words, m));
      MoreInkIsMore(lower, words, if n < m then n else m, if n < m then m else n);
    }
  }

  /** The cleaned value is within the cap, so that truncation takes nothing. */
  predicate Fits(what: string) { |Trim(Visible(what))| <= MAX_TEXT }

  /** In particular while both values fit, so that nothing is cut. */
  lemma RewrapKeepsTheKey(lower: char -> string, lines: seq<string>, rewrapped: seq<string>)
    requires Lowers(lower) && WordsOf(lines) == WordsOf(rewrapped)
    requires Fits(Folded(lines)) && Fits(Folded(rewrapped))
    ensures KeyWords(lower, Folded(lines)) == KeyWords(lower, Folded(rewrapped))
  {
    FittingKeepsAllInk(lines);
    FittingKeepsAllInk(rewrapped);
    RewrapKeepsTheKeyExactly(lower, lines, rewrapped);
  }

  lemma FittingKeepsAllInk(lines: seq<string>)
    requires Fits(Folded(lines))
    ensures Ink(Clean(Folded(lines))) == InkOfAll(WordsOf(lines))
  {
    TrimKeepsWords(Visible(Folded(lines)));
    FoldingKeepsWords(lines);
    WordsAreInk(Clean(Folded(lines)));
  }

  // ---- Past the cap ----

  lemma CleanOfPlain(s: string)
    requires s != "" && !IsSpace(s[0]) && !IsSpace(s[|s| - 1]) && forall c | c in s :: !IsControl(c)
    ensures Clean(s) == Take(s, MAX_TEXT)
  {
    VisibleStays(s);
    TrimOfInked(s);
  }

  function AsTyped(c: char): string { [c] }

  lemma {:induction false} AsItIs(s: string)
    ensures Lowered(AsTyped, s) == s
  {
    if s != "" {
      AsItIs(s[1..]);
    }
  }

  predicate Plain(w: string) { |w| == MAX_TEXT - 2 && forall i | 0 <= i < |w| :: !IsSpace(w[i]) && !IsControl(w[i]) }

  lemma TwoWords(w: string, gap: string, v: string)
    requires Words(w) == [w] && Words(v) == [v] && AllSpace(gap) && gap != ""
    ensures Words(w + gap + v) == [w, v]
  {
    var first, more := gap[0], gap[1..];
    SpaceParts(w, first, more + v);
    LeadingSpace(more, v);
    assert w + gap + v == w + [first] + (more + v) && [w] + [v] == [w, v];
  }

  lemma LongWords(w: string)
    requires Plain(w)
    ensures Words(w + "  b") == [w, "b"] && Words(w + " b") == [w, "b"] && Words(w + "  ") == [w]
  {
    OneWord(w);
    OneWord("b");
    TwoWords(w, " ", "b");
    TwoWords(w, "  ", "b");
    TrailingSpace(w, "  ");
    assert w + " " + "b" == w + " b";
    assert w + "  " + "b" == w + "  b";
  }

  lemma LongKeys(w: string)
    requires Plain(w)
    ensures KeyWords(AsTyped, w + "  b") == [w] && KeyWords(AsTyped, w + " b") == [w, "b"]
    ensures !Fits(w + "  b") && Fits(w + " b")
  {
    LongWords(w);
    CleanOfPlain(w + "  b");
    CleanOfPlain(w + " b");
    assert Take(w + "  b", MAX_TEXT) == w + "  ";
    AsItIs(w + "  ");
    AsItIs(w + " b");
    FitsOfPlain(w + "  b");
    FitsOfPlain(w + " b");
  }

  lemma FitsOfPlain(s: string)
    requires s != "" && !IsSpace(s[0]) && !IsSpace(s[|s| - 1]) && forall c | c in s :: !IsControl(c)
    ensures Fits(s) <==> |s| <= MAX_TEXT
  {
    VisibleStays(s);
    TrimOfInked(s);
  }

  lemma LongFolded(w: string)
    requires Plain(w)
    ensures Folded([w + "  b"]) == w + "  b" && Folded([w, "b"]) == w + " b"
  {
    TrimOfInked(w + "  b");
    TrimOfInked(w);
    TrimOfInked("b");
    assert [w, "b"][1..] == ["b"] && ["b"][1..] == [] && [w + "  b"][1..] == [];
  }

  lemma LongLines(w: string)
    requires Plain(w)
    ensures WordsOf([w + "  b"]) == [w, "b"] && WordsOf([w, "b"]) == [w, "b"]
  {
    LongWords(w);
    OneWord(w);
    OneWord("b");
    VisibleStays(w + "  b");
    VisibleStays(w);
    VisibleStays("b");
    assert [w, "b"][1..] == ["b"] && ["b"][1..] == [] && [w + "  b"][1..] == [];
    assert WordsOf(["b"]) == ["b"] + WordsOf([]);
  }

  /**
   The cap is needed: with two spaces between its words the value is one character too
   long, and breaking the line there saves the last word from the cut.
   */
  lemma PastTheCapARewrapCanMatter(w: string)
    requires Plain(w)
    ensures WordsOf([w + "  b"]) == WordsOf([w, "b"])
    ensures Fits(Folded([w, "b"])) && !Fits(Folded([w + "  b"]))
    ensures KeyWords(AsTyped, Folded([w + "  b"])) != KeyWords(AsTyped, Folded([w, "b"]))
  {
    LongFolded(w);
    LongLines(w);
    LongKeys(w);
  }
}
