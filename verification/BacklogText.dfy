/**
 The text of a backlog entry and the key made from it, on the Mac that parses the file and
 on the server that is sent it: two derivations that must come out the same.
 */
module BacklogText {
  const MAX_TEXT := 20000

  /** What str.strip and str.split take for whitespace. */
  predicate IsSpace(c: char) {
    '\U{0009}' <= c <= '\U{000d}' || '\U{001c}' <= c <= '\U{0020}' || c == '\U{0085}' || c == '\U{00a0}' || c == '\U{1680}'
    || '\U{2000}' <= c <= '\U{200a}' || c == '\U{2028}' || c == '\U{2029}' || c == '\U{202f}' || c == '\U{205f}' || c == '\U{3000}'
  }

  /** The control characters that cleaning drops: all but tab and newline. */
  predicate IsControl(c: char) { (c < '\U{0020}' && c != '\t' && c != '\n') || c == '\U{007f}' }

  /** Lower-casing, a character at a time: it leaves whitespace alone and makes none of anything else. */
  ghost predicate Lowers(lower: char -> string) {
    && (forall c | IsSpace(c) :: lower(c) == [c])
    && (forall c | !IsSpace(c) :: exists i :: 0 <= i < |lower(c)| && !IsSpace(lower(c)[i]))
  }

  predicate AllSpace(s: string) { forall i | 0 <= i < |s| :: IsSpace(s[i]) }

  function TrimLeft(s: string): string { if s != "" && IsSpace(s[0]) then TrimLeft(s[1..]) else s }

  function TrimRight(s: string): string { if s != "" && IsSpace(s[|s| - 1]) then TrimRight(s[..|s| - 1]) else s }

  function Trim(s: string): string { TrimRight(TrimLeft(s)) }

  function Take(s: string, n: nat): string { if |s| <= n then s else s[..n] }

  function Visible(s: string): string {
    if s == "" then "" else if IsControl(s[0]) then Visible(s[1..]) else [s[0]] + Visible(s[1..])
  }

  /** Drop the control characters, strip, truncate. */
  function Clean(s: string): string { Take(Trim(Visible(s)), MAX_TEXT) }

  function Lowered(lower: char -> string, s: string): string {
    if s == "" then "" else lower(s[0]) + Lowered(lower, s[1..])
  }

  /** Where the first word of `s` ends. */
  function WordEnd(s: string): (n: nat)
    ensures n <= |s|
  {
    if s == "" || IsSpace(s[0]) then 0 else 1 + WordEnd(s[1..])
  }

  function Words(s: string): seq<string> {
    if s == "" then []
    else if IsSpace(s[0]) then Words(s[1..])
    else
      var n := WordEnd(s);
      [s[..n]] + Words(s[n..])
  }

  /** The words a key is hashed from, on either side. */
  function KeyWords(lower: char -> string, what: string): seq<string> { Words(Lowered(lower, Clean(what))) }

  function FirstLine(s: string): string { if s == "" || s[0] == '\n' then "" else [s[0]] + FirstLine(s[1..]) }

  /** The What: value and the entry's other lines, as they are posted. `rest` starts with a newline if it is there. */
  function Posted(what: string, rest: string): string { Clean(Trim(what + rest)) }

  /** The text the server stores: it cleans what it is sent once more. */
  function Received(what: string, rest: string): string { Clean(Posted(what, rest)) }

  // ---- Trimming ----

  lemma {:induction false} TrimLeftDrops(s: string)
    ensures |TrimLeft(s)| <= |s| && TrimLeft(s) == s[|s| - |TrimLeft(s)|..]
    ensures AllSpace(s[..|s| - |TrimLeft(s)|])
    ensures TrimLeft(s) != "" ==> !IsSpace(TrimLeft(s)[0])
  {
    if s != "" && IsSpace(s[0]) {
      TrimLeftDrops(s[1..]);
      assert s == [s[0]] + s[1..];
    }
  }

  lemma {:induction false} TrimRightDrops(s: string)
    ensures |TrimRight(s)| <= |s| && TrimRight(s) == s[..|TrimRight(s)|]
    ensures AllSpace(s[|TrimRight(s)|..])
    ensures TrimRight(s) != "" ==> !IsSpace(TrimRight(s)[|TrimRight(s)| - 1])
  {
    if s != "" && IsSpace(s[|s| - 1]) {
      TrimRightDrops(s[..|s| - 1]);
      assert s == s[..|s| - 1] + [s[|s| - 1]];
    }
  }

  lemma TrimOfInked(s: string)
    requires s != "" && !IsSpace(s[0])
    ensures Trim(s) == TrimRight(s) && TrimRight(s) != "" && TrimRight(s)[0] == s[0]
  {
    TrimRightDrops(s);
  }

  // ---- Words ----

  lemma {:induction false} LeadingSpace(p: string, s: string)
    requires AllSpace(p)
    ensures Words(p + s) == Words(s)
  {
    if p == "" {
      assert p + s == s;
    } else {
      assert (p + s)[1..] == p[1..] + s;
      LeadingSpace(p[1..], s);
    }
  }

  /** A word with no whitespace in it. */
  predicate IsInk(w: string) { w != "" && forall i | 0 <= i < |w| :: !IsSpace(w[i]) }

  /** What follows a word: nothing, or whitespace. */
  predicate EndsWord(rest: string) { rest != "" ==> IsSpace(rest[0]) }

  /** The first word is the text up to its first space. */
  lemma {:induction false} WordEndMeans(s: string)
    requires s != "" && !IsSpace(s[0])
    ensures WordEnd(s) > 0 && IsInk(s[..WordEnd(s)]) && EndsWord(s[WordEnd(s)..])
  {
    if |s| > 1 && !IsSpace(s[1]) {
      WordEndMeans(s[1..]);
      var n := WordEnd(s[1..]);
      assert s[..n + 1] == [s[0]] + s[1..][..n] && s[n + 1..] == s[1..][n..];
    }
  }

  lemma {:induction false} WordEndOf(w: string, rest: string)
    requires IsInk(w) && EndsWord(rest)
    ensures WordEnd(w + rest) == |w|
  {
    assert (w + rest)[1..] == w[1..] + rest;
    if |w| > 1 {
      WordEndOf(w[1..], rest);
    } else {
      assert w[1..] + rest == rest;
    }
  }

  /** A word ends where space begins. */
  lemma WordThenRest(w: string, rest: string)
    requires IsInk(w) && EndsWord(rest)
    ensures Words(w + rest) == [w] + Words(rest)
  {
    WordEndOf(w, rest);
    FirstWord(w + rest);
    assert (w + rest)[..|w|] == w && (w + rest)[|w|..] == rest;
  }

  lemma FirstWord(s: string)
    requires s != "" && !IsSpace(s[0])
    ensures WordEnd(s) > 0 && Words(s) == [s[..WordEnd(s)]] + Words(s[WordEnd(s)..])
  {
  }

  lemma OneWord(w: string)
    requires IsInk(w)
    ensures Words(w) == [w]
  {
    WordThenRest(w, "");
    assert w + "" == w;
  }

  /** Two texts that begin with one word differ in their words as their rests do. */
  lemma SameFirstWord(w: string, rest: string, more: string, t: string)
    requires IsInk(w) && EndsWord(rest) && EndsWord(more) && Words(more) == Words(rest) + Words(t)
    ensures Words(w + more) == Words(w + rest) + Words(t)
  {
    WordThenRest(w, rest);
    WordThenRest(w, more);
    Associative([w], Words(rest), Words(t));
  }

  lemma NothingBefore<T>(a: seq<T>)
    ensures [] + a == a
  {
  }

  lemma SplitBefore<T>(s: seq<T>, n: nat, x: T, t: seq<T>)
    requires n <= |s|
    ensures s == s[..n] + s[n..] && s + [x] + t == s[..n] + (s[n..] + [x] + t)
  {
  }

  lemma Associative<T>(a: seq<T>, b: seq<T>, c: seq<T>)
    ensures a + b + c == a + (b + c)
  {
  }

  lemma SpaceBefore(first: char, rest: string)
    requires IsSpace(first)
    ensures Words([first] + rest) == Words(rest)
  {
    assert ([first] + rest)[1..] == rest;
  }

  /** A space parts words. */
  lemma {:induction false} SpaceParts(s: string, sp: char, t: string)
    requires IsSpace(sp)
    ensures Words(s + [sp] + t) == Words(s) + Words(t)
    decreases |s|
  {
    if s == "" {
      SpaceBefore(sp, t);
      assert s + [sp] + t == [sp] + t;
      NothingBefore(Words(t));
    } else if IsSpace(s[0]) {
      SpaceParts(s[1..], sp, t);
      SpaceBefore(s[0], s[1..] + [sp] + t);
      assert s + [sp] + t == [s[0]] + (s[1..] + [sp] + t);
    } else {
      var w, rest := s[..WordEnd(s)], s[WordEnd(s)..];
      WordEndMeans(s);
      SpaceParts(rest, sp, t);
      SameFirstWord(w, rest, rest + [sp] + t, t);
      SplitBefore(s, WordEnd(s), sp, t);
    }
  }

  lemma TrailingSpace(s: string, q: string)
    requires AllSpace(q)
    ensures Words(s + q) == Words(s)
  {
    if q == "" {
      assert s + q == s;
    } else {
      assert s + q == s + [q[0]] + q[1..];
      SpaceParts(s, q[0], q[1..]);
      assert q[1..] + "" == q[1..];
      LeadingSpace(q[1..], "");
    }
  }

  lemma TrimLeftKeepsWords(s: string)
    ensures Words(TrimLeft(s)) == Words(s)
  {
    TrimLeftDrops(s);
    var p := s[..|s| - |TrimLeft(s)|];
    assert s == p + TrimLeft(s);
    LeadingSpace(p, TrimLeft(s));
  }

  lemma TrimRightKeepsWords(s: string)
    ensures Words(TrimRight(s)) == Words(s)
  {
    TrimRightDrops(s);
    var q := s[|TrimRight(s)|..];
    assert s == TrimRight(s) + q;
    TrailingSpace(TrimRight(s), q);
  }

  lemma TrimKeepsWords(s: string)
    ensures Words(Trim(s)) == Words(s)
  {
    TrimLeftKeepsWords(s);
    TrimRightKeepsWords(TrimLeft(s));
  }

  lemma {:induction false} LoweredConcat(lower: char -> string, a: string, b: string)
    ensures Lowered(lower, a + b) == Lowered(lower, a) + Lowered(lower, b)
  {
    if a == "" {
      assert a + b == b;
    } else {
      assert (a + b)[1..] == a[1..] + b;
      LoweredConcat(lower, a[1..], b);
    }
  }

  /** The words of the lowered words, one after another. */
  function LoweredWords(lower: char -> string, words: seq<string>): seq<string> {
    if words == [] then [] else Words(Lowered(lower, words[0])) + LoweredWords(lower, words[1..])
  }

  /** Lower-casing works word by word, so a key is fixed by the words of the cleaned text. */
  lemma {:induction false} LowerWordByWord(lower: char -> string, s: string)
    requires Lowers(lower)
    ensures Words(Lowered(lower, s)) == LoweredWords(lower, Words(s))
    decreases |s|
  {
    if s == "" {
    } else if IsSpace(s[0]) {
      LowerWordByWord(lower, s[1..]);
      LeadingSpace([s[0]], Lowered(lower, s[1..]));
    } else {
      var n := WordEnd(s);
      var w, rest := s[..n], s[n..];
      WordEndMeans(s);
      assert s == w + rest && Words(s) == [w] + Words(rest);
      LoweredConcat(lower, w, rest);
      LowerWordByWord(lower, rest);
      assert LoweredWords(lower, [w] + Words(rest)) == Words(Lowered(lower, w)) + LoweredWords(lower, Words(rest)) by {
        assert ([w] + Words(rest))[1..] == Words(rest);
      }
      if rest == "" {
        assert Lowered(lower, w) + "" == Lowered(lower, w);
      } else {
        var sp, more := rest[0], Lowered(lower, rest[1..]);
        assert Lowered(lower, rest) == [sp] + more;
        assert Lowered(lower, w) + ([sp] + more) == Lowered(lower, w) + [sp] + more;
        SpaceParts(Lowered(lower, w), sp, more);
        LeadingSpace([sp], more);
      }
    }
  }
}
