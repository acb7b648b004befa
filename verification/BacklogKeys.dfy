/**
 The two keys of an entry agree: the parser's, from the What: value it folded, and the
 server's, from the first line of the text it was sent.
 */
module BacklogKeys {
  import opened BacklogText

  /** Something is left to see of the text once it is cleaned. */
  ghost predicate Inked(s: string) { exists i :: 0 <= i < |Visible(s)| && !IsSpace(Visible(s)[i]) }

  /** The rest of the entry: nothing, or lines that follow. */
  predicate IsRest(rest: string) { rest != "" ==> rest[0] == '\n' }

  predicate OneLine(s: string) { '\n' !in s }

  // ---- Cleaning twice ----

  lemma {:induction false} VisibleConcat(a: string, b: string)
    ensures Visible(a + b) == Visible(a) + Visible(b)
  {
    if a == "" {
      assert a + b == b;
    } else {
      assert (a + b)[1..] == a[1..] + b;
      VisibleConcat(a[1..], b);
    }
  }

  lemma {:induction false} VisibleHasNoControl(s: string)
    ensures forall c | c in Visible(s) :: !IsControl(c) && c in s
  {
    if s != "" {
      VisibleHasNoControl(s[1..]);
    }
  }

  lemma {:induction false} VisibleStays(s: string)
    requires forall c | c in s :: !IsControl(c)
    ensures Visible(s) == s
  {
    if s != "" {
      VisibleStays(s[1..]);
    }
  }

  lemma {:induction false} SpaceStaysSpace(p: string)
    requires AllSpace(p)
    ensures AllSpace(Visible(p))
  {
    if p != "" {
      SpaceStaysSpace(p[1..]);
    }
  }

  lemma {:induction false} TrimLeftPast(p: string, s: string)
    requires AllSpace(p)
    ensures TrimLeft(p + s) == TrimLeft(s)
  {
    if p == "" {
      assert p + s == s;
    } else {
      assert (p + s)[1..] == p[1..] + s;
      TrimLeftPast(p[1..], s);
    }
  }

  lemma {:induction false} TrimRightPast(s: string, q: string)
    requires AllSpace(q)
    ensures TrimRight(s + q) == TrimRight(s)
  {
    if q == "" {
      assert s + q == s;
    } else {
      assert (s + q)[..|s + q| - 1] == s + q[..|q| - 1];
      TrimRightPast(s, q[..|q| - 1]);
    }
  }

  lemma {:induction false} TrimLeftStops(s: string, t: string)
    requires !AllSpace(s)
    ensures TrimLeft(s + t) == TrimLeft(s) + t && TrimLeft(s) != ""
  {
    if IsSpace(s[0]) {
      assert (s + t)[1..] == s[1..] + t;
      TrimLeftStops(s[1..], t);
    }
  }

  lemma AllSpaceTrimsAway(s: string)
    requires AllSpace(s)
    ensures Trim(s) == ""
  {
    assert s + "" == s;
    TrimLeftPast(s, "");
  }

  /** Space around a text does not outlive its trimming. */
  lemma TrimAround(p: string, s: string, q: string)
    requires AllSpace(p) && AllSpace(q)
    ensures Trim(p + s + q) == Trim(s)
  {
    assert p + s + q == p + (s + q);
    TrimLeftPast(p, s + q);
    if AllSpace(s) {
      AllSpaceTrimsAway(s);
      AllSpaceTrimsAway(s + q);
    } else {
      TrimLeftStops(s, q);
      TrimRightPast(TrimLeft(s), q);
    }
  }

  lemma TrimSplits(s: string) returns (p: string, q: string)
    ensures s == p + Trim(s) + q && AllSpace(p) && AllSpace(q)
  {
    TrimLeftDrops(s);
    TrimRightDrops(TrimLeft(s));
    p, q := s[..|s| - |TrimLeft(s)|], TrimLeft(s)[|Trim(s)|..];
  }

  lemma VisibleOfThree(p: string, t: string, q: string)
    ensures Visible(p + t + q) == Visible(p) + Visible(t) + Visible(q)
  {
    VisibleConcat(p + t, q);
    VisibleConcat(p, t);
  }

  /** Stripping before the control characters are dropped changes nothing after it. */
  lemma TrimFirstOrNot(s: string)
    ensures Trim(Visible(Trim(s))) == Trim(Visible(s))
  {
    var p, q := TrimSplits(s);
    VisibleOfThree(p, Trim(s), q);
    SpaceStaysSpace(p);
    SpaceStaysSpace(q);
    TrimAround(Visible(p), Visible(Trim(s)), Visible(q));
  }

  // ---- The text the server is left with ----

  function Min(a: nat, b: nat): nat { if a < b then a else b }

  /** `t` is `z` cut somewhere within the cap, with nothing but space lost within it. */
  ghost predicate CutOf(t: string, z: string) {
    && |t| <= Min(|z|, MAX_TEXT) && t == z[..|t|]
    && AllSpace(z[|t|..Min(|z|, MAX_TEXT)])
  }

  lemma TakenAndTrimmed(z: string)
    requires z != "" && !IsSpace(z[0])
    ensures var t := TrimRight(Take(TrimRight(z), MAX_TEXT)); t != "" && t[0] == z[0] && CutOf(t, z)
  {
    TrimRightDrops(z);
    var x := TrimRight(z);
    var p := Take(x, MAX_TEXT);
    TrimRightDrops(p);
    var t := TrimRight(p);
    forall i | |t| <= i < Min(|z|, MAX_TEXT)
      ensures IsSpace(z[i])
    {
      if i < |p| {
        assert z[i] == p[|t|..][i - |t|];
      } else {
        assert z[i] == z[|x|..][i - |x|];
      }
    }
  }

  /** What is stored of an inked entry starts with its What: value, cut only within the cap or by space. */
  lemma ReceivedIsACut(what: string, rest: string)
    requires Inked(what)
    ensures Received(what, rest) != "" && CutOf(Received(what, rest), TrimLeft(Visible(what)) + Visible(rest))
  {
    var f, g := Visible(what), Visible(rest);
    var z := TrimLeft(f) + g;
    VisibleConcat(what, rest);
    TrimFirstOrNot(what + rest);
    TrimLeftStops(f, g);
    TrimLeftDrops(f);
    assert Posted(what, rest) == Take(TrimRight(z), MAX_TEXT);
    TakenAndTrimmed(z);
    TrimRightDrops(z);
    var posted := Posted(what, rest);
    PostedIsVisible(what, rest);
    VisibleStays(posted);
    TrimRightDrops(posted);
    TrimOfInked(posted);
  }

  lemma PostedIsVisible(what: string, rest: string)
    ensures forall c | c in Posted(what, rest) :: !IsControl(c)
  {
    var v := Visible(Trim(what + rest));
    VisibleHasNoControl(Trim(what + rest));
    TrimLeftDrops(v);
    TrimRightDrops(TrimLeft(v));
    forall c | c in Posted(what, rest)
      ensures c in v
    {
    }
  }

  lemma {:induction false} FirstLineStops(s: string, t: string)
    requires OneLine(s) && IsRest(t)
    ensures FirstLine(s + t) == s
  {
    if s == "" {
      assert s + t == t;
    } else {
      assert (s + t)[1..] == s[1..] + t;
      FirstLineStops(s[1..], t);
    }
  }

  /** The first line of a cut of `s + t` is a cut of `s`. */
  lemma FirstLineOfCut(s: string, t: string, cut: string)
    requires OneLine(s) && IsRest(t) && CutOf(cut, s + t)
    ensures CutOf(FirstLine(cut), s)
  {
    if |cut| <= |s| {
      assert cut == s[..|cut|] && cut + "" == cut;
      FirstLineStops(cut, "");
      forall i | |cut| <= i < Min(|s|, MAX_TEXT)
        ensures IsSpace(s[i])
      {
        assert s[i] == (s + t)[|cut|..Min(|s + t|, MAX_TEXT)][i - |cut|];
      }
    } else {
      assert cut == s + t[..|cut| - |s|];
      FirstLineStops(s, t[..|cut| - |s|]);
      assert FirstLine(cut) == s[..|s|];
    }
  }

  /** Two cuts of one text have the same words. */
  lemma CutsHaveTheSameWords(a: string, b: string, z: string)
    requires CutOf(a, z) && CutOf(b, z)
    ensures Words(a) == Words(b)
  {
    var m := Min(|z|, MAX_TEXT);
    assert z[..m] == a + z[|a|..m] && z[..m] == b + z[|b|..m];
    TrailingSpace(a, z[|a|..m]);
    TrailingSpace(b, z[|b|..m]);
  }

  // ---- The theorem ----

  /** A key is the lowered words of its cleaned text. */
  lemma KeyIsItsWords(lower: char -> string, s: string)
    requires Lowers(lower)
    ensures KeyWords(lower, s) == LoweredWords(lower, Words(Clean(s)))
  {
    LowerWordByWord(lower, Clean(s));
  }

  /** Cleaning the server's first line again takes no word from it. */
  lemma CleanKeepsWordsOfACut(b: string, z: string)
    requires CutOf(b, z) && forall c | c in b :: !IsControl(c)
    ensures Words(Clean(b)) == Words(b)
  {
    VisibleStays(b);
    TrimLeftDrops(b);
    TrimRightDrops(TrimLeft(b));
    TrimKeepsWords(b);
  }

  /** The parser's own cleaning is a cut too. */
  lemma CleanIsACut(what: string)
    requires Inked(what)
    ensures CutOf(Clean(what), TrimLeft(Visible(what)))
  {
    var z := TrimLeft(Visible(what));
    assert Visible(what) + "" == Visible(what);
    TrimLeftStops(Visible(what), "");
    TrimRightDrops(z);
    var t := TrimRight(z);
    forall i | |Clean(what)| <= i < Min(|z|, MAX_TEXT)
      ensures IsSpace(z[i])
    {
      assert z[i] == z[|t|..][i - |t|];
    }
  }

  /**
   KEY AGREEMENT. When something of the What: value outlives its cleaning, the key the
   parser sends is the key the server derives from the first line of the text it was
   sent, through stripping, control characters and both truncations.
   */
  lemma KeysAgree(lower: char -> string, what: string, rest: string)
    requires Lowers(lower) && OneLine(what) && IsRest(rest) && Inked(what)
    ensures KeyWords(lower, FirstLine(Received(what, rest))) == KeyWords(lower, what)
  {
    var z, g := TrimLeft(Visible(what)), Visible(rest);
    var first := FirstLine(Received(what, rest));
    VisibleHasNoControl(what);
    TrimLeftDrops(Visible(what));
    ReceivedIsACut(what, rest);
    FirstLineOfCut(z, g, Received(what, rest));
    forall c | c in first
      ensures !IsControl(c)
    {
      assert c in z;
    }
    CleanKeepsWordsOfACut(first, z);
    CleanIsACut(what);
    CutsHaveTheSameWords(first, Clean(what), z);
    KeyIsItsWords(lower, first);
    KeyIsItsWords(lower, what);
  }

  // ---- And only then ----

  lemma {:induction false} InkHasWords(s: string, i: nat)
    requires i < |s| && !IsSpace(s[i])
    ensures Words(s) != []
  {
    if IsSpace(s[0]) {
      InkHasWords(s[1..], i - 1);
    }
  }

  lemma {:induction false} LoweredInk(lower: char -> string, s: string)
    requires Lowers(lower) && s != "" && !IsSpace(s[0])
    ensures Words(Lowered(lower, s)) != []
  {
    var i :| 0 <= i < |lower(s[0])| && !IsSpace(lower(s[0])[i]);
    assert Lowered(lower, s)[i] == lower(s[0])[i];
    InkHasWords(Lowered(lower, s), i);
  }

  /** A text of visible characters that starts with ink has a key of its own. */
  lemma InkedTextHasAKey(lower: char -> string, b: string)
    requires Lowers(lower) && b != "" && !IsSpace(b[0]) && forall c | c in b :: !IsControl(c)
    ensures KeyWords(lower, b) != []
  {
    VisibleStays(b);
    TrimOfInked(b);
    LoweredInk(lower, Clean(b));
  }

  lemma UninkedWhatHasNoKey(lower: char -> string, what: string)
    requires !Inked(what)
    ensures KeyWords(lower, what) == []
  {
    AllSpaceTrimsAway(Visible(what));
  }

  /** With nothing left of the What: value, the first line the server sees is one of the other lines', if they have one. */
  lemma UninkedWhatIsSkipped(what: string, rest: string)
    requires !Inked(what)
    ensures Received(what, rest) == "" <==> !Inked(rest)
    ensures Inked(rest) ==> !IsSpace(Received(what, rest)[0])
  {
    var f, g := Visible(what), Visible(rest);
    VisibleConcat(what, rest);
    TrimFirstOrNot(what + rest);
    assert f + g + "" == f + g;
    TrimAround(f, g, "");
    var posted := Posted(what, rest);
    PostedIsVisible(what, rest);
    VisibleStays(posted);
    if Inked(rest) {
      assert g + "" == g;
      TrimLeftStops(g, "");
      TrimLeftDrops(g);
      TakenAndTrimmed(TrimLeft(g));
      TrimOfInked(TrimLeft(g));
      TrimOfInked(posted);
      TrimRightDrops(posted);
    } else {
      AllSpaceTrimsAway(g);
    }
  }

  /**
   EXACTLY. The server takes the entry, or skips it as blank, just when something of the
   What: value outlives its cleaning or nothing of the other lines does. Otherwise the
   keys differ, and the whole push is refused.
   */
  lemma KeysAgreeExactly(lower: char -> string, what: string, rest: string)
    requires Lowers(lower) && OneLine(what) && IsRest(rest)
    ensures Received(what, rest) == "" || KeyWords(lower, FirstLine(Received(what, rest))) == KeyWords(lower, what)
       <==> Inked(what) || !Inked(rest)
  {
    if Inked(what) {
      KeysAgree(lower, what, rest);
    } else {
      UninkedWhatIsSkipped(what, rest);
      UninkedWhatHasNoKey(lower, what);
      if Inked(rest) {
        var received := Received(what, rest);
        ReceivedIsVisible(what, rest);
        FirstLineIsPrefix(received);
        InkedTextHasAKey(lower, FirstLine(received));
      }
    }
  }

  lemma ReceivedIsVisible(what: string, rest: string)
    ensures forall c | c in Received(what, rest) :: !IsControl(c)
  {
    var v := Visible(Posted(what, rest));
    VisibleHasNoControl(Posted(what, rest));
    TrimLeftDrops(v);
    TrimRightDrops(TrimLeft(v));
    forall c | c in Received(what, rest)
      ensures c in v
    {
    }
  }

  lemma {:induction false} FirstLineIsPrefix(s: string)
    ensures |FirstLine(s)| <= |s| && FirstLine(s) == s[..|FirstLine(s)|]
    ensures s != "" && s[0] != '\n' ==> FirstLine(s) != ""
  {
    if s != "" && s[0] != '\n' {
      FirstLineIsPrefix(s[1..]);
    }
  }

  // ---- Re-wrapping ----

  /** The What: value of its lines: each stripped, the empty ones dropped, one space between. */
  function Folded(lines: seq<string>): string {
    if lines == [] then ""
    else
      var part, more := Trim(lines[0]), Folded(lines[1..]);
      if part == "" then more else if more == "" then part else part + " " + more
  }

  /** The words of the lines, wherever they break. */
  function WordsOf(lines: seq<string>): seq<string> {
    if lines == [] then [] else Words(Visible(lines[0])) + WordsOf(lines[1..])
  }

  lemma StrippingKeepsWords(line: string)
    ensures Words(Visible(Trim(line))) == Words(Visible(line))
  {
    var p, q := TrimSplits(line);
    VisibleOfThree(p, Trim(line), q);
    SpaceStaysSpace(p);
    SpaceStaysSpace(q);
    assert Visible(line) == Visible(p) + (Visible(Trim(line)) + Visible(q));
    LeadingSpace(Visible(p), Visible(Trim(line)) + Visible(q));
    TrailingSpace(Visible(Trim(line)), Visible(q));
  }

  /** Folding keeps every word, in order, and makes none. */
  lemma {:induction false} FoldingKeepsWords(lines: seq<string>)
    ensures Words(Visible(Folded(lines))) == WordsOf(lines)
  {
    if lines == [] {
    } else {
      var part, more := Trim(lines[0]), Folded(lines[1..]);
      StrippingKeepsWords(lines[0]);
      FoldingKeepsWords(lines[1..]);
      if part != "" && more != "" {
        VisibleOfThree(part, " ", more);
        VisibleStays(" ");
        SpaceParts(Visible(part), ' ', Visible(more));
      }
    }
  }
}
