/**
 The start-up rewrite of links to the watched spelling of their repo: no link is lost, no
 note links one issue twice, and only a merged link changes state.
 */
module InboxSpelling {
  import opened InboxRules

  predicate Settled(spellings: Spellings) {
    forall r | r in spellings :: spellings[r] in spellings && spellings[spellings[r]] == spellings[r]
  }

  /** The links that come to stand at `t`. */
  function Sources(links: map<LinkKey, Link>, spellings: Spellings, t: LinkKey): set<LinkKey> {
    set l | l in links && Respelt(spellings, l) == t
  }

  /** Those that are there once `done` have been looked at. */
  function Arrived(links: map<LinkKey, Link>, spellings: Spellings, t: LinkKey, done: seq<LinkKey>): set<LinkKey> {
    set l | l in links && Respelt(spellings, l) == t && (l == t || l in done)
  }

  /** What stands at `t`: nothing, the one link that came, or the merger of several, open again. */
  predicate StandsFor(links: map<LinkKey, Link>, came: set<LinkKey>, after: map<LinkKey, Link>, t: LinkKey) {
    && (t in after <==> came != {})
    && (forall l | l in links && came == {l} :: t in after && after[t] == links[l])
    && (forall l, k | l in came && k in came && l != k :: t in after && after[t].open && after[t].closedAt.None?)
  }

  /** A link in another spelling stays as it was until it is looked at, and is gone after. */
  lemma {:induction false} OtherSpellings(links: map<LinkKey, Link>, spellings: Spellings, order: seq<LinkKey>, l: LinkKey)
    requires Settled(spellings) && Respelt(spellings, l) != l
    ensures l in Canonicalised(links, spellings, order) <==> l in links && l !in order
    ensures l in links && l !in order ==> Canonicalised(links, spellings, order)[l] == links[l]
  {
    if order != [] {
      var rest, last := order[..|order| - 1], order[|order| - 1];
      OtherSpellings(links, spellings, rest, l);
      assert order == rest + [last];
    }
  }

  lemma OneMoreArrives(links: map<LinkKey, Link>, spellings: Spellings, t: LinkKey, done: seq<LinkKey>, l: LinkKey)
    ensures Arrived(links, spellings, t, done + [l])
         == Arrived(links, spellings, t, done) + if l in links && Respelt(spellings, l) == t then {l} else {}
  {
  }

  lemma {:induction false} StandsAfter(links: map<LinkKey, Link>, spellings: Spellings, order: seq<LinkKey>, t: LinkKey)
    requires Settled(spellings) && Respelt(spellings, t) == t
    ensures StandsFor(links, Arrived(links, spellings, t, order), Canonicalised(links, spellings, order), t)
  {
    if order == [] {
      assert Arrived(links, spellings, t, []) == if t in links then {t} else {};
    } else {
      var rest, last := order[..|order| - 1], order[|order| - 1];
      StandsAfter(links, spellings, rest, t);
      assert order == rest + [last];
      OneMoreArrives(links, spellings, t, rest, last);
      if Respelt(spellings, last) != last {
        OtherSpellings(links, spellings, rest, last);
        OneStep(links, spellings, rest, last, t);
      } else {
        assert Canonicalised(links, spellings, order) == Canonicalised(links, spellings, rest);
        assert Arrived(links, spellings, t, order) == Arrived(links, spellings, t, rest);
      }
    }
  }

  lemma OneStep(links: map<LinkKey, Link>, spellings: Spellings, rest: seq<LinkKey>, last: LinkKey, t: LinkKey)
    requires Respelt(spellings, t) == t && Respelt(spellings, last) != last
    requires StandsFor(links, Arrived(links, spellings, t, rest), Canonicalised(links, spellings, rest), t)
    requires last in Canonicalised(links, spellings, rest) <==> last in links && last !in rest
    requires last in links && last !in rest ==> Canonicalised(links, spellings, rest)[last] == links[last]
    ensures StandsFor(links, Arrived(links, spellings, t, rest + [last]),
                      Canonical(Canonicalised(links, spellings, rest), spellings, last), t)
  {
    var before := Canonicalised(links, spellings, rest);
    var came := Arrived(links, spellings, t, rest);
    OneMoreArrives(links, spellings, t, rest, last);
    if last in before && Respelt(spellings, last) == t {
      assert last !in came;
      if came == {} {
        assert came + {last} == {last};
      } else {
        var one :| one in came;
        assert one in came + {last} && last in came + {last};
      }
    } else {
      assert Arrived(links, spellings, t, rest + [last]) == came;
    }
  }

  /**
   Once every link was looked at, no link is in another spelling, and at each watched one
   stands exactly what came to it: the one link, unchanged, or a merged one, open again.
   */
  lemma WhereLinksGo(links: map<LinkKey, Link>, spellings: Spellings, order: seq<LinkKey>, t: LinkKey)
    requires Settled(spellings) && forall l | l in links :: l in order
    ensures var after := Canonicalised(links, spellings, order);
      if Respelt(spellings, t) == t then StandsFor(links, Sources(links, spellings, t), after, t) else t !in after
  {
    if Respelt(spellings, t) == t {
      StandsAfter(links, spellings, order, t);
      assert Arrived(links, spellings, t, order) == Sources(links, spellings, t);
    } else {
      OtherSpellings(links, spellings, order, t);
    }
  }

  /** The links of a note that are all in the watched spelling stay exactly as they are, whatever the others do. */
  lemma {:induction false} WatchedLinksStay(links: map<LinkKey, Link>, spellings: Spellings, order: seq<LinkKey>, id: NoteId, l: LinkKey)
    requires l.note == id && forall k | k in links && k.note == id :: Respelt(spellings, k) == k
    ensures var after := Canonicalised(links, spellings, order);
      (l in after <==> l in links) && (l in links ==> after[l] == links[l])
  {
    if order != [] {
      var rest, last := order[..|order| - 1], order[|order| - 1];
      WatchedLinksStay(links, spellings, rest, id, l);
      if last.note == id {
        WatchedLinksStay(links, spellings, rest, id, last);
      }
    }
  }

  /** A second boot rewrites nothing. */
  lemma SpeltOnceIsSpelt(links: map<LinkKey, Link>, spellings: Spellings, order: seq<LinkKey>, again: seq<LinkKey>)
    requires Settled(spellings) && forall l | l in links :: l in order
    ensures var after := Canonicalised(links, spellings, order); Canonicalised(after, spellings, again) == after
  {
    var after := Canonicalised(links, spellings, order);
    forall l | l in after
      ensures Respelt(spellings, l) == l
    {
      WhereLinksGo(links, spellings, order, l);
    }
    NothingToRespell(after, spellings, again);
  }

  lemma {:induction false} NothingToRespell(links: map<LinkKey, Link>, spellings: Spellings, order: seq<LinkKey>)
    requires forall l | l in links :: Respelt(spellings, l) == l
    ensures Canonicalised(links, spellings, order) == links
  {
    if order != [] {
      NothingToRespell(links, spellings, order[..|order| - 1]);
    }
  }
}
