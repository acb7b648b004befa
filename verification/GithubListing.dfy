/**
 GitHub's paged listing of a repo's open issues, and the fetch that reads it: only a
 listing read to its end may be committed.
 */
module GithubListing {
  import opened Wrappers

  type Etag = string

  const PER_PAGE := 100
  const MAX_PAGES := 10

  /** One element of a page: a pull request, an issue, or something that is neither. */
  datatype Raw = Junk | PullRequest | Listed(number: Option<int>)
  datatype Answer = Unmodified | Refused(until: Option<int>) | Page(items: seq<Raw>, etag: Option<Etag>)

  /** How a fetch ends: only `Whole` may be committed. */
  datatype Outcome = Unchanged | Broken(until: Option<int>) | Truncated | Whole(issues: seq<Raw>, etag: Option<Etag>)

  predicate FullPage(a: Answer) { a.Page? && |a.items| >= PER_PAGE }

  ghost predicate AllFull(fetch: nat -> Answer, pages: nat) { forall q: nat | q < pages :: FullPage(fetch(q)) }

  /** Page `p`, counted from 0, is the first that is not a full page. */
  ghost predicate StopsAt(fetch: nat -> Answer, p: nat) {
    p < MAX_PAGES && !FullPage(fetch(p)) && AllFull(fetch, p)
  }

  function IssuesIn(items: seq<Raw>): seq<Raw> {
    if items == [] then []
    else IssuesIn(items[..|items| - 1]) + if items[|items| - 1].Listed? then [items[|items| - 1]] else []
  }

  function IssuesOf(a: Answer): seq<Raw> { if a.Page? then IssuesIn(a.items) else [] }

  /** The issues of the first `pages` pages, in order. */
  function Gathered(fetch: nat -> Answer, pages: nat): seq<Raw> {
    if pages == 0 then [] else Gathered(fetch, pages - 1) + IssuesOf(fetch(pages - 1))
  }

  predicate Numbered(raw: Raw) { raw.Listed? && raw.number.Some? && raw.number.value > 0 }

  function OpenNumbers(issues: seq<Raw>): set<nat> { set raw | raw in issues && Numbered(raw) :: raw.number.value }

  lemma {:induction false} ListedSurvive(items: seq<Raw>, raw: Raw)
    requires raw.Listed?
    ensures raw in IssuesIn(items) <==> raw in items
  {
    if items != [] {
      ListedSurvive(items[..|items| - 1], raw);
      assert items == items[..|items| - 1] + [items[|items| - 1]];
    }
  }

  lemma OpenNumbersAre(issues: seq<Raw>, n: nat)
    ensures n in OpenNumbers(issues) <==> n > 0 && Listed(Some(n)) in issues
  {
    if n in OpenNumbers(issues) {
      var raw :| raw in issues && Numbered(raw) && raw.number.value == n;
      assert raw == Listed(Some(n));
    }
    if n > 0 && Listed(Some(n)) in issues {
      assert Numbered(Listed(Some(n)));
    }
  }

  ghost predicate OnPage(fetch: nat -> Answer, p: nat, raw: Raw) { fetch(p).Page? && raw in fetch(p).items }

  ghost predicate OnSomePage(fetch: nat -> Answer, pages: nat, raw: Raw) {
    pages > 0 && (OnSomePage(fetch, pages - 1, raw) || OnPage(fetch, pages - 1, raw))
  }

  lemma {:induction false} SomePageIsOne(fetch: nat -> Answer, pages: nat, raw: Raw)
    ensures OnSomePage(fetch, pages, raw) <==> exists p: nat | p < pages :: OnPage(fetch, p, raw)
  {
    if pages > 0 {
      SomePageIsOne(fetch, pages - 1, raw);
    }
  }

  lemma ListedOnAPage(a: Answer, raw: Raw)
    requires raw.Listed?
    ensures raw in IssuesOf(a) <==> a.Page? && raw in a.items
  {
    if a.Page? {
      ListedSurvive(a.items, raw);
    }
  }

  lemma {:induction false} GatheredFromAPage(fetch: nat -> Answer, pages: nat, raw: Raw)
    requires raw.Listed? && raw in Gathered(fetch, pages)
    ensures OnSomePage(fetch, pages, raw)
  {
    if raw in Gathered(fetch, pages - 1) {
      GatheredFromAPage(fetch, pages - 1, raw);
    } else {
      ListedOnAPage(fetch(pages - 1), raw);
    }
  }

  lemma {:induction false} PagesAreGathered(fetch: nat -> Answer, pages: nat, raw: Raw)
    requires raw.Listed? && OnSomePage(fetch, pages, raw)
    ensures raw in Gathered(fetch, pages)
  {
    if OnSomePage(fetch, pages - 1, raw) {
      PagesAreGathered(fetch, pages - 1, raw);
    } else {
      ListedOnAPage(fetch(pages - 1), raw);
    }
  }

  /** The open set is every issue number on the pages read, and nothing else: no pull request, no junk. */
  lemma OpenSetIsTheListing(fetch: nat -> Answer, pages: nat, n: nat)
    ensures n in OpenNumbers(Gathered(fetch, pages)) <==> n > 0 && exists p: nat | p < pages :: OnPage(fetch, p, Listed(Some(n)))
  {
    OpenNumbersAre(Gathered(fetch, pages), n);
    SomePageIsOne(fetch, pages, Listed(Some(n)));
    if Listed(Some(n)) in Gathered(fetch, pages) {
      GatheredFromAPage(fetch, pages, Listed(Some(n)));
    }
    if OnSomePage(fetch, pages, Listed(Some(n))) {
      PagesAreGathered(fetch, pages, Listed(Some(n)));
    }
  }

  /** Pull requests are served by the same listing, and are no issues. */
  method KeepIssues(items: seq<Raw>) returns (kept: seq<Raw>)
    ensures kept == IssuesIn(items)
  {
    kept := [];
    for i := 0 to |items|
      invariant kept == IssuesIn(items[..i])
    {
      assert items[..i + 1][..i] == items[..i];
      if items[i].Listed? { kept := kept + [items[i]]; }
    }
    assert items[..|items|] == items;
  }

  /** What a fetch that stopped at page `p` is told. */
  ghost predicate StoppedBy(out: Outcome, fetch: nat -> Answer, p: nat) {
    match fetch(p)
    case Unmodified => out == Unchanged
    case Refused(until) => out == Broken(until)
    case Page(_, _) => fetch(0).Page? && out == Whole(Gathered(fetch, p + 1), fetch(0).etag)
  }

  /** At most one page is the first that is not full. */
  lemma StopsOnce(fetch: nat -> Answer, p: nat, q: nat)
    requires StopsAt(fetch, p) && StopsAt(fetch, q)
    ensures p == q
  {
  }

  /** What a fetch comes to: truncated when all ten pages are full, and otherwise what its first other page says. */
  ghost predicate ComesTo(fetch: nat -> Answer, out: Outcome) {
    if AllFull(fetch, MAX_PAGES) then out == Truncated else exists p: nat :: StopsAt(fetch, p) && StoppedBy(out, fetch, p)
  }

  /** That is only ever one thing. */
  lemma ComesToOneThing(fetch: nat -> Answer, out: Outcome, other: Outcome)
    requires ComesTo(fetch, out) && ComesTo(fetch, other)
    ensures out == other
  {
    if !AllFull(fetch, MAX_PAGES) {
      var p: nat :| StopsAt(fetch, p) && StoppedBy(out, fetch, p);
      var q: nat :| StopsAt(fetch, q) && StoppedBy(other, fetch, q);
      StopsOnce(fetch, p, q);
    }
  }

  /** Reads pages until a short one. A 304 or a failure at any page gives up the whole fetch. */
  method Fetch(fetch: nat -> Answer) returns (out: Outcome)
    ensures ComesTo(fetch, out)
    ensures forall other | ComesTo(fetch, other) :: other == out
  {
    out := ReadPages(fetch);
    forall other | ComesTo(fetch, other)
      ensures other == out
    {
      ComesToOneThing(fetch, out, other);
    }
  }

  method ReadPages(fetch: nat -> Answer) returns (out: Outcome)
    ensures ComesTo(fetch, out)
  {
    var issues: seq<Raw> := [];
    var newEtag: Option<Etag> := None;
    for page := 0 to MAX_PAGES
      invariant issues == Gathered(fetch, page)
      invariant AllFull(fetch, page)
      invariant page > 0 ==> fetch(0).Page? && newEtag == fetch(0).etag
    {
      var answer := fetch(page);
      assert !FullPage(answer) ==> StopsAt(fetch, page);
      if answer.Unmodified? { return Unchanged; }
      if answer.Refused? { return Broken(answer.until); }
      if page == 0 { newEtag := answer.etag; }
      var kept := KeepIssues(answer.items);
      issues := issues + kept;
      if |answer.items| < PER_PAGE {
        out := Whole(issues, newEtag);
        assert StoppedBy(out, fetch, page);
        return;
      }
    }
    return Truncated;
  }
}
