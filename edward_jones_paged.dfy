/** The older, compiled Edward Jones finder of `out/scrape.js`: it reads
    the result count off the first search page, builds one search-page URL
    per page by setting the `page` query parameter on one shared URL
    object, collects the advisor links of every search page, and returns
    no advisors. */
module EdwardJonesPaged {
  import opened Basics
  import opened Search
  import opened Seqs
  import opened Text
  import opened Records
  import opened Retry
  import EdwardJones

  const Origin := EdwardJones.Origin
  const SearchBase := "https://www.edwardjones.com/us-en/search/find-a-financial-advisor"
  const ResultsPerPage: nat := 16

  // The query of a URL as `URLSearchParams` keeps it: name/value pairs in
  // order, a name possibly repeated.

  type Params = seq<(string, string)>

  /** `params.get(name)`: the value of the first pair with that name. */
  function Lookup(ps: Params, name: string): Option<string>
  {
    if ps == [] then None else if ps[0].0 == name then Some(ps[0].1) else Lookup(ps[1..], name)
  }

  /** How many pairs carry the name. */
  function Count(ps: Params, name: string): nat
  {
    if ps == [] then 0 else (if ps[0].0 == name then 1 else 0) + Count(ps[1..], name)
  }

  /** The pairs with other names, in order. */
  function Without(ps: Params, name: string): (r: Params)
    ensures |r| <= |ps|
    ensures Count(r, name) == 0
    ensures Lookup(r, name) == None
    ensures forall other :: other != name ==> Lookup(r, other) == Lookup(ps, other)
  {
    if ps == [] then []
    else if ps[0].0 == name then Without(ps[1..], name)
    else [ps[0]] + Without(ps[1..], name)
  }

  /** `params.set(name, value)`: the first pair with that name takes the
      value and the later ones are removed; without one, the pair is
      appended. */
  function SetParam(ps: Params, name: string, value: string): (r: Params)
    ensures r != [] && |r| <= |ps| + 1
  {
    if ps == [] then [(name, value)]
    else if ps[0].0 == name then [(name, value)] + Without(ps[1..], name)
    else [ps[0]] + SetParam(ps[1..], name, value)
  }

  /** After a set the name has exactly the value set, once; every other
      name keeps its value. */
  lemma {:induction false} SetParamLookup(ps: Params, name: string, value: string)
    ensures Lookup(SetParam(ps, name, value), name) == Some(value)
    ensures Count(SetParam(ps, name, value), name) == 1
    ensures forall other :: other != name ==> Lookup(SetParam(ps, name, value), other) == Lookup(ps, other)
  {
    if ps != [] && ps[0].0 != name {
      SetParamLookup(ps[1..], name, value);
    }
  }

  /** The pairs with other names keep their order. */
  lemma {:induction false} SetParamKeepsOthers(ps: Params, name: string, value: string)
    ensures Without(SetParam(ps, name, value), name) == Without(ps, name)
  {
    if ps != [] {
      if ps[0].0 == name {
        WithoutIdempotent(ps[1..], name);
      } else {
        SetParamKeepsOthers(ps[1..], name, value);
      }
    }
  }

  lemma {:induction false} WithoutIdempotent(ps: Params, name: string)
    ensures Without(Without(ps, name), name) == Without(ps, name)
  {
    if ps != [] {
      WithoutIdempotent(ps[1..], name);
    }
  }

  /** Setting a name twice is setting it to the second value. */
  lemma {:induction false} SetParamTwice(ps: Params, name: string, a: string, b: string)
    ensures SetParam(SetParam(ps, name, a), name, b) == SetParam(ps, name, b)
  {
    if ps != [] {
      if ps[0].0 == name {
        WithoutIdempotent(ps[1..], name);
        assert SetParam(ps, name, a)[1..] == Without(ps[1..], name);
      } else {
        SetParamTwice(ps[1..], name, a, b);
        assert SetParam(ps, name, a)[1..] == SetParam(ps[1..], name, a);
      }
    }
  }

  /** The serialised query: `name=value` pairs joined with `&`. */
  function Query(ps: Params): string
  {
    Join(seq(|ps|, i requires 0 <= i < |ps| => ps[i].0 + "=" + ps[i].1), "&")
  }

  /** The URL object the finder reuses for every search page. */
  class SearchUrl {
    const base: string
    var params: Params

    constructor (base: string)
      ensures this.base == base && params == []
    {
      this.base := base;
      params := [];
    }

    /** `urlObject.searchParams.set(name, value)`. */
    method Set(name: string, value: string)
      modifies this
      ensures params == SetParam(old(params), name, value)
    {
      params := SetParam(params, name, value);
    }

    /** `urlObject.toString()`. */
    function Href(): (r: string)
      reads this
      ensures base <= r
      ensures r == base <==> params == []
    {
      if params == [] then base else base + "?" + Query(params)
    }
  }

  /** `/of (\d+) Results/` matches s[p..e + 8], with the count s[p + 3..e]. */
  predicate ResultsAt(s: string, p: nat, e: nat)
  {
    p + 3 < e && e + 8 <= |s| && s[p..p + 3] == "of " && AllDigits(s[p + 3..e]) && s[e..e + 8] == " Results"
  }

  /** The leftmost match, with its greedy digit run. */
  function MatchResults(s: string): (r: Option<Span>)
    ensures r.None? <==> forall p: nat, e: nat :: !ResultsAt(s, p, e)
    ensures r.Some? ==> ResultsAt(s, r.value.start, r.value.end)
    ensures r.Some? ==> forall p: nat, e: nat :: ResultsAt(s, p, e) ==> r.value.start <= p
  {
    var ok := (p: nat, e: nat) => ResultsAt(s, p, e);
    assert forall p: nat, e: nat :: ok(p, e) == ResultsAt(s, p, e);
    LeftmostLongestFrom(0, |s|, ok)
  }

  /** `+(text.match(/of (\d+) Results/)?.[1] ?? 0)`: the number in the
      first "of N Results", and 0 when the text has none. */
  function TotalResults(text: string): (total: nat)
    ensures MatchResults(text).None? ==> total == 0
  {
    match MatchResults(text)
    case None => 0
    case Some(m) => NumberOfDigits(text[m.start + 3..m.end])
  }

  lemma DigitInRun(s: string, a: nat, k: nat, b: nat)
    requires a <= k < b <= |s| && AllDigits(s[a..b])
    ensures IsDigit(s[k])
  {
    assert s[a..b][k - a] == s[k];
  }

  /** The digit run of a match is the whole run: a match has one end. */
  lemma ResultsEndUnique(s: string, p: nat, e1: nat, e2: nat)
    requires ResultsAt(s, p, e1) && ResultsAt(s, p, e2)
    ensures e1 == e2
  {
    if e1 < e2 {
      DigitInRun(s, p + 3, e1, e2);
      assert false;
    } else if e2 < e1 {
      DigitInRun(s, p + 3, e2, e1);
      assert false;
    }
  }

  /** In a pager text with no "of " before "of N Results", the match is
      that one: it starts there and its digit run is the numeral. */
  lemma PagerMatch(before: string, d: string, after: string)
    requires (forall j: nat :: !OccursAt(before, "of ", j)) && d != [] && AllDigits(d)
    ensures MatchResults(before + "of " + d + " Results" + after)
            == Some(Span(|before|, |before| + 3 + |d|))
  {
    var s := before + "of " + d + " Results" + after;
    var p := |before|;
    var e := p + 3 + |d|;
    assert s[p..p + 3] == "of " && s[p + 3..e] == d && s[e..e + 8] == " Results";
    assert ResultsAt(s, p, e);
    var m := MatchResults(s).value;
    assert OccursAt(s, "of ", m.start);
    assert s[..p] == before;
    forall q: nat | q < p ensures !OccursAt(s, "of ", q) {
      NoPagerStartBefore(before, s, q);
    }
    ResultsEndUnique(s, p, m.end, e);
  }

  /** An "of " cannot start inside a prefix that has none when the text
      goes on with an 'o'. */
  lemma NoPagerStartBefore(before: string, s: string, q: nat)
    requires forall j: nat :: !OccursAt(before, "of ", j)
    requires |before| < |s| && s[..|before|] == before && s[|before|] == 'o' && q < |before|
    ensures !OccursAt(s, "of ", q)
  {
    if q + 3 <= |before| {
      assert !OccursAt(before, "of ", q);
      assert s[q..q + 3] == before[q..q + 3];
    } else if q + 3 <= |s| {
      var k := |before| - q;
      assert s[q..q + 3][k] == s[q + k];
    }
  }

  /** A pager text "… of N Results …" with no "of " before it gives N. */
  lemma TotalResultsOfPager(before: string, n: nat, after: string)
    requires forall j: nat :: !OccursAt(before, "of ", j)
    ensures TotalResults(before + "of " + Decimal(n) + " Results" + after) == n
  {
    var d := Decimal(n);
    var s := before + "of " + d + " Results" + after;
    PagerMatch(before, d, after);
    assert s[|before| + 3..|before| + 3 + |d|] == d;
    DecimalRoundTrip(n);
  }

  /** `Math.ceil(total / 16) + 1`: one page per 16 results, and one more. */
  function PageCount(total: nat): (count: nat)
    ensures count >= 1
    ensures (count - 1) * ResultsPerPage >= total
    ensures count >= 2 ==> (count - 2) * ResultsPerPage < total
  {
    (total + ResultsPerPage - 1) / ResultsPerPage + 1
  }

  /** The URL of search page i: the query ps with `page=i` set. */
  function PageUrl(base: string, ps: Params, i: nat): string
  {
    base + "?" + Query(SetParam(ps, "page", Decimal(i)))
  }

  /** The `Array.from` callback, run for i = 0 .. count - 1: it sets `page`
      to i on the shared URL and snapshots the URL. Page i carries the
      original query with `page=i` set; the URL keeps the last page set. */
  method SearchPages(url: SearchUrl, count: nat) returns (pages: seq<string>)
    modifies url
    ensures |pages| == count
    ensures forall i :: 0 <= i < count ==> pages[i] == PageUrl(url.base, old(url.params), i)
    ensures url.params == if count == 0 then old(url.params) else SetParam(old(url.params), "page", Decimal(count - 1))
  {
    ghost var ps := url.params;
    pages := [];
    var i := 0;
    while i < count
      invariant 0 <= i <= count
      invariant |pages| == i
      invariant forall j :: 0 <= j < i ==> pages[j] == PageUrl(url.base, ps, j)
      invariant url.params == if i == 0 then ps else SetParam(ps, "page", Decimal(i - 1))
    {
      if i > 0 {
        SetParamTwice(ps, "page", Decimal(i - 1), Decimal(i));
      }
      url.Set("page", Decimal(i));
      assert url.params == SetParam(ps, "page", Decimal(i));
      SetParamLookup(ps, "page", Decimal(i));
      assert url.params != [];
      var href := url.Href();
      assert href == PageUrl(url.base, ps, i);
      pages := pages + [href];
      i := i + 1;
    }
  }

  /** The search pages are told apart by their `page` values, which are
      the page indexes; every other parameter is the same on all. */
  lemma SearchPagesDiffer(ps: Params, i: nat, j: nat)
    requires i != j
    ensures Lookup(SetParam(ps, "page", Decimal(i)), "page") != Lookup(SetParam(ps, "page", Decimal(j)), "page")
    ensures forall other :: other != "page" ==>
              Lookup(SetParam(ps, "page", Decimal(i)), other) == Lookup(SetParam(ps, "page", Decimal(j)), other)
  {
    SetParamLookup(ps, "page", Decimal(i));
    SetParamLookup(ps, "page", Decimal(j));
    if Decimal(i) == Decimal(j) {
      DecimalInjective(i, j);
    }
  }

  predicate IsTimeout(e: ErrorKind)
  {
    e == TimeoutError
  }

  /** `scrapeEdwardJonesSearchPage`: attempt k reads the hrefs of the
      result anchors after a navigation that may have thrown. Only a
      TimeoutError is retried; past the ceiling the page gives no links;
      otherwise the links are read off the page as it is. */
  function SearchPageLinks(attempt: nat -> Attempt<seq<Option<string>>>, retries: nat): (links: seq<string>)
    ensures RetryFrom(attempt, IsTimeout, retries).Abandoned? ==> links == []
    ensures RetryFrom(attempt, IsTimeout, retries).Settled? ==>
              var hrefs := RetryFrom(attempt, IsTimeout, retries).last.content;
              |links| == |hrefs| && forall i :: 0 <= i < |hrefs| ==> links[i] == Concat(Origin, hrefs[i])
  {
    match RetryFrom(attempt, IsTimeout, retries)
    case Abandoned => []
    case Settled(_, last) => seq(|last.content|, i requires 0 <= i < |last.content| => Concat(Origin, last.content[i]))
  }

  /** A navigation error other than a timeout is not retried: the links
      are read off the page that attempt left. */
  lemma SearchPageKeepsOtherErrors(attempt: nat -> Attempt<seq<Option<string>>>, retries: nat)
    requires retries <= RetryCeiling
    requires attempt(retries).error.Some? && attempt(retries).error.value != TimeoutError
    ensures SearchPageLinks(attempt, retries) == seq(|attempt(retries).content|,
              i requires 0 <= i < |attempt(retries).content| => Concat(Origin, attempt(retries).content[i]))
  {
  }

  /** Timeouts on every attempt up to the ceiling leave the page without links. */
  lemma SearchPageGivesUp(attempt: nat -> Attempt<seq<Option<string>>>)
    requires forall k: nat :: k <= RetryCeiling ==> attempt(k).error == Some(TimeoutError)
    ensures SearchPageLinks(attempt, 0) == []
  {
  }

  /** The query the finder builds: the zip, the search type, then the page. */
  lemma SearchQuery(zip: string)
    ensures SetParam(SetParam([], "fasearch", zip), "searchtype", "2") == [("fasearch", zip), ("searchtype", "2")]
    ensures forall v :: SetParam([("fasearch", zip), ("searchtype", "2")], "page", v)
                          == [("fasearch", zip), ("searchtype", "2"), ("page", v)]
  {
    assert "searchtype" != "fasearch" by { assert "searchtype"[0] != "fasearch"[0]; }
    assert "page" != "fasearch" by { assert "page"[0] != "fasearch"[0]; }
    assert "page" != "searchtype" by { assert "page"[0] != "searchtype"[0]; }
    forall v ensures SetParam([("fasearch", zip), ("searchtype", "2")], "page", v)
                       == [("fasearch", zip), ("searchtype", "2"), ("page", v)] {
      var ps := [("fasearch", zip), ("searchtype", "2")];
      assert ps[1..] == [("searchtype", "2")];
      assert ps[1..][1..] == [];
      assert SetParam(ps[1..][1..], "page", v) == [("page", v)];
      assert SetParam(ps[1..], "page", v) == [("searchtype", "2"), ("page", v)];
    }
  }

  /** `scrapeEdwardJones`: the search URL for the zip, the page count from
      the pager text, every search page's links, and an empty result. */
  method ScrapeEdwardJones(zip: string, pagerText: string, attemptsOf: string -> (nat -> Attempt<seq<Option<string>>>))
    returns (advisors: seq<AdvisorInfo>, searchPages: seq<string>, jobPages: seq<string>)
    ensures advisors == []
    ensures |searchPages| == PageCount(TotalResults(pagerText))
    ensures forall i :: 0 <= i < |searchPages| ==>
              searchPages[i] == SearchBase + "?" + Query([("fasearch", zip), ("searchtype", "2"), ("page", Decimal(i))])
    ensures jobPages == Flatten(seq(|searchPages|, i requires 0 <= i < |searchPages| => SearchPageLinks(attemptsOf(searchPages[i]), 0)))
  {
    var url := new SearchUrl(SearchBase);
    url.Set("fasearch", zip);
    url.Set("searchtype", "2");
    SearchQuery(zip);
    searchPages := SearchPages(url, PageCount(TotalResults(pagerText)));
    jobPages := Flatten(seq(|searchPages|, i requires 0 <= i < |searchPages| => SearchPageLinks(attemptsOf(searchPages[i]), 0)));
    advisors := [];
  }
}
