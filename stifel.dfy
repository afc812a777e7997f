/** The Stifel finder of `scrape.ts`: the search result links of every
    result page, then one record per advisor page. */
module Stifel {
  import opened Basics
  import opened Seqs
  import opened Search
  import opened Text
  import opened Records

  /** What an advisor page's markup yields: the texts of its
      `span.fa-landing-name`, `dd.fa-landing-phone-desktop` and
      `div.fa-landing-address dd` elements, in document order. */
  datatype StifelMarkup = StifelMarkup(nameTexts: seq<string>, phoneTexts: seq<string>, addressTexts: seq<string>)

  /** The advisor-page links: those of the first result page, then those
      each "next page" click adds, as the loop reassigns `advisorPages`. */
  method CollectAdvisorPages(first: seq<string>, nextBatches: seq<seq<string>>) returns (advisorPages: seq<string>)
    ensures advisorPages == Flatten([first] + nextBatches)
  {
    advisorPages := first;
    var i := 0;
    while i < |nextBatches|
      invariant 0 <= i <= |nextBatches|
      invariant advisorPages == Flatten([first] + nextBatches[..i])
    {
      advisorPages := advisorPages + nextBatches[i];
      assert [first] + nextBatches[..i + 1] == ([first] + nextBatches[..i]) + [nextBatches[i]];
      FlattenSnoc([first] + nextBatches[..i], nextBatches[i]);
      i := i + 1;
    }
    assert nextBatches[..i] == nextBatches;
  }

  /** Every link is kept, batch after batch, first page first. */
  lemma AdvisorPagesInOrder(first: seq<string>, nextBatches: seq<seq<string>>)
    ensures Flatten([first] + nextBatches) == first + Flatten(nextBatches)
    ensures |Flatten([first] + nextBatches)| == |first| + TotalLength(nextBatches)
  {
    FlattenAppend([first], nextBatches);
    assert Flatten([first]) == first + Flatten([first][1..]);
    assert [first][1..] == [];
    FlattenLength(nextBatches);
  }

  /** cheerio's `.slice(1, -2)`: all but the first and the last two. */
  function MiddleLines(xs: seq<string>): (r: seq<string>)
    ensures |xs| <= 3 ==> r == []
    ensures |xs| > 3 ==> |r| == |xs| - 3 && forall i :: 0 <= i < |r| ==> r[i] == xs[i + 1]
  {
    if |xs| <= 3 then [] else xs[1..|xs| - 2]
  }

  function TrimAll(xs: seq<string>): (r: seq<string>)
    ensures |r| == |xs| && forall i :: 0 <= i < |xs| ==> r[i] == Trim(xs[i])
  {
    seq(|xs|, i requires 0 <= i < |xs| => Trim(xs[i]))
  }

  /** `(?<city>\w+), ` matches s[p..c + 2] and a state word follows it. */
  predicate CityAt(s: string, p: nat, c: nat)
  {
    p < c && c + 3 <= |s| && AllWordChars(s[p..c]) && s[c..c + 2] == ", " && IsWordChar(s[c + 2])
  }

  /** Where the greedy `(?<state>\w+)` that starts at a ends. */
  predicate WordRun(s: string, a: nat, e: nat)
  {
    a < e <= |s| && AllWordChars(s[a..e])
  }

  /** Where `/(?<city>\w+), (?<state>\w+)/` matches: the city is s[p..c]
      and the state s[c + 2..e]. */
  datatype CityStateMatch = CityStateMatch(p: nat, c: nat, e: nat)

  /** The match a backtracking engine reports: the leftmost start, the
      greedy city run, and a state run that stops only at a non-word
      character or the end of the text. */
  function MatchCityState(s: string): (r: Option<CityStateMatch>)
    ensures r.None? <==> forall p: nat, c: nat :: !CityAt(s, p, c)
    ensures r.Some? ==> CityAt(s, r.value.p, r.value.c)
    ensures r.Some? ==> forall p: nat, c: nat :: CityAt(s, p, c) ==>
                          r.value.p < p || (r.value.p == p && c <= r.value.c)
    ensures r.Some? ==> r.value.e > r.value.c + 2 && WordRun(s, r.value.c + 2, r.value.e)
                        && (r.value.e == |s| || !IsWordChar(s[r.value.e]))
  {
    var ok := (p: nat, c: nat) => CityAt(s, p, c);
    assert forall p: nat, c: nat :: ok(p, c) == CityAt(s, p, c);
    match LeftmostLongestFrom(0, |s|, ok)
    case None => None
    case Some(m) =>
      var run := (a: nat, e: nat) => WordRun(s, a, e);
      assert WordRun(s, m.end + 2, m.end + 3) by {
        assert s[m.end + 2..m.end + 3] == [s[m.end + 2]];
      }
      assert run(m.end + 2, m.end + 3);
      var e := LongestEnd(m.end + 2, |s|, run).value;
      assert e < |s| ==> !IsWordChar(s[e]) by {
        if e < |s| {
          assert !run(m.end + 2, e + 1);
          assert s[m.end + 2..e + 1] == s[m.end + 2..e] + [s[e]];
        }
      }
      Some(CityStateMatch(m.start, m.end, e))
  }

  /** A plain "City, ST" text gives that city and that state. */
  lemma CityStateOfPlainText(city: string, state: string)
    requires city != [] && state != [] && AllWordChars(city) && AllWordChars(state)
    ensures var s := city + ", " + state;
            var m := MatchCityState(s);
            m.Some? && s[m.value.p..m.value.c] == city && s[m.value.c + 2..m.value.e] == state
  {
    var s := city + ", " + state;
    assert s[0..|city|] == city && s[|city|..|city| + 2] == ", ";
    assert s[|city| + 2] == state[0];
    assert CityAt(s, 0, |city|);
    var m := MatchCityState(s).value;
    assert m.p == 0;
    assert s[|city|] == ',';
    assert m.c == |city|;
    assert m.e == |s|;
    assert s[|city| + 2..] == state;
  }

  /** `new URL(url).origin + new URL(url).pathname`: the URL without its
      query and fragment. */
  function OriginAndPath(url: string): (r: string)
    ensures r <= url && '?' !in r && '#' !in r
    ensures r == url || url[|r|] == '?' || url[|r|] == '#'
  {
    var stop := (i: nat) => i < |url| && (url[i] == '?' || url[i] == '#');
    assert forall i: nat :: stop(i) == (i < |url| && (url[i] == '?' || url[i] == '#'));
    match FirstIndex(0, |url|, stop)
    case None => url
    case Some(i) => url[..i]
  }

  /** The text of `.get(-2)`: the second-to-last address element, or the
      empty text of an empty selection when there are fewer than two. */
  function CityStateLine(texts: seq<string>): (r: string)
    ensures |texts| >= 2 ==> r == texts[|texts| - 2]
    ensures |texts| < 2 ==> r == ""
  {
    if |texts| >= 2 then texts[|texts| - 2] else ""
  }

  /** The city and state groups of the city-state line, both undefined
      when it does not match (the empty text never does). */
  function CityStateGroups(line: string): (r: (Option<string>, Option<string>))
    ensures MatchCityState(line).None? ==> r == (None, None)
    ensures var found := MatchCityState(line);
            found.Some? ==> r == (Some(line[found.value.p..found.value.c]), Some(line[found.value.c + 2..found.value.e]))
    ensures line == "" ==> r == (None, None)
  {
    match MatchCityState(line)
    case None => (None, None)
    case Some(found) => (Some(line[found.p..found.c]), Some(line[found.c + 2..found.e]))
  }

  /** The record built from an advisor page's markup: the name is the
      concatenated name texts; the address is the middle address lines
      (all but the first and the last two), each trimmed, joined with
      ", "; the phone number is the digits of the first phone text; city
      and state are the two groups of the city-state line, set together
      and only when that line matches; and the one site is the page URL
      without query or fragment. */
  function StifelRecord(url: string, m: StifelMarkup): (r: AdvisorInfo)
    ensures r.name == Flatten(m.nameTexts)
    ensures r.address == Some(Join(TrimAll(MiddleLines(m.addressTexts)), ", "))
    ensures r.phoneNo == Some(DigitsOnly(if m.phoneTexts == [] then "" else m.phoneTexts[0]))
    ensures r.phoneNo.Some? && AllDigits(r.phoneNo.value)
    ensures (r.city, r.state) == CityStateGroups(CityStateLine(m.addressTexts))
    ensures r.city.Some? <==> r.state.Some?
    ensures |m.addressTexts| < 2 ==> r.city.None?
    ensures r.sites == Some([OriginAndPath(url)]) && OriginAndPath(url) <= url
    ensures |m.addressTexts| <= 3 ==> r.address == Some("")
    ensures r.email.None?
  {
    var groups := CityStateGroups(CityStateLine(m.addressTexts));
    AdvisorInfo(
      name := Flatten(m.nameTexts),
      email := None,
      address := Some(Join(TrimAll(MiddleLines(m.addressTexts)), ", ")),
      city := groups.0,
      state := groups.1,
      phoneNo := Some(DigitsOnly(if m.phoneTexts == [] then "" else m.phoneTexts[0])),
      sites := Some([OriginAndPath(url)]))
  }

  /** Address lines "first, middle..., City, ST, last" give the trimmed
      middle lines joined with ", " as the address and the city and state
      of the second-to-last line. */
  lemma StifelRecordOfLines(url: string, m: StifelMarkup, first: string, middle: seq<string>, city: string, state: string, last: string)
    requires m.addressTexts == [first] + middle + [city + ", " + state, last]
    requires city != [] && state != [] && AllWordChars(city) && AllWordChars(state)
    ensures var r := StifelRecord(url, m);
            && r.address == Some(Join(TrimAll(middle), ", "))
            && r.city == Some(city) && r.state == Some(state)
  {
    var xs := m.addressTexts;
    assert CityStateLine(xs) == city + ", " + state;
    CityStateOfPlainText(city, state);
    if |xs| > 3 {
      assert xs[1..|xs| - 2] == middle;
    } else {
      assert middle == [];
    }
  }

  /** `scrapeStifelPage`: the plainly fetched markup is used when it has a
      name element; otherwise the page is rendered in the browser. Either
      step may reject (a failed fetch, a timeout waiting for the name), and
      nothing catches that. */
  function StifelPage(url: string, fetched: Result<StifelMarkup>, rendered: Result<StifelMarkup>): (r: Result<AdvisorInfo>)
    ensures fetched.Err? ==> r == Err(fetched.error)
    ensures fetched.Ok? && fetched.value.nameTexts != [] ==> r == Ok(StifelRecord(url, fetched.value))
    ensures fetched.Ok? && fetched.value.nameTexts == [] ==>
              r == if rendered.Ok? then Ok(StifelRecord(url, rendered.value)) else Err(rendered.error)
  {
    match fetched
    case Err(e) => Err(e)
    case Ok(m) =>
      if |m.nameTexts| == 0 then
        match rendered
        case Err(e) => Err(e)
        case Ok(m2) => Ok(StifelRecord(url, m2))
      else Ok(StifelRecord(url, m))
  }

  /** `scrapeStifel`: every collected link's page, in link order; one
      rejected page rejects the finder. */
  function StifelAdvisors(first: seq<string>, nextBatches: seq<seq<string>>, page: string -> Result<AdvisorInfo>): (r: Result<seq<AdvisorInfo>>)
    ensures var links := Flatten([first] + nextBatches);
            && (r.Ok? <==> forall i :: 0 <= i < |links| ==> page(links[i]).Ok?)
            && (r.Ok? ==> |r.value| == |links| == |first| + TotalLength(nextBatches)
                          && forall i :: 0 <= i < |links| ==> page(links[i]) == Ok(r.value[i]))
            && (r.Err? ==> exists i :: 0 <= i < |links| && page(links[i]) == Err(r.error))
  {
    AdvisorPagesInOrder(first, nextBatches);
    MapAll(Flatten([first] + nextBatches), page)
  }
}
