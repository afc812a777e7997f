/** The Ameriprise finder of `scrape.ts`: a search page fetched with
    retries, then one detail page per advisor, each fetched with its own
    retries and shaped into a record. */
module Ameriprise {
  import opened Basics
  import opened Seqs
  import opened Text
  import opened Records
  import opened Retry

  const Origin: string := "https://www.ameripriseadvisors.com"

  /** What the firm appends to advisor names. */
  const FirmSuffix: string := " - Ameriprise Financial Services, LLC"

  const Mailto: string := "mailto:"

  /** The `FinancialService` object of a detail page's JSON-LD. */
  datatype FinancialService = FinancialService(
    name: string,
    telephone: string,
    streetAddress: string,
    addressLocality: string,
    addressRegion: string,
    postalCode: string,
    addressCountry: string,
    url: string,
    sameAs: seq<string>)

  /** What a detail page's markup yields: its FinancialService and the
      `ul.email-phone > li > a.phone-email` anchors. */
  datatype DetailPage = DetailPage(service: FinancialService, contactAnchors: seq<Anchor>)

  /** The search page's catch block retries on every error. */
  predicate AnyError(e: ErrorKind) { true }

  /** The detail fetch's catch block retries on a TypeError only. */
  predicate IsTypeError(e: ErrorKind) { e == TypeError }

  /** The detail-page URLs: each visit button's href on the site's origin,
      in document order. */
  function AdvisorPageUrls(hrefs: seq<Option<string>>): (urls: seq<string>)
    ensures |urls| == |hrefs| && forall i :: 0 <= i < |hrefs| ==> urls[i] == Concat(Origin, hrefs[i])
  {
    seq(|hrefs|, i requires 0 <= i < |hrefs| => Concat(Origin, hrefs[i]))
  }

  /** `.filter((a): a is AdvisorInfo => !!a)`: the pages that were not
      abandoned, in order. */
  function Present(pages: seq<Option<AdvisorInfo>>): (r: seq<AdvisorInfo>)
    ensures |r| <= |pages|
    ensures forall i :: 0 <= i < |pages| && pages[i].Some? ==> pages[i].value in r
    ensures forall x :: x in r ==> Some(x) in pages
  {
    if pages == [] then []
    else
      var rest := Present(pages[1..]);
      assert forall i :: 1 <= i < |pages| ==> pages[i] == pages[1..][i - 1];
      assert forall x :: Some(x) in pages[1..] ==> Some(x) in pages;
      if pages[0].Some? then [pages[0].value] + rest else rest
  }

  /** Dropping the abandoned pages keeps, in order, the record of every
      page that was not: record i is the value of the i-th such page. */
  lemma {:induction false} PresentInOrder(pages: seq<Option<AdvisorInfo>>)
    ensures var kept := Filter(pages, (p: Option<AdvisorInfo>) => p.Some?);
            |Present(pages)| == |kept| && forall i :: 0 <= i < |kept| ==> kept[i] == Some(Present(pages)[i])
  {
    if pages != [] {
      PresentInOrder(pages[1..]);
    }
  }

  /** The email: the first contact anchor whose href is a mailto link,
      without its `mailto:`; undefined when there is none. A contact anchor
      without an href makes the filter throw. */
  function Email(anchors: seq<Anchor>): (r: Result<Option<string>>)
    ensures r.Err? <==> exists i :: 0 <= i < |anchors| && anchors[i].href.None?
    ensures r.Ok? ==> (r.value.None? <==> forall j :: 0 <= j < |anchors| ==> !HasHrefPrefix(anchors[j], Mailto))
    ensures r.Ok? && r.value.Some? ==>
              var i := FirstWithHrefPrefix(anchors, Mailto).value.value;
              anchors[i].href == Some(Mailto + r.value.value)
  {
    match FirstWithHrefPrefix(anchors, Mailto)
    case Err(e) => Err(e)
    case Ok(None) => Ok(None)
    case Ok(Some(i)) =>
      var h := anchors[i].href.value;
      assert h == Mailto + h[|Mailto|..];
      Ok(Some(h[|Mailto|..]))
  }

  /** The record built from a detail page's FinancialService and email:
      the name loses the first occurrence of the firm's suffix, the street,
      locality, region and telephone are copied unchanged, and the sites
      are some of the page URL and sameAs links, none of them empty. */
  function AmeripriseRecord(fs: FinancialService, email: Option<string>): (r: AdvisorInfo)
    ensures r.name == ReplaceFirst(fs.name, FirmSuffix, "") && |r.name| <= |fs.name|
    ensures r.email == email
    ensures r.address == Some(fs.streetAddress) && r.city == Some(fs.addressLocality)
    ensures r.state == Some(fs.addressRegion) && r.phoneNo == Some(fs.telephone)
    ensures r.sites.Some? && |r.sites.value| <= 1 + |fs.sameAs|
    ensures forall i :: 0 <= i < |r.sites.value| ==> r.sites.value[i] != "" && r.sites.value[i] in [fs.url] + fs.sameAs
  {
    AdvisorInfo(
      name := ReplaceFirst(fs.name, FirmSuffix, ""),
      email := email,
      address := Some(fs.streetAddress),
      city := Some(fs.addressLocality),
      state := Some(fs.addressRegion),
      phoneNo := Some(fs.telephone),
      sites := Some(Filter([fs.url] + fs.sameAs, (site: string) => |site| > 0)))
  }

  /** The sites are the page URL and then the sameAs links, in order, with
      the empty strings removed; when none is empty all of them are kept. */
  lemma AmeripriseSites(fs: FinancialService, email: Option<string>)
    ensures var sites := AmeripriseRecord(fs, email).sites.value;
            && (forall i :: 0 <= i < |sites| ==> sites[i] != "")
            && sites == (if fs.url == "" then [] else [fs.url]) + Filter(fs.sameAs, (site: string) => |site| > 0)
            && ((fs.url != "" && forall i :: 0 <= i < |fs.sameAs| ==> fs.sameAs[i] != "") ==> sites == [fs.url] + fs.sameAs)
  {
    var keep := (site: string) => |site| > 0;
    FilterAppend([fs.url], fs.sameAs, keep);
    assert Filter([fs.url], keep) == (if fs.url == "" then [] else [fs.url]) by {
      assert [fs.url][1..] == [];
    }
    FilterKeepsAll([fs.url] + fs.sameAs, keep);
    if fs.url != "" && forall i :: 0 <= i < |fs.sameAs| ==> fs.sameAs[i] != "" {
      assert forall i :: 0 <= i < |[fs.url] + fs.sameAs| ==> keep(([fs.url] + fs.sameAs)[i]) by {
        forall i | 0 <= i < |[fs.url] + fs.sameAs| ensures keep(([fs.url] + fs.sameAs)[i]) {
          if i > 0 {
            assert ([fs.url] + fs.sameAs)[i] == fs.sameAs[i - 1];
          }
        }
      }
    }
  }

  /** A name that carries the firm's suffix loses it, provided the part
      before it has no " -" (so the suffix cannot start earlier); hyphens
      inside the name are fine. */
  lemma AmeripriseNameSuffix(person: string, fs: FinancialService, email: Option<string>)
    requires (forall j: nat :: !OccursAt(person, " -", j)) && fs.name == person + FirmSuffix
    ensures AmeripriseRecord(fs, email).name == person
  {
    assert FirmSuffix[0] == ' ' && FirmSuffix[1] == '-';
    assert FirmSuffix[..2] == " -";
    ReplaceFirstAtEnd(person, FirmSuffix);
  }

  /** A hyphenated surname is no obstacle. */
  lemma AmeripriseHyphenatedName(fs: FinancialService, email: Option<string>)
    requires fs.name == "Ann Smith-Jones" + FirmSuffix
    ensures AmeripriseRecord(fs, email).name == "Ann Smith-Jones"
  {
    var person := "Ann Smith-Jones";
    forall j: nat ensures !OccursAt(person, " -", j) {
      if j + 2 <= |person| {
        assert person[j..j + 2][0] == person[j] && person[j..j + 2][1] == person[j + 1];
      }
    }
    AmeripriseNameSuffix(person, fs, email);
  }

  /** A name without the firm's suffix is kept as it is. */
  lemma AmeripriseNameKept(fs: FinancialService, email: Option<string>)
    requires forall j: nat :: !OccursAt(fs.name, FirmSuffix, j)
    ensures AmeripriseRecord(fs, email).name == fs.name
  {
  }

  /** `scrapeAmeripriseAdvisorsPage(url, retries)`: abandoned (undefined)
      once the retries are used up; a fetch that throws a TypeError is
      retried, any other fetch error leaves the markup empty, and empty
      markup has no JSON-LD script, so its text is "" and `JSON.parse("")`
      throws a SyntaxError; `parse` is what cheerio and JSON.parse make of
      fetched markup, and may throw. */
  function AdvisorPage(fetch: nat -> Attempt<string>, parse: string -> Result<DetailPage>, retries: nat): (r: Result<Option<AdvisorInfo>>)
    ensures r == Ok(None) <==> RetryFrom(fetch, IsTypeError, retries).Abandoned?
    ensures var o := RetryFrom(fetch, IsTypeError, retries);
            o.Settled? ==>
              if o.last.error.Some? then r == Err(SyntaxError)
              else if parse(o.last.content).Err? then r == Err(parse(o.last.content).error)
              else
                var page := parse(o.last.content).value;
                if Email(page.contactAnchors).Err? then r == Err(TypeError)
                else r == Ok(Some(AmeripriseRecord(page.service, Email(page.contactAnchors).value)))
    ensures r.Ok? && r.value.Some? ==>
              var last := RetryFrom(fetch, IsTypeError, retries).last;
              && last.error.None? && parse(last.content).Ok?
              && r.value.value.sites.Some? && forall i :: 0 <= i < |r.value.value.sites.value| ==> r.value.value.sites.value[i] != ""
  {
    match RetryFrom(fetch, IsTypeError, retries)
    case Abandoned => Ok(None)
    case Settled(_, last) =>
      if last.error.Some? then Err(SyntaxError)
      else
        match parse(last.content)
        case Err(e) => Err(e)
        case Ok(page) =>
          match Email(page.contactAnchors)
          case Err(e) => Err(e)
          case Ok(email) => Ok(Some(AmeripriseRecord(page.service, email)))
  }

  /** A page whose fetch throws a TypeError on every attempt up to the
      ceiling is abandoned: it yields undefined, not an error. */
  lemma AdvisorPageAbandoned(fetch: nat -> Attempt<string>, parse: string -> Result<DetailPage>)
    requires forall k: nat :: k <= RetryCeiling ==> fetch(k).error == Some(TypeError)
    ensures AdvisorPage(fetch, parse, 0) == Ok(None)
  {
  }

  /** Only a TypeError is retried: when the first fetch throws any other
      error, the page is read from empty markup at once, whose JSON-LD text
      "" JSON.parse rejects. */
  lemma AdvisorPageOtherError(fetch: nat -> Attempt<string>, parse: string -> Result<DetailPage>)
    requires fetch(0).error.Some? && fetch(0).error != Some(TypeError)
    ensures AdvisorPage(fetch, parse, 0) == Err(SyntaxError)
  {
    assert RetryFrom(fetch, IsTypeError, 0) == Settled(0, fetch(0));
  }

  /** `scrapeAmeripriseAdvisors(zip, browser, retries)`: `search(k)` is the
      search attempt with counter k and, when it loads, the hrefs of its
      visit buttons; `page(url)` is how that detail page's promise settles.
      Abandoning the search fulfils with no records; a rejected detail page
      rejects the whole finder. */
  function AmeripriseAdvisors(search: nat -> Attempt<seq<Option<string>>>, page: string -> Result<Option<AdvisorInfo>>, retries: nat): (r: Result<seq<AdvisorInfo>>)
    ensures r.Err? ==> var o := RetryFrom(search, AnyError, retries);
              && o.Settled?
              && var urls := AdvisorPageUrls(o.last.content);
                 exists i :: 0 <= i < |urls| && page(urls[i]) == Err(r.error)
    ensures r.Ok? && r.value != [] ==> RetryFrom(search, AnyError, retries).Settled?
  {
    match RetryFrom(search, AnyError, retries)
    case Abandoned => Ok([])
    case Settled(_, last) =>
      match MapAll(AdvisorPageUrls(last.content), page)
      case Err(e) => Err(e)
      case Ok(pages) => Ok(Present(pages))
  }

  /** When every attempt up to the ceiling throws, the search is given up
      and the finder fulfils with no records. */
  lemma AmeripriseSearchGivesUp(search: nat -> Attempt<seq<Option<string>>>, page: string -> Result<Option<AdvisorInfo>>)
    ensures (forall k: nat :: k <= RetryCeiling ==> search(k).error.Some?) ==> AmeripriseAdvisors(search, page, 0) == Ok([])
  {
  }

  /** Once the search loads, the finder's records are those of the detail
      pages that were not abandoned, in visit-button order (PresentInOrder),
      at most one per visit button. */
  lemma AmeripriseRecordsFromPages(search: nat -> Attempt<seq<Option<string>>>, page: string -> Result<Option<AdvisorInfo>>, k: nat)
    requires k <= RetryCeiling && search(k).error.None?
    requires forall j: nat :: j < k ==> search(j).error.Some?
    ensures var urls := AdvisorPageUrls(search(k).content);
            var r := AmeripriseAdvisors(search, page, 0);
            && (r.Ok? <==> forall i :: 0 <= i < |urls| ==> page(urls[i]).Ok?)
            && (r.Ok? ==> |r.value| <= |urls|
                          && forall x :: x in r.value ==> exists i :: 0 <= i < |urls| && page(urls[i]) == Ok(Some(x)))
            && (r.Ok? ==> r.value == Present(seq(|urls|, i requires 0 <= i < |urls| && page(urls[i]).Ok? => page(urls[i]).value)))
  {
    var urls := AdvisorPageUrls(search(k).content);
    assert RetryFrom(search, AnyError, 0) == Settled(k, search(k));
    var r := AmeripriseAdvisors(search, page, 0);
    if r.Ok? {
      var pages := MapAll(urls, page).value;
      assert pages == seq(|urls|, i requires 0 <= i < |urls| && page(urls[i]).Ok? => page(urls[i]).value);
      forall x | x in r.value ensures exists i :: 0 <= i < |urls| && page(urls[i]) == Ok(Some(x)) {
        assert Some(x) in pages;
        var i :| 0 <= i < |pages| && pages[i] == Some(x);
        assert page(urls[i]) == Ok(Some(x));
      }
    }
  }
}
