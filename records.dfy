/** The record every source extractor produces (`AdvisorInfo`). */
module Records {
  import opened Basics
  import opened Search

  /** One advisor. Optional fields are `undefined` (None) when a source does
      not fill them; `sites` is None for the one source (LPL) that builds
      its records without a `sites` field at all. */
  datatype AdvisorInfo = AdvisorInfo(
    name: string,
    email: Option<string>,
    address: Option<string>,
    city: Option<string>,
    state: Option<string>,
    phoneNo: Option<string>,
    sites: Option<seq<string>>)

  /** What the scraper reads off one `<a>` element: its `href` attribute,
      which may be missing, and its text. */
  datatype Anchor = Anchor(href: Option<string>, text: string)

  /** `prefix + value` for a value that may be undefined, which JavaScript
      concatenates as the text "undefined". */
  function Concat(prefix: string, value: Option<string>): (r: string)
    ensures prefix <= r
    ensures value.Some? ==> r == prefix + value.value
    ensures value.None? ==> r == prefix + "undefined"
  {
    prefix + (if value.Some? then value.value else "undefined")
  }

  /** The anchor's href is present and starts with prefix. */
  predicate HasHrefPrefix(a: Anchor, prefix: string)
  {
    a.href.Some? && prefix <= a.href.value
  }

  /** `anchors.filter((_, el) => el.attribs["href"].startsWith(prefix)).first()`:
      the position of the first anchor whose href starts with prefix, or
      `None` for an empty selection. The filter reads the href of every
      anchor, so one missing href throws a TypeError wherever it is. */
  function FirstWithHrefPrefix(anchors: seq<Anchor>, prefix: string): (r: Result<Option<nat>>)
    ensures r.Err? <==> exists i :: 0 <= i < |anchors| && anchors[i].href.None?
    ensures r.Err? ==> r.error == TypeError
    ensures r.Ok? && r.value.Some? ==>
              && r.value.value < |anchors| && HasHrefPrefix(anchors[r.value.value], prefix)
              && forall j :: 0 <= j < r.value.value ==> !HasHrefPrefix(anchors[j], prefix)
    ensures r.Ok? && r.value.None? ==> forall j :: 0 <= j < |anchors| ==> !HasHrefPrefix(anchors[j], prefix)
  {
    var missing := (i: nat) => i < |anchors| && anchors[i].href.None?;
    assert forall i: nat :: missing(i) == (i < |anchors| && anchors[i].href.None?);
    var matching := (i: nat) => i < |anchors| && HasHrefPrefix(anchors[i], prefix);
    assert forall i: nat :: matching(i) == (i < |anchors| && HasHrefPrefix(anchors[i], prefix));
    if FirstIndex(0, |anchors|, missing).Some? then Err(TypeError)
    else Ok(FirstIndex(0, |anchors|, matching))
  }
}
