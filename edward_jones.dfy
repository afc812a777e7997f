/** The Edward Jones finder of `scrape.ts`: each advisor of the search
    API's JSON result becomes one record. */
module EdwardJones {
  import opened Basics
  import opened Seqs
  import opened Search
  import opened Text
  import opened Records

  const Origin: string := "https://www.edwardjones.com"

  /** One social-media object: its properties in the order `for...in`
      enumerates them. */
  type Profile = seq<(string, string)>

  /** The `socialMedia` field: the empty string, or an array of objects. */
  datatype SocialMedia = NoSocialMedia | Profiles(profiles: seq<Profile>)

  /** One element of the API result's `results` array. */
  datatype EdwardJonesAdvisor = EdwardJonesAdvisor(
    faName: string,
    address: string,
    faCity: string,
    faState: string,
    phone: string,
    faUrl: string,
    socialMedia: SocialMedia)

  /** The property values of one social-media object, in enumeration order. */
  function ProfileValues(p: Profile): (vs: seq<string>)
    ensures |vs| == |p| && forall k :: 0 <= k < |p| ==> vs[k] == p[k].1
  {
    seq(|p|, k requires 0 <= k < |p| => p[k].1)
  }

  /** The property values of each object, one block per object. */
  function ValueBlocks(ps: seq<Profile>): (blocks: seq<seq<string>>)
    ensures |blocks| == |ps| && forall i :: 0 <= i < |ps| ==> blocks[i] == ProfileValues(ps[i])
  {
    seq(|ps|, i requires 0 <= i < |ps| => ProfileValues(ps[i]))
  }

  /** Every social-media value, object by object and property by property. */
  function SocialSites(sm: SocialMedia): seq<string>
  {
    match sm
    case NoSocialMedia => []
    case Profiles(ps) => Flatten(ValueBlocks(ps))
  }

  /** The `sites` an advisor's record gets: the profile page, then every
      social-media value. */
  function SitesOf(faUrl: string, sm: SocialMedia): (sites: seq<string>)
    ensures |sites| == 1 + |SocialSites(sm)| && sites[0] == Origin + faUrl
    ensures forall i :: 1 <= i < |sites| ==> sites[i] in SocialSites(sm)
  {
    [Origin + faUrl] + SocialSites(sm)
  }

  /** The `sites` array as the map callback builds it, pushing each
      property value of each social-media object in turn. */
  method BuildSites(faUrl: string, sm: SocialMedia) returns (sites: seq<string>)
    ensures sites == SitesOf(faUrl, sm)
  {
    sites := [Origin + faUrl];
    if sm != NoSocialMedia {
      var ps := sm.profiles;
      var i := 0;
      while i < |ps|
        invariant 0 <= i <= |ps|
        invariant sites == [Origin + faUrl] + Flatten(ValueBlocks(ps[..i]))
      {
        var j := 0;
        while j < |ps[i]|
          invariant 0 <= j <= |ps[i]|
          invariant sites == [Origin + faUrl] + Flatten(ValueBlocks(ps[..i])) + ProfileValues(ps[i])[..j]
        {
          sites := sites + [ps[i][j].1];
          j := j + 1;
          assert ProfileValues(ps[i])[..j] == ProfileValues(ps[i])[..j - 1] + [ps[i][j - 1].1];
        }
        assert ProfileValues(ps[i])[..j] == ProfileValues(ps[i]);
        assert ValueBlocks(ps[..i + 1]) == ValueBlocks(ps[..i]) + [ProfileValues(ps[i])];
        FlattenSnoc(ValueBlocks(ps[..i]), ProfileValues(ps[i]));
        i := i + 1;
      }
      assert ps[..i] == ps;
    }
  }

  /** The profile page comes first and the social-media values follow in
      order; there is one site per social-media property, and with
      `socialMedia` the empty string the profile page is the only site. */
  lemma SitesShape(faUrl: string, sm: SocialMedia)
    ensures SitesOf(faUrl, sm)[0] == Origin + faUrl
    ensures SitesOf(faUrl, sm)[1..] == SocialSites(sm)
    ensures sm.NoSocialMedia? ==> SitesOf(faUrl, sm) == [Origin + faUrl]
    ensures sm.Profiles? ==> |SitesOf(faUrl, sm)| == 1 + TotalLength(ValueBlocks(sm.profiles))
  {
    if sm.Profiles? {
      FlattenLength(ValueBlocks(sm.profiles));
    }
  }

  /** Property k of social-media object i is the site that follows the
      profile page and all properties of the objects before i. */
  lemma SiteOfProperty(faUrl: string, ps: seq<Profile>, i: nat, k: nat)
    requires i < |ps| && k < |ps[i]|
    ensures var at := 1 + TotalLength(ValueBlocks(ps)[..i]) + k;
            at < |SitesOf(faUrl, Profiles(ps))| && SitesOf(faUrl, Profiles(ps))[at] == ps[i][k].1
  {
    FlattenBlock(ValueBlocks(ps), i, k);
  }

  /** The pattern `, [^,]+, \w{2} \d{5}` matches s[p..c + 10]: a comma and
      space, a run of non-commas ending at c, then ", ", two word
      characters, a space and five digits. */
  predicate CityStateZipAt(s: string, p: nat, c: nat)
  {
    && p + 2 < c && c + 10 <= |s|
    && s[p..p + 2] == ", "
    && ',' !in s[p + 2..c]
    && s[c..c + 2] == ", "
    && IsWordChar(s[c + 2]) && IsWordChar(s[c + 3])
    && s[c + 4] == ' '
    && AllDigits(s[c + 5..c + 10])
  }

  /** At a given start the run of non-commas can end in one place only. */
  lemma CityStateZipUnique(s: string, p: nat, c1: nat, c2: nat)
    requires CityStateZipAt(s, p, c1) && CityStateZipAt(s, p, c2)
    ensures c1 == c2
  {
    var a: nat := p + 2;
    if c1 < c2 {
      CommaOutside(s, a, c2, c1);
      assert false;
    } else if c2 < c1 {
      CommaOutside(s, a, c1, c2);
      assert false;
    }
  }

  lemma CommaOutside(s: string, a: nat, b: nat, k: nat)
    requires a <= k < b <= |s| && ',' !in s[a..b]
    ensures s[k] != ','
  {
    assert s[a..b][k - a] == s[k];
  }

  /** `address.replace(/, [^,]+, \w{2} \d{5}/, "")`: the first match of the
      city-state-zip pattern is cut out; without a match nothing changes. */
  function StripCityStateZip(s: string): (r: string)
    ensures (forall p: nat, c: nat :: !CityStateZipAt(s, p, c)) ==> r == s
    ensures forall p: nat, c: nat ::
              CityStateZipAt(s, p, c) && (forall q: nat, d: nat :: q < p ==> !CityStateZipAt(s, q, d))
              ==> r == s[..p] + s[c + 10..]
  {
    var ok := (p: nat, c: nat) => CityStateZipAt(s, p, c);
    assert forall p: nat, c: nat :: ok(p, c) == CityStateZipAt(s, p, c);
    match LeftmostLongestFrom(0, |s|, ok)
    case None => s
    case Some(m) =>
      assert forall p: nat, c: nat :: CityStateZipAt(s, p, c) ==> c == m.end || p != m.start by {
        forall p: nat, c: nat | CityStateZipAt(s, p, c) && p == m.start ensures c == m.end {
          CityStateZipUnique(s, p, c, m.end);
        }
      }
      s[..m.start] + s[m.end + 10..]
  }

  /** The record the map callback builds for one advisor: the name, phone,
      city and state are copied unchanged, no email is set, the sites start
      with the profile page, and the address is the API's address with its
      first city-state-zip match cut out. */
  function EdwardJonesRecord(a: EdwardJonesAdvisor): (r: AdvisorInfo)
    ensures r.name == a.faName && r.phoneNo == Some(a.phone)
    ensures r.city == Some(a.faCity) && r.state == Some(a.faState) && r.email == None
    ensures r.sites == Some(SitesOf(a.faUrl, a.socialMedia))
    ensures r.sites.Some? && |r.sites.value| >= 1 && r.sites.value[0] == Origin + a.faUrl
    ensures r.address == Some(StripCityStateZip(a.address)) && |r.address.value| <= |a.address|
  {
    SitesShape(a.faUrl, a.socialMedia);
    AdvisorInfo(
      name := a.faName,
      email := None,
      address := Some(StripCityStateZip(a.address)),
      city := Some(a.faCity),
      state := Some(a.faState),
      phoneNo := Some(a.phone),
      sites := Some(SitesOf(a.faUrl, a.socialMedia)))
  }

  /** `edResults.results.map(...)`: exactly one record per API result, in
      the order of the results. */
  function EdwardJonesRecords(results: seq<EdwardJonesAdvisor>): (r: seq<AdvisorInfo>)
    ensures |r| == |results|
    ensures forall i :: 0 <= i < |results| ==> r[i] == EdwardJonesRecord(results[i])
  {
    seq(|results|, i requires 0 <= i < |results| => EdwardJonesRecord(results[i]))
  }
}
