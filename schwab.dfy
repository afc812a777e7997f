/** The Schwab finder of `scrape.ts`: consultant links taken from the
    result list's `javascript:` hrefs, then one record per consultant page. */
module Schwab {
  import opened Basics
  import opened Search
  import opened Text
  import opened Records

  const ConsultantBase := "https://www.schwab.com/app/branch-services/financial-consultant/"

  /** `/\('(.+)'\)/` matches s[p..e + 2]: an opening `('`, a non-empty run
      without line terminators, and a closing `')`. */
  predicate QuotedCallAt(s: string, p: nat, e: nat)
  {
    p + 2 < e && e + 2 <= |s| && s[p..p + 2] == "('" && s[e..e + 2] == "')" && SingleLine(s[p + 2..e])
  }

  /** The first group of that match: the leftmost `('`, and the greedy run
      up to the last `')` on the same line. */
  function QuotedArgument(s: string): (r: Option<string>)
    ensures r.None? <==> forall p: nat, e: nat :: !QuotedCallAt(s, p, e)
    ensures r.Some? ==> exists p: nat, e: nat :: QuotedCallAt(s, p, e) && r.value == s[p + 2..e]
                          && forall p': nat, e': nat :: QuotedCallAt(s, p', e') ==> p < p' || (p == p' && e' <= e)
  {
    var ok := (p: nat, e: nat) => QuotedCallAt(s, p, e);
    assert forall p: nat, e: nat :: ok(p, e) == QuotedCallAt(s, p, e);
    var m := LeftmostLongestFrom(0, |s|, ok);
    if m.None? then None
    else
      var p, e := m.value.start, m.value.end;
      assert QuotedCallAt(s, p, e);
      assert forall p': nat, e': nat :: QuotedCallAt(s, p', e') ==> p < p' || (p == p' && e' <= e);
      Some(s[p + 2..e])
  }

  /** An href that is the call `f('x')` of a function f with no `(` in its
      text yields exactly its argument x, whatever quotes x holds. */
  lemma QuotedArgumentOfCall(f: string, x: string)
    requires '(' !in f && x != [] && SingleLine(x)
    ensures QuotedArgument(f + "('" + x + "')") == Some(x)
  {
    var s := f + "('" + x + "')";
    var ok := (p: nat, e: nat) => QuotedCallAt(s, p, e);
    assert forall p: nat, e: nat :: ok(p, e) == QuotedCallAt(s, p, e);
    assert s[|f|..|f| + 2] == "('" && s[|f| + 2..|f| + 2 + |x|] == x;
    assert s[|f| + 2 + |x|..|f| + 4 + |x|] == "')";
    assert QuotedCallAt(s, |f|, |f| + 2 + |x|);
    var m := LeftmostLongestFrom(0, |s|, ok).value;
    assert m.start == |f| by {
      assert s[m.start..m.start + 2][0] == '(';
      assert m.start >= |f| by {
        assert forall i :: 0 <= i < |f| ==> s[i] == f[i];
      }
    }
    assert m.end == |f| + 2 + |x|;
  }

  /** One consultant link per result anchor: the base URL followed by the
      quoted argument of the href, or by "undefined" when the href holds
      none; reading a missing href throws a TypeError. */
  function ConsultantLinks(hrefs: seq<Option<string>>): (r: Result<seq<string>>)
    ensures r.Ok? <==> forall i :: 0 <= i < |hrefs| ==> hrefs[i].Some?
    ensures r.Err? ==> r.error == TypeError
    ensures r.Ok? ==> |r.value| == |hrefs| && forall i :: 0 <= i < |hrefs| ==>
              var arg := QuotedArgument(hrefs[i].value);
              r.value[i] == ConsultantBase + (if arg.Some? then arg.value else "undefined")
  {
    var link := (h: Option<string>) =>
      match h
      case None => Err(TypeError)
      case Some(s) =>
        var arg := QuotedArgument(s);
        Ok(ConsultantBase + (if arg.Some? then arg.value else "undefined"));
    MapAllRejectsWith(hrefs, link, TypeError);
    MapAll(hrefs, link)
  }

  // The branch-information pattern
  //   <br>(address1 .+?)<br>(address2 .+?)?<br>(city .+?)<br>(state \w{2}).+?<br>\d{3}-\d{3}-\d{4}
  // described through the positions of its `<br>` tags.

  predicate BrAt(s: string, i: nat)
  {
    i + 4 <= |s| && s[i..i + 4] == "<br>"
  }

  /** `\d{3}-\d{3}-\d{4}` at i. */
  predicate PhoneAt(s: string, i: nat)
  {
    i + 12 <= |s| && AllDigits(s[i..i + 3]) && s[i + 3] == '-' && AllDigits(s[i + 4..i + 7])
    && s[i + 7] == '-' && AllDigits(s[i + 8..i + 12])
  }

  /** A non-empty `.+?` group right after the `<br>` at b, closed by the
      `<br>` at e. */
  predicate GroupAfterBr(s: string, b: nat, e: nat)
  {
    b + 4 < e && BrAt(s, e) && SingleLine(s[b + 4..e])
  }

  /** What follows the city: the `<br>` at e3, a two-character state, a
      non-empty `.+?` run, the `<br>` at e4 and the phone number. */
  predicate StateTail(s: string, e3: nat, e4: nat)
  {
    e3 + 6 < e4 && BrAt(s, e3) && BrAt(s, e4) && PhoneAt(s, e4 + 4)
    && AllWordChars(s[e3 + 4..e3 + 6]) && SingleLine(s[e3 + 6..e4])
  }

  /** The lazy `.+?` before the phone number: the least e4. */
  function Tail(s: string, e3: nat): (r: Option<nat>)
    ensures r.Some? ==> StateTail(s, e3, r.value)
    ensures r.Some? ==> forall e4: nat :: e4 < r.value ==> !StateTail(s, e3, e4)
    ensures r.None? ==> forall e4: nat :: !StateTail(s, e3, e4)
  {
    var ok := (e: nat) => StateTail(s, e3, e);
    assert forall e: nat :: ok(e) == StateTail(s, e3, e);
    FirstIndex(0, |s| + 1, ok)
  }

  /** Positions of the `<br>` tags that close address2 (when present), the
      city and the run after the state. */
  datatype RestEnds = RestEnds(end2: Option<nat>, end3: nat, end4: nat)

  /** The pattern from the `<br>` at b1 that closes address1 on. With
      address2, that group runs to the next `<br>`; without it, the two
      `<br>` tokens around the optional group meet, so a second `<br>`
      must follow right at b1 + 4 before the city starts. */
  predicate RestFits(s: string, b1: nat, x: RestEnds)
  {
    match x.end2
    case Some(e2) => GroupAfterBr(s, b1, e2) && GroupAfterBr(s, e2, x.end3) && StateTail(s, x.end3, x.end4)
    case None => BrAt(s, b1 + 4) && GroupAfterBr(s, b1 + 4, x.end3) && StateTail(s, x.end3, x.end4)
  }

  /** The order in which backtracking tries the choices: the lazy groups
      shortest first, and the optional address2 present before absent. */
  predicate CityNoLater(e3: nat, e4: nat, f3: nat, f4: nat)
  {
    e3 < f3 || (e3 == f3 && e4 <= f4)
  }

  predicate RestNoLater(x: RestEnds, y: RestEnds)
  {
    match (x.end2, y.end2)
    case (Some(a), Some(b)) => a < b || (a == b && CityNoLater(x.end3, x.end4, y.end3, y.end4))
    case (Some(_), None) => true
    case (None, Some(_)) => false
    case (None, None) => CityNoLater(x.end3, x.end4, y.end3, y.end4)
  }

  /** The lazy city group after the `<br>` at b: the least e3 that leads
      to a full match, with its least e4. */
  function City(s: string, b: nat): (r: Option<(nat, nat)>)
    ensures r.Some? ==> GroupAfterBr(s, b, r.value.0) && StateTail(s, r.value.0, r.value.1)
    ensures r.Some? ==> forall e3: nat, e4: nat :: GroupAfterBr(s, b, e3) && StateTail(s, e3, e4) ==>
                          CityNoLater(r.value.0, r.value.1, e3, e4)
    ensures r.None? ==> forall e3: nat, e4: nat :: !(GroupAfterBr(s, b, e3) && StateTail(s, e3, e4))
  {
    var ok := (e: nat) => GroupAfterBr(s, b, e) && Tail(s, e).Some?;
    assert forall e: nat :: ok(e) == (GroupAfterBr(s, b, e) && Tail(s, e).Some?);
    match FirstIndex(0, |s| + 1, ok)
    case None => None
    case Some(e3) => Some((e3, Tail(s, e3).value))
  }

  /** Address2 present with its least end that leads to a full match, and
      otherwise address2 absent, which needs `<br><br>` after address1. */
  function Rest(s: string, b1: nat): (r: Option<RestEnds>)
    ensures r.Some? ==> RestFits(s, b1, r.value)
    ensures r.Some? ==> forall y: RestEnds :: RestFits(s, b1, y) ==> RestNoLater(r.value, y)
    ensures r.None? ==> forall y: RestEnds :: !RestFits(s, b1, y)
  {
    var ok := (e: nat) => GroupAfterBr(s, b1, e) && City(s, e).Some?;
    assert forall e: nat :: ok(e) == (GroupAfterBr(s, b1, e) && City(s, e).Some?);
    match FirstIndex(0, |s| + 1, ok)
    case Some(e2) =>
      var c := City(s, e2).value;
      Some(RestEnds(Some(e2), c.0, c.1))
    case None =>
      if !BrAt(s, b1 + 4) then None
      else
        match City(s, b1 + 4)
        case None => None
        case Some(c) => Some(RestEnds(None, c.0, c.1))
  }

  /** A whole match: the opening `<br>` at start, address1 closed at end1,
      and the rest. */
  datatype BranchMatch = BranchMatch(start: nat, end1: nat, rest: RestEnds)

  predicate IsBranchMatch(s: string, m: BranchMatch)
  {
    BrAt(s, m.start) && GroupAfterBr(s, m.start, m.end1) && RestFits(s, m.end1, m.rest)
  }

  predicate NoLater(m: BranchMatch, n: BranchMatch)
  {
    m.start < n.start || (m.start == n.start && (m.end1 < n.end1 || (m.end1 == n.end1 && RestNoLater(m.rest, n.rest))))
  }

  /** The lazy address1 group after the `<br>` at p. */
  function Address1(s: string, p: nat): (r: Option<(nat, RestEnds)>)
    ensures r.Some? ==> GroupAfterBr(s, p, r.value.0) && RestFits(s, r.value.0, r.value.1)
    ensures r.Some? ==> forall e1: nat, y: RestEnds :: GroupAfterBr(s, p, e1) && RestFits(s, e1, y) ==>
                          r.value.0 < e1 || (r.value.0 == e1 && RestNoLater(r.value.1, y))
    ensures r.None? ==> forall e1: nat, y: RestEnds :: !(GroupAfterBr(s, p, e1) && RestFits(s, e1, y))
  {
    var ok := (e: nat) => GroupAfterBr(s, p, e) && Rest(s, e).Some?;
    assert forall e: nat :: ok(e) == (GroupAfterBr(s, p, e) && Rest(s, e).Some?);
    match FirstIndex(0, |s| + 1, ok)
    case None => None
    case Some(e1) => Some((e1, Rest(s, e1).value))
  }

  /** The match `String.prototype.match` reports: the first one the
      backtracking search reaches. */
  function MatchBranch(s: string): (r: Option<BranchMatch>)
    ensures r.Some? ==> IsBranchMatch(s, r.value)
    ensures r.Some? ==> forall n: BranchMatch :: IsBranchMatch(s, n) ==> NoLater(r.value, n)
    ensures r.None? ==> forall n: BranchMatch :: !IsBranchMatch(s, n)
  {
    var ok := (p: nat) => BrAt(s, p) && Address1(s, p).Some?;
    assert forall p: nat :: ok(p) == (BrAt(s, p) && Address1(s, p).Some?);
    match FirstIndex(0, |s| + 1, ok)
    case None => None
    case Some(p) =>
      var a := Address1(s, p).value;
      Some(BranchMatch(p, a.0, a.1))
  }

  /** The named groups of a branch match. */
  datatype BranchGroups = BranchGroups(address1: string, address2: Option<string>, city: string, state: string)

  function Groups(s: string, m: BranchMatch): (g: BranchGroups)
    requires IsBranchMatch(s, m)
    ensures g.address1 != [] && SingleLine(g.address1)
    ensures g.address2.Some? ==> g.address2.value != [] && SingleLine(g.address2.value)
    ensures g.address2.Some? <==> m.rest.end2.Some?
    ensures |g.state| == 2 && AllWordChars(g.state)
  {
    var cityStart := if m.rest.end2.Some? then m.rest.end2.value + 4 else m.end1 + 8;
    BranchGroups(
      s[m.start + 4..m.end1],
      if m.rest.end2.Some? then Some(s[m.end1 + 4..m.rest.end2.value]) else None,
      s[cityStart..m.rest.end3],
      s[m.rest.end3 + 4..m.rest.end3 + 6])
  }

  /** The named groups of the branch paragraph's match, or `undefined` when
      there is no paragraph or it does not match. */
  function BranchGroupsOf(html: Option<string>): (g: Option<BranchGroups>)
    ensures g.Some? <==> html.Some? && MatchBranch(html.value).Some?
    ensures g.Some? ==> |g.value.state| == 2 && g.value.address1 != []
  {
    if html.None? then None
    else
      var m := MatchBranch(html.value);
      if m.Some? then Some(Groups(html.value, m.value)) else None
  }

  /** `[address1, address2].filter(part => !!part).join(", ")`. */
  function BranchAddress(g: Option<BranchGroups>): (r: string)
    ensures g.None? ==> r == ""
    ensures g.Some? && g.value.address1 != [] ==> r != []
    ensures g.Some? && g.value.address1 != [] && g.value.address2.None? ==> r == g.value.address1
    ensures g.Some? && g.value.address1 != [] && g.value.address2.Some? && g.value.address2.value != [] ==>
              r == g.value.address1 + ", " + g.value.address2.value
  {
    match g
    case None => ""
    case Some(b) =>
      if b.address2.Some? && b.address2.value != "" then
        (if b.address1 != "" then b.address1 + ", " + b.address2.value else b.address2.value)
      else b.address1
  }

  /** The phone text with its first "+1" removed, every '-' removed, and
      the result trimmed. */
  function SchwabPhone(text: string): (r: string)
    ensures r == Trim(RemoveAll(ReplaceFirst(text, "+1", ""), '-'))
    ensures '-' !in r
    ensures r == [] || (!IsSpace(r[0]) && !IsSpace(r[|r| - 1]))
  {
    var digits := RemoveAll(ReplaceFirst(text, "+1", ""), '-');
    TrimWithout(digits, '-');
    Trim(digits)
  }

  /** A number shown as "+1 aaa-bbb-cccc" comes out as its bare digits. */
  lemma SchwabPhoneOfNumber(a: string, b: string, c: string)
    requires AllDigits(a) && AllDigits(b) && AllDigits(c)
    ensures SchwabPhone("+1 " + a + "-" + b + "-" + c) == a + b + c
  {
    PlusOneDropped(a, b, c);
    DashesDropped(a, b, c);
    DigitsAfterSpaceTrimmed(a + b + c);
  }

  /** The leading "+1" is the occurrence removed. */
  lemma PlusOneDropped(a: string, b: string, c: string)
    ensures ReplaceFirst("+1 " + a + "-" + b + "-" + c, "+1", "") == " " + a + "-" + b + "-" + c
  {
    var rest := " " + a + "-" + b + "-" + c;
    assert "+1 " + a + "-" + b + "-" + c == "+1" + rest;
    ReplaceFirstAtStart("+1", rest, "");
    assert "" + rest == rest;
  }

  lemma DashesDropped(a: string, b: string, c: string)
    requires AllDigits(a) && AllDigits(b) && AllDigits(c)
    ensures RemoveAll(" " + a + "-" + b + "-" + c, '-') == " " + (a + b + c)
  {
    var x1 := " " + a;
    var x2 := x1 + "-";
    var x3 := x2 + b;
    var x4 := x3 + "-";
    assert RemoveAll(x1, '-') == x1 by {
      assert '-' !in x1;
    }
    assert RemoveAll(x2, '-') == x1 by {
      RemoveAllAppend(x1, "-", '-');
    }
    assert RemoveAll(x3, '-') == x1 + b by {
      assert '-' !in b;
      RemoveAllAppend(x2, b, '-');
    }
    assert RemoveAll(x4, '-') == x1 + b by {
      RemoveAllAppend(x3, "-", '-');
    }
    assert RemoveAll(x4 + c, '-') == x1 + b + c by {
      assert '-' !in c;
      RemoveAllAppend(x4, c, '-');
    }
    assert x1 + b + c == " " + (a + b + c);
  }

  /** Without a "+1" the text only loses its '-' characters and its outer
      white space. */
  lemma SchwabPhoneWithoutPrefix(text: string)
    requires forall j: nat :: !OccursAt(text, "+1", j)
    ensures SchwabPhone(text) == Trim(RemoveAll(text, '-'))
  {
  }

  /** What a consultant page yields: the `h1` text, the texts of the
      `a.phone-number` anchors and the inner HTML of the branch paragraph,
      which is missing when the page has none. */
  datatype ConsultantPage = ConsultantPage(heading: string, phoneTexts: seq<string>, branchHtml: Option<string>)

  /** A branch paragraph without a suite line written with a single `<br>`
      after address1: four tags in all. */
  function FourBrParagraph(a1: string, city: string, tail: string, phone: string): string
  {
    "<br>" + a1 + "<br>" + city + "<br>" + tail + "<br>" + phone
  }

  /** With no '<' inside the parts, the paragraph's `<br>` tags are the
      four it is built with. */
  lemma FourBrTags(a1: string, city: string, tail: string, phone: string, i: nat)
    requires '<' !in a1 && '<' !in city && '<' !in tail && '<' !in phone
    requires BrAt(FourBrParagraph(a1, city, tail, phone), i)
    ensures var p1 := 4 + |a1|; var p2 := p1 + 4 + |city|;
            i == 0 || i == p1 || i == p2 || i == p2 + 4 + |tail|
  {
    var s := FourBrParagraph(a1, city, tail, phone);
    assert s[i..i + 4][0] == s[i];
  }

  /** Four `<br>` tags are one too few: with address2 the pattern needs
      five, and without it `<br><br>` after address1 and five again, so
      the paragraph does not match. */
  lemma FourBrParagraphUnmatched(a1: string, city: string, tail: string, phone: string)
    requires '<' !in a1 && '<' !in city && '<' !in tail && '<' !in phone
    ensures MatchBranch(FourBrParagraph(a1, city, tail, phone)).None?
  {
    var s := FourBrParagraph(a1, city, tail, phone);
    forall n: BranchMatch ensures !IsBranchMatch(s, n) {
      if BrAt(s, n.start) && GroupAfterBr(s, n.start, n.end1) {
        FourBrTags(a1, city, tail, phone, n.start);
        FourBrTags(a1, city, tail, phone, n.end1);
        if BrAt(s, n.rest.end3) && BrAt(s, n.rest.end4) {
          FourBrTags(a1, city, tail, phone, n.rest.end3);
          FourBrTags(a1, city, tail, phone, n.rest.end4);
          if n.rest.end2.Some? && BrAt(s, n.rest.end2.value) {
            FourBrTags(a1, city, tail, phone, n.rest.end2.value);
          }
          if BrAt(s, n.end1 + 4) {
            FourBrTags(a1, city, tail, phone, n.end1 + 4);
          }
        }
      }
    }
  }

  lemma BrFromChars(s: string, i: nat)
    requires i + 4 <= |s| && s[i] == '<' && s[i + 1] == 'b' && s[i + 2] == 'r' && s[i + 3] == '>'
    ensures BrAt(s, i)
  {
    assert s[i..i + 4] == [s[i], s[i + 1], s[i + 2], s[i + 3]];
  }

  /** A branch paragraph without a suite line: address1, then `<br><br>`,
      the city, the state line and the phone number. */
  function NoSuiteParagraph(a1: string, city: string, tail: string, phone: string): string
  {
    "<br>" + a1 + "<br><br>" + city + "<br>" + tail + "<br>" + phone
  }

  /** With no '<' inside the parts, the paragraph's `<br>` tags are the
      five it is built with. */
  lemma NoSuiteTags(a1: string, city: string, tail: string, phone: string, i: nat)
    requires '<' !in a1 && '<' !in city && '<' !in tail && '<' !in phone
    requires BrAt(NoSuiteParagraph(a1, city, tail, phone), i)
    ensures var p1 := 4 + |a1|; var p3 := p1 + 8 + |city|;
            i == 0 || i == p1 || i == p1 + 4 || i == p3 || i == p3 + 4 + |tail|
  {
    var s := NoSuiteParagraph(a1, city, tail, phone);
    assert s[i..i + 4][0] == s[i];
  }

  lemma NoSuiteBrs(a1: string, city: string, tail: string, phone: string)
    ensures var s := NoSuiteParagraph(a1, city, tail, phone);
            var p1 := 4 + |a1|; var p3 := p1 + 8 + |city|;
            BrAt(s, 0) && BrAt(s, p1) && BrAt(s, p1 + 4) && BrAt(s, p3) && BrAt(s, p3 + 4 + |tail|)
  {
  }

  lemma NoSuiteRuns(a1: string, city: string, tail: string, phone: string)
    ensures var s := NoSuiteParagraph(a1, city, tail, phone);
            var p1 := 4 + |a1|; var p3 := p1 + 8 + |city|; var p4 := p3 + 4 + |tail|;
            p4 + 4 <= |s| && s[4..p1] == a1 && s[p1 + 8..p3] == city && s[p3 + 4..p4] == tail && s[p4 + 4..] == phone
  {
  }

  lemma PhoneAtAfter(x: string, y: string)
    requires PhoneAt(y, 0)
    ensures PhoneAt(x + y, |x|)
  {
    var s := x + y;
    var i := |x|;
    assert s[i..i + 3] == y[0..3] && s[i + 4..i + 7] == y[4..7] && s[i + 8..i + 12] == y[8..12];
  }

  /** The pattern matches without address2 when s is `<br>`, address1,
      `<br><br>`, the city, `<br>`, the state line, `<br>` and a phone
      number. */
  lemma MatchWithoutAddress2(s: string, a1: string, city: string, tail: string, phone: string)
    requires a1 != [] && SingleLine(a1) && city != [] && SingleLine(city)
    requires |tail| > 2 && AllWordChars(tail[..2]) && SingleLine(tail[2..]) && PhoneAt(phone, 0)
    requires var p1 := 4 + |a1|; var p3 := p1 + 8 + |city|; var p4 := p3 + 4 + |tail|;
             && BrAt(s, 0) && BrAt(s, p1) && BrAt(s, p1 + 4) && BrAt(s, p3) && BrAt(s, p4)
             && p4 + 4 <= |s| && s[4..p1] == a1 && s[p1 + 8..p3] == city && s[p3 + 4..p4] == tail && s[p4 + 4..] == phone
    ensures var p1 := 4 + |a1|; var p3 := p1 + 8 + |city|;
            IsBranchMatch(s, BranchMatch(0, p1, RestEnds(None, p3, p3 + 4 + |tail|)))
  {
    var p1 := 4 + |a1|;
    var p3 := p1 + 8 + |city|;
    var p4 := p3 + 4 + |tail|;
    assert GroupAfterBr(s, 0, p1);
    assert GroupAfterBr(s, p1 + 4, p3);
    assert PhoneAt(s, p4 + 4) by {
      assert s == s[..p4 + 4] + phone;
      PhoneAtAfter(s[..p4 + 4], phone);
    }
    assert StateTail(s, p3, p4) by {
      assert s[p3 + 4..p3 + 6] == tail[..2] && s[p3 + 6..p4] == tail[2..];
    }
    assert RestFits(s, p1, RestEnds(None, p3, p4));
  }

  lemma NoSuiteMatches(a1: string, city: string, tail: string, phone: string)
    requires a1 != [] && SingleLine(a1) && city != [] && SingleLine(city)
    requires |tail| > 2 && AllWordChars(tail[..2]) && SingleLine(tail[2..]) && PhoneAt(phone, 0)
    ensures var p1 := 4 + |a1|; var p3 := p1 + 8 + |city|;
            IsBranchMatch(NoSuiteParagraph(a1, city, tail, phone), BranchMatch(0, p1, RestEnds(None, p3, p3 + 4 + |tail|)))
  {
    NoSuiteBrs(a1, city, tail, phone);
    NoSuiteRuns(a1, city, tail, phone);
    MatchWithoutAddress2(NoSuiteParagraph(a1, city, tail, phone), a1, city, tail, phone);
  }

  /** The first match of the paragraph without a suite line. */
  lemma NoSuiteFirstMatch(a1: string, city: string, tail: string, phone: string)
    requires a1 != [] && SingleLine(a1) && '<' !in a1
    requires city != [] && SingleLine(city) && '<' !in city
    requires |tail| > 2 && AllWordChars(tail[..2]) && SingleLine(tail[2..]) && '<' !in tail
    requires PhoneAt(phone, 0) && '<' !in phone
    ensures var p1 := 4 + |a1|; var p3 := p1 + 8 + |city|;
            MatchBranch(NoSuiteParagraph(a1, city, tail, phone)) == Some(BranchMatch(0, p1, RestEnds(None, p3, p3 + 4 + |tail|)))
  {
    var s := NoSuiteParagraph(a1, city, tail, phone);
    var p1 := 4 + |a1|;
    var p3 := p1 + 8 + |city|;
    var cand := BranchMatch(0, p1, RestEnds(None, p3, p3 + 4 + |tail|));
    NoSuiteMatches(a1, city, tail, phone);
    var m := MatchBranch(s).value;
    assert IsBranchMatch(s, m) && NoLater(m, cand);
    NoSuiteTags(a1, city, tail, phone, m.start);
    NoSuiteTags(a1, city, tail, phone, m.end1);
    NoSuiteTags(a1, city, tail, phone, m.rest.end3);
    NoSuiteTags(a1, city, tail, phone, m.rest.end4);
    if m.rest.end2.Some? {
      NoSuiteTags(a1, city, tail, phone, m.rest.end2.value);
    }
  }

  /** Without a suite line the `<br><br>` after address1 lets the pattern
      skip address2: the groups are address1, no address2, the city and
      the state. */
  lemma NoSuiteParagraphGroups(a1: string, city: string, tail: string, phone: string)
    requires a1 != [] && SingleLine(a1) && '<' !in a1
    requires city != [] && SingleLine(city) && '<' !in city
    requires |tail| > 2 && AllWordChars(tail[..2]) && SingleLine(tail[2..]) && '<' !in tail
    requires PhoneAt(phone, 0) && '<' !in phone
    ensures BranchGroupsOf(Some(NoSuiteParagraph(a1, city, tail, phone)))
            == Some(BranchGroups(a1, None, city, tail[..2]))
  {
    var s := NoSuiteParagraph(a1, city, tail, phone);
    var p1 := 4 + |a1|;
    var p3 := p1 + 8 + |city|;
    NoSuiteFirstMatch(a1, city, tail, phone);
    NoSuiteRuns(a1, city, tail, phone);
    assert s[p3 + 4..p3 + 6] == tail[..2];
  }

  /** The paragraph "<br>A<br><br>C<br>ST.<br>123-456-7890" gives the city "C". */
  lemma NoSuiteExample()
    ensures BranchGroupsOf(Some(NoSuiteParagraph("A", "C", "ST.", "123-456-7890")))
            == Some(BranchGroups("A", None, "C", "ST"))
  {
    var phone := "123-456-7890";
    assert phone[0..3] == "123" && phone[4..7] == "456" && phone[8..12] == "7890";
    NoSuiteParagraphGroups("A", "C", "ST.", phone);
    assert "ST."[..2] == "ST";
  }

  /** A consultant page whose branch paragraph has four `<br>` tags gets
      no city and no state, and an empty address. */
  lemma FourBrRecord(url: string, page: ConsultantPage, a1: string, city: string, tail: string, phone: string)
    requires '<' !in a1 && '<' !in city && '<' !in tail && '<' !in phone
    requires page.branchHtml == Some(FourBrParagraph(a1, city, tail, phone))
    ensures var r := SchwabRecord(url, page);
            r.city.None? && r.state.None? && r.address == Some("")
  {
    FourBrParagraphUnmatched(a1, city, tail, phone);
  }

  /** A consultant page whose branch paragraph has no suite line gets
      address1 as its address, with the city and state of the paragraph. */
  lemma NoSuiteRecord(url: string, page: ConsultantPage, a1: string, city: string, tail: string, phone: string)
    requires a1 != [] && SingleLine(a1) && '<' !in a1
    requires city != [] && SingleLine(city) && '<' !in city
    requires |tail| > 2 && AllWordChars(tail[..2]) && SingleLine(tail[2..]) && '<' !in tail
    requires PhoneAt(phone, 0) && '<' !in phone
    requires page.branchHtml == Some(NoSuiteParagraph(a1, city, tail, phone))
    ensures var r := SchwabRecord(url, page);
            r.address == Some(a1) && r.city == Some(city) && r.state == Some(tail[..2])
  {
    NoSuiteParagraphGroups(a1, city, tail, phone);
  }

  /** A branch paragraph with a suite line: address1, address2, the city,
      the state line and the phone number, each after its own `<br>`. */
  function SuiteParagraph(a1: string, a2: string, city: string, tail: string, phone: string): string
  {
    "<br>" + a1 + "<br>" + a2 + "<br>" + city + "<br>" + tail + "<br>" + phone
  }

  /** With no '<' inside the parts, the paragraph's `<br>` tags are the
      five it is built with. */
  lemma SuiteTags(a1: string, a2: string, city: string, tail: string, phone: string, i: nat)
    requires '<' !in a1 && '<' !in a2 && '<' !in city && '<' !in tail && '<' !in phone
    requires BrAt(SuiteParagraph(a1, a2, city, tail, phone), i)
    ensures var p1 := 4 + |a1|; var p2 := p1 + 4 + |a2|; var p3 := p2 + 4 + |city|;
            i == 0 || i == p1 || i == p2 || i == p3 || i == p3 + 4 + |tail|
  {
    var s := SuiteParagraph(a1, a2, city, tail, phone);
    assert s[i..i + 4][0] == s[i];
  }

  lemma SuiteBrs(a1: string, a2: string, city: string, tail: string, phone: string)
    ensures var s := SuiteParagraph(a1, a2, city, tail, phone);
            var p1 := 4 + |a1|; var p2 := p1 + 4 + |a2|; var p3 := p2 + 4 + |city|;
            BrAt(s, 0) && BrAt(s, p1) && BrAt(s, p2) && BrAt(s, p3) && BrAt(s, p3 + 4 + |tail|)
  {
  }

  lemma SuiteRuns(a1: string, a2: string, city: string, tail: string, phone: string)
    ensures var s := SuiteParagraph(a1, a2, city, tail, phone);
            var p1 := 4 + |a1|; var p2 := p1 + 4 + |a2|; var p3 := p2 + 4 + |city|; var p4 := p3 + 4 + |tail|;
            && p4 + 4 <= |s| && s[4..p1] == a1 && s[p1 + 4..p2] == a2 && s[p2 + 4..p3] == city
            && s[p3 + 4..p4] == tail && s[p4 + 4..] == phone
  {
  }

  /** The pattern matches with address2 when s is `<br>`, address1,
      `<br>`, address2, `<br>`, the city, `<br>`, the state line, `<br>`
      and a phone number. */
  lemma MatchWithAddress2(s: string, a1: string, a2: string, city: string, tail: string, phone: string)
    requires a1 != [] && SingleLine(a1) && a2 != [] && SingleLine(a2) && city != [] && SingleLine(city)
    requires |tail| > 2 && AllWordChars(tail[..2]) && SingleLine(tail[2..]) && PhoneAt(phone, 0)
    requires var p1 := 4 + |a1|; var p2 := p1 + 4 + |a2|; var p3 := p2 + 4 + |city|; var p4 := p3 + 4 + |tail|;
             && BrAt(s, 0) && BrAt(s, p1) && BrAt(s, p2) && BrAt(s, p3) && BrAt(s, p4)
             && p4 + 4 <= |s| && s[4..p1] == a1 && s[p1 + 4..p2] == a2 && s[p2 + 4..p3] == city
             && s[p3 + 4..p4] == tail && s[p4 + 4..] == phone
    ensures var p1 := 4 + |a1|; var p2 := p1 + 4 + |a2|; var p3 := p2 + 4 + |city|;
            IsBranchMatch(s, BranchMatch(0, p1, RestEnds(Some(p2), p3, p3 + 4 + |tail|)))
  {
    var p1 := 4 + |a1|;
    var p2 := p1 + 4 + |a2|;
    var p3 := p2 + 4 + |city|;
    var p4 := p3 + 4 + |tail|;
    assert StateTail(s, p3, p4) by {
      assert PhoneAt(s, p4 + 4) by {
        assert s == s[..p4 + 4] + phone;
        PhoneAtAfter(s[..p4 + 4], phone);
      }
      assert s[p3 + 4..p3 + 6] == tail[..2] && s[p3 + 6..p4] == tail[2..];
    }
    assert GroupAfterBr(s, p1, p2) && GroupAfterBr(s, p2, p3) by {
      assert s[p1 + 4..p2] == a2 && s[p2 + 4..p3] == city;
    }
    assert GroupAfterBr(s, 0, p1) by {
      assert s[4..p1] == a1;
    }
  }

  /** The first match of the paragraph with a suite line takes address2. */
  lemma SuiteFirstMatch(a1: string, a2: string, city: string, tail: string, phone: string)
    requires a1 != [] && SingleLine(a1) && '<' !in a1
    requires a2 != [] && SingleLine(a2) && '<' !in a2
    requires city != [] && SingleLine(city) && '<' !in city
    requires |tail| > 2 && AllWordChars(tail[..2]) && SingleLine(tail[2..]) && '<' !in tail
    requires PhoneAt(phone, 0) && '<' !in phone
    ensures var p1 := 4 + |a1|; var p2 := p1 + 4 + |a2|; var p3 := p2 + 4 + |city|;
            MatchBranch(SuiteParagraph(a1, a2, city, tail, phone)) == Some(BranchMatch(0, p1, RestEnds(Some(p2), p3, p3 + 4 + |tail|)))
  {
    var s := SuiteParagraph(a1, a2, city, tail, phone);
    var p1 := 4 + |a1|;
    var p2 := p1 + 4 + |a2|;
    var p3 := p2 + 4 + |city|;
    var cand := BranchMatch(0, p1, RestEnds(Some(p2), p3, p3 + 4 + |tail|));
    SuiteBrs(a1, a2, city, tail, phone);
    SuiteRuns(a1, a2, city, tail, phone);
    MatchWithAddress2(s, a1, a2, city, tail, phone);
    var m := MatchBranch(s).value;
    assert IsBranchMatch(s, m) && NoLater(m, cand);
    SuiteTags(a1, a2, city, tail, phone, m.start);
    SuiteTags(a1, a2, city, tail, phone, m.end1);
    SuiteTags(a1, a2, city, tail, phone, m.rest.end3);
    SuiteTags(a1, a2, city, tail, phone, m.rest.end4);
    if m.rest.end2.Some? {
      SuiteTags(a1, a2, city, tail, phone, m.rest.end2.value);
    }
  }

  /** With a suite line the groups are address1, address2, the city and
      the state. */
  lemma SuiteParagraphGroups(a1: string, a2: string, city: string, tail: string, phone: string)
    requires a1 != [] && SingleLine(a1) && '<' !in a1
    requires a2 != [] && SingleLine(a2) && '<' !in a2
    requires city != [] && SingleLine(city) && '<' !in city
    requires |tail| > 2 && AllWordChars(tail[..2]) && SingleLine(tail[2..]) && '<' !in tail
    requires PhoneAt(phone, 0) && '<' !in phone
    ensures BranchGroupsOf(Some(SuiteParagraph(a1, a2, city, tail, phone)))
            == Some(BranchGroups(a1, Some(a2), city, tail[..2]))
  {
    var s := SuiteParagraph(a1, a2, city, tail, phone);
    var p3 := 4 + |a1| + 4 + |a2| + 4 + |city|;
    SuiteFirstMatch(a1, a2, city, tail, phone);
    SuiteRuns(a1, a2, city, tail, phone);
    assert s[p3 + 4..p3 + 6] == tail[..2];
  }

  /** A consultant page whose branch paragraph has a suite line gets
      address1 and address2 joined with ", " as its address, with the city
      and state of the paragraph. */
  lemma SuiteRecord(url: string, page: ConsultantPage, a1: string, a2: string, city: string, tail: string, phone: string)
    requires a1 != [] && SingleLine(a1) && '<' !in a1
    requires a2 != [] && SingleLine(a2) && '<' !in a2
    requires city != [] && SingleLine(city) && '<' !in city
    requires |tail| > 2 && AllWordChars(tail[..2]) && SingleLine(tail[2..]) && '<' !in tail
    requires PhoneAt(phone, 0) && '<' !in phone
    requires page.branchHtml == Some(SuiteParagraph(a1, a2, city, tail, phone))
    ensures var r := SchwabRecord(url, page);
            r.address == Some(a1 + ", " + a2) && r.city == Some(city) && r.state == Some(tail[..2])
  {
    SuiteParagraphGroups(a1, a2, city, tail, phone);
  }

  /** The paragraph "<br>A<br>C<br>ST.<br>123-456-7890" does not match. */
  lemma FourBrExample()
    ensures MatchBranch(FourBrParagraph("A", "C", "ST.", "123-456-7890")).None?
  {
    FourBrParagraphUnmatched("A", "C", "ST.", "123-456-7890");
  }

  /** `scrapeSchwabPage`: the name is the trimmed heading, the phone number
      the first phone text made bare by SchwabPhone, and the address, city
      and state follow the branch match: no match leaves city and state
      undefined and the address empty; a match gives its city, its
      two-letter state and its address lines joined. */
  function SchwabRecord(url: string, page: ConsultantPage): (r: AdvisorInfo)
    ensures r.name == Trim(page.heading)
    ensures r.phoneNo == Some(SchwabPhone(if page.phoneTexts == [] then "" else page.phoneTexts[0]))
    ensures var g := BranchGroupsOf(page.branchHtml);
            && r.address == Some(BranchAddress(g))
            && (g.Some? ==> r.city == Some(g.value.city) && r.state == Some(g.value.state))
    ensures r.sites == Some([url]) && r.email.None?
    ensures r.phoneNo.Some? && '-' !in r.phoneNo.value
    ensures r.city.Some? <==> r.state.Some?
    ensures r.city.Some? <==> page.branchHtml.Some? && MatchBranch(page.branchHtml.value).Some?
    ensures r.state.None? ==> r.address == Some("")
    ensures r.state.Some? ==> |r.state.value| == 2 && r.address.Some? && r.address.value != []
  {
    var groups := BranchGroupsOf(page.branchHtml);
    AdvisorInfo(
      name := Trim(page.heading),
      email := None,
      address := Some(BranchAddress(groups)),
      city := if groups.Some? then Some(groups.value.city) else None,
      state := if groups.Some? then Some(groups.value.state) else None,
      phoneNo := Some(SchwabPhone(if page.phoneTexts == [] then "" else page.phoneTexts[0])),
      sites := Some([url]))
  }

  /** `scrapeSchwab`: the consultant pages of all the links, in link
      order; a missing href or a rejected page rejects the finder. */
  function SchwabAdvisors(hrefs: seq<Option<string>>, page: string -> Result<AdvisorInfo>): (r: Result<seq<AdvisorInfo>>)
    ensures (exists i :: 0 <= i < |hrefs| && hrefs[i].None?) ==> r == Err(TypeError)
    ensures var links := ConsultantLinks(hrefs);
            && (r.Ok? <==> links.Ok? && forall i :: 0 <= i < |links.value| ==> page(links.value[i]).Ok?)
            && (r.Ok? ==> |r.value| == |links.value| == |hrefs|
                          && forall i :: 0 <= i < |hrefs| ==> page(links.value[i]) == Ok(r.value[i]))
            && (r.Err? && links.Ok? ==> exists i :: 0 <= i < |hrefs| && page(links.value[i]) == Err(r.error))
  {
    match ConsultantLinks(hrefs)
    case Err(e) => Err(e)
    case Ok(links) => MapAll(links, page)
  }
}
