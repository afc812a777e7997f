/** The LPL finder of `scrape.ts`: every result row of the fully expanded
    result list becomes a record, read off the row's markup. */
module Lpl {
  import opened Basics
  import opened Search
  import opened Text
  import opened Records

  // Name capitalisation: `name.replace(/\w\S*/g, w => w[0].toUpperCase() +
  // w.substring(1).toLocaleLowerCase())`. Each match starts at a word
  // character outside any earlier match and runs to the next white space.

  /** How a character comes out, given whether a match is under way. */
  function Recase(c: char, inMatch: bool): char
  {
    if inMatch then (if IsSpace(c) then c else ToLower(c))
    else if IsWordChar(c) then ToUpper(c) else c
  }

  /** Whether a match is under way after the character c. */
  function NextInMatch(c: char, inMatch: bool): bool
  {
    !IsSpace(c) && (inMatch || IsWordChar(c))
  }

  function TitleCaseFrom(s: string, inMatch: bool): (r: string)
    ensures |r| == |s|
  {
    if s == [] then [] else [Recase(s[0], inMatch)] + TitleCaseFrom(s[1..], NextInMatch(s[0], inMatch))
  }

  /** Every white-space separated word capitalised from its first word
      character on. */
  function TitleCase(s: string): (r: string)
    ensures |r| == |s|
  {
    TitleCaseFrom(s, false)
  }

  /** Whether a match is under way after reading t, read from its end. */
  function Carried(t: string, inMatch: bool): bool
  {
    if t == [] then inMatch else NextInMatch(t[|t| - 1], Carried(t[..|t| - 1], inMatch))
  }

  lemma {:induction false} CarriedCons(c: char, t: string, inMatch: bool)
    ensures Carried([c] + t, inMatch) == Carried(t, NextInMatch(c, inMatch))
    decreases |t|
  {
    if t != [] {
      assert ([c] + t)[..|t|] == [c] + t[..|t| - 1];
      CarriedCons(c, t[..|t| - 1], inMatch);
    }
  }

  /** t ends with a run without white space that holds a word character. */
  ghost predicate OpenMatch(t: string)
  {
    exists j :: 0 <= j < |t| && IsWordChar(t[j]) && forall k :: j <= k < |t| ==> !IsSpace(t[k])
  }

  /** One more character: the run goes on through it exactly when it is not
      white space, and then holds a word character when it is one or the
      run before it did. */
  lemma OpenMatchSnoc(t: string)
    requires t != []
    ensures OpenMatch(t) <==>
              !IsSpace(t[|t| - 1]) && (IsWordChar(t[|t| - 1]) || OpenMatch(t[..|t| - 1]))
  {
    var u := t[..|t| - 1];
    var c := t[|t| - 1];
    if OpenMatch(t) {
      var j :| 0 <= j < |t| && IsWordChar(t[j]) && forall k :: j <= k < |t| ==> !IsSpace(t[k]);
      assert !IsSpace(c);
      if j < |u| {
        assert IsWordChar(u[j]) && forall k :: j <= k < |u| ==> !IsSpace(u[k]);
      }
    }
    if !IsSpace(c) && IsWordChar(c) {
      assert IsWordChar(t[|t| - 1]) && forall k :: |t| - 1 <= k < |t| ==> !IsSpace(t[k]);
    }
    if !IsSpace(c) && OpenMatch(u) {
      var j :| 0 <= j < |u| && IsWordChar(u[j]) && forall k :: j <= k < |u| ==> !IsSpace(u[k]);
      assert IsWordChar(t[j]) && forall k :: j <= k < |t| ==> !IsSpace(t[k]);
    }
  }

  /** A match is under way after t exactly when t ends with a run without
      white space that holds a word character. */
  lemma {:induction false} CarriedMeansOpenMatch(t: string)
    ensures Carried(t, false) <==> OpenMatch(t)
  {
    if t != [] {
      CarriedMeansOpenMatch(t[..|t| - 1]);
      OpenMatchSnoc(t);
    }
  }

  /** Position by position: a character is upper-cased when it is a word
      character that starts a match, lower-cased when a match is under way
      and it is not white space, and kept otherwise. */
  lemma {:induction false} TitleCaseAt(s: string, inMatch: bool, i: nat)
    requires i < |s|
    ensures TitleCaseFrom(s, inMatch)[i] == Recase(s[i], Carried(s[..i], inMatch))
  {
    if i > 0 {
      TitleCaseAt(s[1..], NextInMatch(s[0], inMatch), i - 1);
      assert s[..i] == [s[0]] + s[1..][..i - 1];
      CarriedCons(s[0], s[1..][..i - 1], inMatch);
    }
  }

  lemma RecaseStable(c: char, inMatch: bool)
    ensures Recase(Recase(c, inMatch), inMatch) == Recase(c, inMatch)
    ensures NextInMatch(Recase(c, inMatch), inMatch) == NextInMatch(c, inMatch)
  {
  }

  /** Capitalising a capitalised name changes nothing. */
  lemma {:induction false} TitleCaseIdempotent(s: string, inMatch: bool)
    ensures TitleCaseFrom(TitleCaseFrom(s, inMatch), inMatch) == TitleCaseFrom(s, inMatch)
  {
    if s != [] {
      var t := TitleCaseFrom(s, inMatch);
      RecaseStable(s[0], inMatch);
      assert t[0] == Recase(s[0], inMatch) && t[1..] == TitleCaseFrom(s[1..], NextInMatch(s[0], inMatch));
      TitleCaseIdempotent(s[1..], NextInMatch(s[0], inMatch));
    }
  }

  /** Capitalising never turns white space into something else, or the
      reverse. */
  lemma RecaseKeepsSpace(c: char, inMatch: bool)
    ensures IsSpace(Recase(c, inMatch)) == IsSpace(c)
  {
  }

  /** A text whose ends are not white space keeps that shape when
      capitalised. */
  lemma TitleCaseKeepsEnds(u: string)
    requires u == [] || (!IsSpace(u[0]) && !IsSpace(u[|u| - 1]))
    ensures var r := TitleCase(u);
            r == [] || (!IsSpace(r[0]) && !IsSpace(r[|r| - 1]))
  {
    if u != [] {
      TitleCaseAt(u, false, 0);
      RecaseKeepsSpace(u[0], Carried(u[..0], false));
      TitleCaseAt(u, false, |u| - 1);
      RecaseKeepsSpace(u[|u| - 1], Carried(u[..|u| - 1], false));
    }
  }

  /** The advisor name: trimmed, its first double space made single, then
      capitalised. It is no longer than the text, neither end is white
      space, and it is already capitalised. */
  function LplName(text: string): (r: string)
    ensures r == TitleCase(ReplaceFirst(Trim(text), "  ", " "))
    ensures |r| <= |text|
    ensures r == [] || (!IsSpace(r[0]) && !IsSpace(r[|r| - 1]))
    ensures TitleCase(r) == r
  {
    var t := Trim(text);
    var u := ReplaceFirst(t, "  ", " ");
    CollapseKeepsEnds(t);
    TitleCaseKeepsEnds(u);
    TitleCaseIdempotent(u, false);
    TitleCase(u)
  }

  /** Two words padded with white space and parted by a double space come
      out as the two words, capitalised, with one space between them. */
  lemma LplNameOfTwoWords(lead: string, first: string, last: string, trail: string)
    requires AllSpace(lead) && AllSpace(trail)
    requires first != [] && forall i :: 0 <= i < |first| ==> !IsSpace(first[i])
    requires last != [] && forall i :: 0 <= i < |last| ==> !IsSpace(last[i])
    ensures LplName(lead + first + "  " + last + trail) == TitleCase(first + " " + last)
  {
    var x := first + "  " + last;
    assert lead + first + "  " + last + trail == lead + x + trail;
    assert x[0] == first[0] && x[|x| - 1] == last[|last| - 1];
    TrimPadded(lead, x, trail);
    CollapseBetweenWords(first, last);
  }

  /** "  jOHN  SMITH " comes out as "John Smith". */
  lemma LplNameExample()
    ensures LplName("  jOHN  SMITH ") == "John Smith"
  {
    assert "  jOHN  SMITH " == "  " + "jOHN" + "  " + "SMITH" + " ";
    LplNameOfTwoWords("  ", "jOHN", "SMITH", " ");
    TitleCaseJohnSmith();
  }

  /** Capitalising x + y capitalises x, then y from where x leaves the
      matcher. */
  lemma {:induction false} TitleCaseFromAppend(x: string, y: string, inMatch: bool)
    ensures TitleCaseFrom(x + y, inMatch) == TitleCaseFrom(x, inMatch) + TitleCaseFrom(y, Carried(x, inMatch))
    decreases |x|
  {
    if x != [] {
      var next := NextInMatch(x[0], inMatch);
      var head := [Recase(x[0], inMatch)];
      assert TitleCaseFrom(x + y, inMatch) == head + TitleCaseFrom(x[1..] + y, next) by {
        assert (x + y)[0] == x[0] && (x + y)[1..] == x[1..] + y;
      }
      assert Carried(x, inMatch) == Carried(x[1..], next) by {
        CarriedCons(x[0], x[1..], inMatch);
        assert [x[0]] + x[1..] == x;
      }
      TitleCaseFromAppend(x[1..], y, next);
      var mid, tail := TitleCaseFrom(x[1..], next), TitleCaseFrom(y, Carried(x[1..], next));
      assert head + (mid + tail) == (head + mid) + tail;
    } else {
      assert x + y == y;
    }
  }

  lemma TitleCaseJohn()
    ensures TitleCaseFrom("jOHN", false) == "John" && Carried("jOHN", false)
  {
    assert TitleCaseFrom("N", true) == "n";
    assert TitleCaseFrom("HN", true) == "hn";
    assert TitleCaseFrom("OHN", true) == "ohn";
    assert "jOHN"[..3] == "jOH" && "jOH"[..2] == "jO" && "jO"[..1] == "j";
  }

  lemma TitleCaseSmith()
    ensures TitleCaseFrom("SMITH", false) == "Smith"
  {
    assert TitleCaseFrom("H", true) == "h";
    assert TitleCaseFrom("TH", true) == "th";
    assert TitleCaseFrom("ITH", true) == "ith";
    assert TitleCaseFrom("MITH", true) == "mith";
  }

  lemma TitleCaseJohnSmith()
    ensures TitleCase("jOHN" + " " + "SMITH") == "John Smith"
  {
    TitleCaseJohn();
    TitleCaseSmith();
    TitleCaseFromAppend("jOHN" + " ", "SMITH", false);
    TitleCaseFromAppend("jOHN", " ", false);
    assert Carried("jOHN" + " ", false) == NextInMatch(' ', Carried("jOHN", false)) by {
      assert ("jOHN" + " ")[..4] == "jOHN";
    }
    assert "John" + " " + "Smith" == "John Smith";
  }

  /** `/(?<city>.+), (?<state>\w{2}) \d{5}/` matches s[p..c + 10]. */
  predicate CityStateZipAt(s: string, p: nat, c: nat)
  {
    p < c && c + 10 <= |s| && SingleLine(s[p..c]) && s[c..c + 2] == ", " && AllWordChars(s[c + 2..c + 4])
    && s[c + 4] == ' ' && AllDigits(s[c + 5..c + 10])
  }

  /** The match reported: leftmost start and greedy city; the city is
      s[start..end] and the state the two characters after the comma. */
  function MatchCityState(s: string): (r: Option<Span>)
    ensures r.None? <==> forall p: nat, c: nat :: !CityStateZipAt(s, p, c)
    ensures r.Some? ==> CityStateZipAt(s, r.value.start, r.value.end)
    ensures r.Some? ==> forall p: nat, c: nat :: CityStateZipAt(s, p, c) ==>
                          r.value.start < p || (r.value.start == p && c <= r.value.end)
  {
    var ok := (p: nat, c: nat) => CityStateZipAt(s, p, c);
    assert forall p: nat, c: nat :: ok(p, c) == CityStateZipAt(s, p, c);
    LeftmostLongestFrom(0, |s|, ok)
  }

  /** The city and state groups of a line, both undefined without a match. */
  function CityAndState(line: string): (r: (Option<string>, Option<string>))
    ensures r.0.Some? <==> r.1.Some?
    ensures r.0.Some? <==> MatchCityState(line).Some?
    ensures r.1.Some? ==> |r.1.value| == 2 && AllWordChars(r.1.value)
  {
    match MatchCityState(line)
    case None => (None, None)
    case Some(m) => (Some(line[m.start..m.end]), Some(line[m.end + 2..m.end + 4]))
  }

  /** A line that is exactly "City, ST 12345" gives that city and state,
      whatever commas the city holds. */
  lemma CityStateOfPlainLine(city: string, state: string, zip: string)
    requires city != [] && SingleLine(city)
    requires |state| == 2 && AllWordChars(state) && |zip| == 5 && AllDigits(zip)
    ensures CityAndState(city + ", " + state + " " + zip) == (Some(city), Some(state))
  {
    var s := city + ", " + state + " " + zip;
    var n := |city|;
    assert s[..n] == city && s[n..n + 2] == ", " && s[n + 2..n + 4] == state && s[n + 4] == ' ' && s[n + 5..n + 10] == zip;
    assert CityStateZipAt(s, 0, n);
    var m := MatchCityState(s).value;
    assert m.start == 0 && m.end == n;
  }

  /** What one result row (`div.info-adv`) yields: the text of its
      `p.name`, the text of its address paragraph, its contact anchors and
      the text of its email anchor. */
  datatype AdvisorRow = AdvisorRow(nameText: string, addressText: string, anchors: seq<Anchor>, emailText: string)

  /** One row's record. Reading the city and state line throws when the
      address has a single line, and the `tel` filter throws on an anchor
      without an href. Otherwise the name is LplName's, the address the
      first line of the trimmed address text, city and state those of its
      trimmed second line, and the phone number the digits of the first
      `tel` anchor's text. */
  function LplRecord(row: AdvisorRow): (r: Result<AdvisorInfo>)
    ensures r.Err? <==> SecondLine(Trim(row.addressText)).None? || FirstWithHrefPrefix(row.anchors, "tel").Err?
    ensures r.Err? ==> r.error == TypeError
    ensures r.Ok? ==> var lines := Trim(row.addressText);
                      var tel := FirstWithHrefPrefix(row.anchors, "tel").value;
                      && r.value.name == LplName(row.nameText)
                      && r.value.address == Some(FirstLine(lines))
                      && (r.value.city, r.value.state) == CityAndState(Trim(SecondLine(lines).value))
                      && r.value.phoneNo == Some(DigitsOnly(if tel.Some? then row.anchors[tel.value].text else ""))
    ensures r.Ok? ==> && r.value.sites.None? && r.value.email == Some(row.emailText)
                      && r.value.address.Some? && '\n' !in r.value.address.value
                      && r.value.phoneNo.Some? && AllDigits(r.value.phoneNo.value)
                      && (r.value.city.Some? <==> r.value.state.Some?)
                      && (r.value.state.Some? ==> |r.value.state.value| == 2 && AllWordChars(r.value.state.value))
  {
    var lines := Trim(row.addressText);
    match SecondLine(lines)
    case None => Err(TypeError)
    case Some(second) =>
      var cityState := CityAndState(Trim(second));
      match FirstWithHrefPrefix(row.anchors, "tel")
      case Err(e) => Err(e)
      case Ok(tel) =>
        Ok(AdvisorInfo(
          name := LplName(row.nameText),
          email := Some(row.emailText),
          address := Some(FirstLine(lines)),
          city := cityState.0,
          state := cityState.1,
          phoneNo := Some(DigitsOnly(if tel.Some? then row.anchors[tel.value].text else "")),
          sites := None))
  }

  /** Two lines parted by a line feed are the first and the second line. */
  lemma TwoLines(first: string, second: string)
    requires '\n' !in first && '\n' !in second
    ensures FirstLine(first + "\n" + second) == first
    ensures SecondLine(first + "\n" + second) == Some(second)
  {
    var text := first + "\n" + second;
    var n := |FirstLine(text)|;
    assert text[|first|] == '\n';
    assert FirstLine(text) == text[..n];
    assert n == |first|;
    assert text[|first| + 1..] == second;
    assert FirstLine(second) == second;
  }

  /** A street line over a city-state line, both with non-space ends, is
      its own trim. */
  lemma StreetOverLine(street: string, line: string)
    requires street != [] && !IsSpace(street[0]) && '\n' !in street
    requires line != [] && !IsSpace(line[|line| - 1]) && '\n' !in line
    ensures var text := street + "\n" + line;
            Trim(text) == text && FirstLine(text) == street && SecondLine(text) == Some(line)
  {
    var text := street + "\n" + line;
    assert text[0] == street[0] && text[|text| - 1] == line[|line| - 1];
    TrimKeeps(text);
    TwoLines(street, line);
  }

  /** A first contact anchor that is a `tel` link is the one read, when no
      anchor lacks an href. */
  lemma TelFirst(anchors: seq<Anchor>, number: string)
    requires anchors != [] && anchors[0].href == Some("tel:" + number)
    requires forall i :: 0 <= i < |anchors| ==> anchors[i].href.Some?
    ensures FirstWithHrefPrefix(anchors, "tel") == Ok(Some(0))
  {
    assert HasHrefPrefix(anchors[0], "tel");
  }

  /** The record of a row whose address text is already trimmed, whose
      second line is the city-state line and whose first contact anchor
      is the `tel` link. */
  lemma LplRecordOfLines(row: AdvisorRow, street: string, line: string)
    requires Trim(row.addressText) == row.addressText && Trim(line) == line
    requires FirstLine(row.addressText) == street && SecondLine(row.addressText) == Some(line)
    requires FirstWithHrefPrefix(row.anchors, "tel") == Ok(Some(0))
    ensures LplRecord(row) == Ok(AdvisorInfo(
              name := LplName(row.nameText),
              email := Some(row.emailText),
              address := Some(street),
              city := CityAndState(line).0,
              state := CityAndState(line).1,
              phoneNo := Some(DigitsOnly(row.anchors[0].text)),
              sites := None))
  {
  }

  /** A row whose address is a street line over a city-state line, and
      whose first contact anchor is the `tel` link (TelFirst says when),
      gives the street as the address, the city and state of that line,
      and the digits of the anchor's text as the phone number. */
  lemma LplRecordOfRow(row: AdvisorRow, street: string, line: string)
    requires street != [] && !IsSpace(street[0]) && '\n' !in street
    requires line != [] && !IsSpace(line[0]) && !IsSpace(line[|line| - 1]) && '\n' !in line
    requires row.addressText == street + "\n" + line
    requires FirstWithHrefPrefix(row.anchors, "tel") == Ok(Some(0))
    ensures LplRecord(row) == Ok(AdvisorInfo(
              name := LplName(row.nameText),
              email := Some(row.emailText),
              address := Some(street),
              city := CityAndState(line).0,
              state := CityAndState(line).1,
              phoneNo := Some(DigitsOnly(row.anchors[0].text)),
              sites := None))
  {
    StreetOverLine(street, line);
    TrimKeeps(line);
    LplRecordOfLines(row, street, line);
  }

  /** `scrapeLPL`: one record per row, in row order; the first row that
      throws makes the whole finder reject. */
  function LplAdvisors(rows: seq<AdvisorRow>): (r: Result<seq<AdvisorInfo>>)
    ensures r.Ok? <==> forall i :: 0 <= i < |rows| ==> LplRecord(rows[i]).Ok?
    ensures r.Ok? ==> |r.value| == |rows| && forall i :: 0 <= i < |rows| ==> LplRecord(rows[i]) == Ok(r.value[i])
    ensures r.Err? ==> r.error == TypeError
  {
    MapAllRejectsWith(rows, LplRecord, TypeError);
    MapAll(rows, LplRecord)
  }
}
