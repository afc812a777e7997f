/** JavaScript's view of strings, as far as the scraper uses it: the
    character classes of its regular expressions (`\d`, `\w`, `\s`, `.`),
    `trim`, `replace` with a string pattern, `split("\n")`, the ASCII case
    mappings and decimal numerals. */
module Text {
  import opened Basics
  import opened Search
  import opened Seqs

  /** `\d`: an ASCII digit. */
  predicate IsDigit(c: char) { '0' <= c <= '9' }

  /** `\w`: an ASCII letter, digit or underscore. */
  predicate IsWordChar(c: char)
  {
    'a' <= c <= 'z' || 'A' <= c <= 'Z' || IsDigit(c) || c == '_'
  }

  /** The line terminators, which `.` does not match. */
  predicate IsLineTerminator(c: char)
  {
    c == '\n' || c == '\r' || c == '\U{2028}' || c == '\U{2029}'
  }

  /** `\s`, and what `trim` removes: white space and line terminators. */
  predicate IsSpace(c: char)
  {
    || IsLineTerminator(c)
    || c == '\t' || c == '\U{B}' || c == '\U{C}' || c == ' ' || c == '\U{A0}'
    || c == '\U{1680}' || '\U{2000}' <= c <= '\U{200A}'
    || c == '\U{202F}' || c == '\U{205F}' || c == '\U{3000}' || c == '\U{FEFF}'
  }

  predicate AllDigits(s: string) { forall i :: 0 <= i < |s| ==> IsDigit(s[i]) }

  predicate AllWordChars(s: string) { forall i :: 0 <= i < |s| ==> IsWordChar(s[i]) }

  predicate AllSpace(s: string) { forall i :: 0 <= i < |s| ==> IsSpace(s[i]) }

  /** Text that `.` matches character by character: no line terminator. */
  predicate SingleLine(s: string) { forall i :: 0 <= i < |s| ==> !IsLineTerminator(s[i]) }

  function TrimStart(s: string): (r: string)
    ensures |r| <= |s| && r == s[|s| - |r|..] && AllSpace(s[..|s| - |r|])
    ensures r == [] || !IsSpace(r[0])
  {
    if s != [] && IsSpace(s[0]) then TrimStart(s[1..]) else s
  }

  function TrimEnd(s: string): (r: string)
    ensures |r| <= |s| && r == s[..|r|] && AllSpace(s[|r|..])
    ensures r == [] || !IsSpace(r[|r| - 1])
  {
    if s != [] && IsSpace(s[|s| - 1]) then
      assert s[|TrimEnd(s[..|s| - 1])|..] == s[..|s| - 1][|TrimEnd(s[..|s| - 1])|..] + [s[|s| - 1]];
      TrimEnd(s[..|s| - 1])
    else s
  }

  /** `s.trim()`: s without its leading and trailing white space. */
  function Trim(s: string): (r: string)
    ensures |r| <= |s|
    ensures r == [] || (!IsSpace(r[0]) && !IsSpace(r[|r| - 1]))
  {
    TrimEnd(TrimStart(s))
  }

  /** How far the leading white space of s reaches: where its trim starts. */
  function TrimOffset(s: string): (k: nat)
    ensures k <= |s| && AllSpace(s[..k])
    ensures k < |s| ==> !IsSpace(s[k])
  {
    |s| - |TrimStart(s)|
  }

  /** The trim of s is the slice of s between its leading white space and
      its trailing white space. */
  lemma {:induction false} TrimSlice(s: string)
    ensures TrimOffset(s) + |Trim(s)| <= |s|
    ensures Trim(s) == s[TrimOffset(s)..TrimOffset(s) + |Trim(s)|]
    ensures AllSpace(s[TrimOffset(s) + |Trim(s)|..])
  {
    TrimEndOfSuffix(s, TrimStart(s), TrimEnd(TrimStart(s)));
  }

  /** The trailing trim of the suffix t of s, stated as slices of s. */
  lemma TrimEndOfSuffix(s: string, t: string, r: string)
    requires |t| <= |s| && t == s[|s| - |t|..]
    requires |r| <= |t| && r == t[..|r|] && AllSpace(t[|r|..])
    ensures var k := |s| - |t|; r == s[k..k + |r|] && AllSpace(s[k + |r|..])
  {
    SuffixSlices(s, |s| - |t|, |r|);
  }

  /** Slicing the suffix of s that starts at k is slicing s from k. */
  lemma SuffixSlices<T>(s: seq<T>, k: nat, n: nat)
    requires k + n <= |s|
    ensures s[k..][..n] == s[k..k + n] && s[k..][n..] == s[k + n..]
  {
  }

  /** A string whose ends are not white space is its own trim. */
  lemma TrimKeeps(s: string)
    requires s == [] || (!IsSpace(s[0]) && !IsSpace(s[|s| - 1]))
    ensures Trim(s) == s
  {
    assert TrimStart(s) == s;
    assert TrimEnd(s) == s;
  }

  /** Trimming twice trims once. */
  lemma TrimIdempotent(s: string)
    ensures Trim(Trim(s)) == Trim(s)
  {
    TrimKeeps(Trim(s));
  }

  /** A leading white-space character makes no difference to the trim. */
  lemma TrimSpaceCons(c: char, s: string)
    requires IsSpace(c)
    ensures Trim([c] + s) == Trim(s)
  {
    assert ([c] + s)[1..] == s;
    assert TrimStart([c] + s) == TrimStart(s);
  }

  /** Digits are no white space, so a run of them is its own trim. */
  lemma DigitsTrimmed(n: string)
    requires AllDigits(n)
    ensures Trim(n) == n
  {
    assert n == [] || (!IsSpace(n[0]) && !IsSpace(n[|n| - 1])) by {
      if n != [] {
        assert IsDigit(n[0]) && IsDigit(n[|n| - 1]);
      }
    }
    TrimKeeps(n);
  }

  /** A run of digits after a space trims to the digits. */
  lemma DigitsAfterSpaceTrimmed(n: string)
    requires AllDigits(n)
    ensures Trim(" " + n) == n
  {
    TrimSpaceCons(' ', n);
    DigitsTrimmed(n);
  }

  lemma {:induction false} TrimStartPadded(lead: string, x: string)
    requires AllSpace(lead) && (x == [] || !IsSpace(x[0]))
    ensures TrimStart(lead + x) == x
    decreases |lead|
  {
    if lead != [] {
      assert (lead + x)[1..] == lead[1..] + x;
      TrimStartPadded(lead[1..], x);
    }
  }

  lemma {:induction false} TrimEndPadded(x: string, trail: string)
    requires AllSpace(trail) && (x == [] || !IsSpace(x[|x| - 1]))
    ensures TrimEnd(x + trail) == x
    decreases |trail|
  {
    if trail != [] {
      assert (x + trail)[..|x + trail| - 1] == x + trail[..|trail| - 1];
      TrimEndPadded(x, trail[..|trail| - 1]);
    }
  }

  /** White space around a text whose ends are not white space is what
      the trim removes. */
  lemma TrimPadded(lead: string, x: string, trail: string)
    requires AllSpace(lead) && AllSpace(trail)
    requires x != [] && !IsSpace(x[0]) && !IsSpace(x[|x| - 1])
    ensures Trim(lead + x + trail) == x
  {
    assert lead + x + trail == lead + (x + trail);
    TrimStartPadded(lead, x + trail);
    TrimEndPadded(x, trail);
  }

  /** Trimming keeps no character the text did not have. */
  lemma {:induction false} TrimWithout(s: string, c: char)
    requires c !in s
    ensures c !in Trim(s)
  {
    TrimSlice(s);
    var r := Trim(s);
    var k := TrimOffset(s);
    assert forall i :: 0 <= i < |r| ==> r[i] == s[k + i];
  }

  /** `pat` occurs in s at position i. */
  predicate OccursAt(s: string, pat: string, i: nat)
  {
    i + |pat| <= |s| && s[i..i + |pat|] == pat
  }

  /** `s.indexOf(pat)`, with `undefined` for -1. */
  function IndexOf(s: string, pat: string): (r: Option<nat>)
    ensures r.Some? ==> OccursAt(s, pat, r.value)
    ensures r.Some? ==> forall j: nat :: j < r.value ==> !OccursAt(s, pat, j)
    ensures r.None? ==> forall j: nat :: !OccursAt(s, pat, j)
  {
    var p := (i: nat) => OccursAt(s, pat, i);
    assert forall j: nat :: p(j) == OccursAt(s, pat, j);
    FirstIndex(0, |s| + 1, p)
  }

  /** A pattern whose first two characters differ and never occur together
      in x cannot start inside x once it is appended to x: its first
      occurrence in x + pat is the appended one. */
  lemma NoOccurrenceInside(x: string, pat: string, j: nat)
    requires |pat| >= 2 && pat[0] != pat[1]
    requires forall i: nat :: !OccursAt(x, pat[..2], i)
    requires j < |x|
    ensures !OccursAt(x + pat, pat, j)
  {
    var s := x + pat;
    if j + |pat| <= |s| {
      assert s[j..j + |pat|][..2] == s[j..j + 2];
      if j + 1 < |x| {
        assert s[j..j + 2] == x[j..j + 2];
        assert !OccursAt(x, pat[..2], j);
      } else {
        assert s[j..j + |pat|][1] == s[j + 1] == pat[0];
      }
    }
  }

  /** A one-character pattern that does not occur before n leaves the
      character out of the first n characters. */
  lemma NoOccurrenceOfChar(s: string, c: char, n: nat)
    requires n <= |s|
    requires forall j: nat :: j < n ==> !OccursAt(s, [c], j)
    ensures c !in s[..n]
  {
    forall i | 0 <= i < n ensures s[i] != c {
      assert !OccursAt(s, [c], i);
      assert s[i..i + 1] == [s[i]];
    }
  }

  /** `s.replace(pat, rep)` with a string pattern: only the first occurrence
      of pat is replaced; without one, s is unchanged. */
  function ReplaceFirst(s: string, pat: string, rep: string): (r: string)
    ensures (forall j: nat :: !OccursAt(s, pat, j)) ==> r == s
    ensures forall i: nat :: OccursAt(s, pat, i) && (forall j: nat :: j < i ==> !OccursAt(s, pat, j))
                         ==> r == s[..i] + rep + s[i + |pat|..]
  {
    match IndexOf(s, pat)
    case None => s
    case Some(i) => s[..i] + rep + s[i + |pat|..]
  }

  /** A pattern at the very start is the first occurrence, so it is the
      one replaced. */
  lemma ReplaceFirstAtStart(pat: string, rest: string, rep: string)
    ensures ReplaceFirst(pat + rest, pat, rep) == rep + rest
  {
    var s := pat + rest;
    assert s[0..|pat|] == pat;
    assert OccursAt(s, pat, 0);
    assert IndexOf(s, pat) == Some(0);
    assert s[..0] + rep + s[|pat|..] == rep + rest;
  }

  /** A pattern appended to text it cannot start inside is the first
      occurrence, so deleting the first occurrence gives the text back. */
  lemma ReplaceFirstAtEnd(x: string, pat: string)
    requires |pat| >= 2 && pat[0] != pat[1]
    requires forall i: nat :: !OccursAt(x, pat[..2], i)
    ensures ReplaceFirst(x + pat, pat, "") == x
  {
    var s := x + pat;
    assert s[|x|..|x| + |pat|] == pat;
    assert OccursAt(s, pat, |x|);
    forall j: nat | j < |x| ensures !OccursAt(s, pat, j) {
      NoOccurrenceInside(x, pat, j);
    }
    assert IndexOf(s, pat) == Some(|x|);
    assert s[..|x|] + "" + s[|x| + |pat|..] == x;
  }

  /** Making the first double space single shortens the text and keeps its
      ends: in a text whose ends are not white space, a double space lies
      strictly inside. */
  lemma CollapseKeepsEnds(t: string)
    requires t == [] || (!IsSpace(t[0]) && !IsSpace(t[|t| - 1]))
    ensures var u := ReplaceFirst(t, "  ", " ");
            |u| <= |t| && (u == [] || (!IsSpace(u[0]) && !IsSpace(u[|u| - 1])))
  {
    match IndexOf(t, "  ")
    case None =>
    case Some(i) =>
      assert t[i..i + 2][0] == t[i] && t[i..i + 2][1] == t[i + 1];
  }

  /** Between two words without white space, the first double space is the
      one after the first word, and it becomes a single space. */
  lemma CollapseBetweenWords(first: string, last: string)
    requires forall i :: 0 <= i < |first| ==> !IsSpace(first[i])
    ensures ReplaceFirst(first + "  " + last, "  ", " ") == first + " " + last
  {
    var t := first + "  " + last;
    var i := |first|;
    assert t[i..i + 2] == "  ";
    forall j: nat | j < i ensures !OccursAt(t, "  ", j) {
      assert t[j..j + 2][0] == t[j] == first[j];
    }
    assert t[..i] + " " + t[i + 2..] == first + " " + last;
  }

  /** `s.replaceAll(/\D/g, "")`: the digits of s, in order. */
  function DigitsOnly(s: string): (r: string)
    ensures AllDigits(r)
    ensures AllDigits(s) ==> r == s
    ensures |s| == 1 ==> r == (if IsDigit(s[0]) then s else [])
  {
    FilterKeepsAll(s, IsDigit);
    Filter(s, IsDigit)
  }

  /** Digits are kept piece by piece: with the one-character case above,
      this fixes DigitsOnly as the digits of s in their order. */
  lemma DigitsOnlyAppend(s: string, t: string)
    ensures DigitsOnly(s + t) == DigitsOnly(s) + DigitsOnly(t)
  {
    FilterAppend(s, t, IsDigit);
  }

  /** `s.replaceAll(c, "")` for a one-character pattern. */
  function RemoveAll(s: string, c: char): (r: string)
    ensures c !in r
    ensures c !in s ==> r == s
    ensures |s| == 1 ==> r == (if s[0] == c then [] else s)
  {
    var keep := (x: char) => x != c;
    FilterKeepsAll(s, keep);
    Filter(s, keep)
  }

  /** Every other character is kept piece by piece, so in its order. */
  lemma RemoveAllAppend(s: string, t: string, c: char)
    ensures RemoveAll(s + t, c) == RemoveAll(s, c) + RemoveAll(t, c)
  {
    FilterAppend(s, t, (x: char) => x != c);
  }

  /** `s.split("\n")[0]`: s up to its first line feed. */
  function FirstLine(s: string): (r: string)
    ensures '\n' !in r
    ensures r == s || (|r| < |s| && s[..|r| + 1] == r + "\n")
  {
    match IndexOf(s, "\n")
    case None => NoOccurrenceOfChar(s, '\n', |s|); assert s[..|s|] == s; s
    case Some(i) => NoOccurrenceOfChar(s, '\n', i); s[..i]
  }

  /** `s.split("\n")[1]`: the text between the first and second line feed,
      or `undefined` when s has no line feed. */
  function SecondLine(s: string): (r: Option<string>)
    ensures r.None? <==> '\n' !in s
    ensures r.Some? ==> var n := |FirstLine(s)|;
                        n < |s| && s[n] == '\n' && r.value == FirstLine(s[n + 1..])
  {
    match IndexOf(s, "\n")
    case None => NoOccurrenceOfChar(s, '\n', |s|); assert s[..|s|] == s; None
    case Some(i) =>
      assert s[i] == '\n' by { assert s[i..i + 1] == "\n"; }
      Some(FirstLine(s[i + 1..]))
  }

  /** The upper-case form of an ASCII letter; other characters unchanged. */
  function ToUpper(c: char): char
  {
    if 'a' <= c <= 'z' then (c as int - 32) as char else c
  }

  /** The lower-case form of an ASCII letter; other characters unchanged. */
  function ToLower(c: char): char
  {
    if 'A' <= c <= 'Z' then (c as int + 32) as char else c
  }

  function DigitChar(d: nat): char
    requires d < 10
  {
    ('0' as int + d) as char
  }

  function DigitValue(c: char): nat
    requires IsDigit(c)
  {
    c as int - '0' as int
  }

  /** `n.toString()` for a non-negative integer: its decimal numeral,
      with no leading zero except in "0" itself. */
  function Decimal(n: nat): (r: string)
    ensures r != [] && AllDigits(r)
    ensures r[0] == '0' <==> n == 0
    ensures n == 0 ==> r == "0"
  {
    if n < 10 then [DigitChar(n)] else Decimal(n / 10) + [DigitChar(n % 10)]
  }

  /** A numeral as `toString` writes it: digits, no leading zero unless it
      is "0". */
  predicate Canonical(s: string)
  {
    s != [] && AllDigits(s) && (s[0] == '0' ==> s == "0")
  }

  /** The number a string of decimal digits denotes (`+s`). */
  function NumberOfDigits(s: string): nat
    requires AllDigits(s)
  {
    if s == [] then 0 else 10 * NumberOfDigits(s[..|s| - 1]) + DigitValue(s[|s| - 1])
  }

  /** Reading back a decimal numeral gives the number written. */
  lemma {:induction false} DecimalRoundTrip(n: nat)
    ensures NumberOfDigits(Decimal(n)) == n
  {
    if n >= 10 {
      DecimalRoundTrip(n / 10);
      var d := Decimal(n);
      assert d[..|d| - 1] == Decimal(n / 10);
    }
  }

  /** Distinct numbers have distinct numerals. */
  lemma DecimalInjective(m: nat, n: nat)
    requires Decimal(m) == Decimal(n)
    ensures m == n
  {
    DecimalRoundTrip(m);
    DecimalRoundTrip(n);
  }

  lemma {:induction false} NumberOfLeadingNonZero(s: string)
    requires s != [] && AllDigits(s) && s[0] != '0'
    ensures NumberOfDigits(s) >= 1
  {
    if |s| > 1 {
      NumberOfLeadingNonZero(s[..|s| - 1]);
    }
  }

  /** The other round trip: every numeral `toString` could write is the
      numeral of the number it denotes. */
  lemma {:induction false} NumeralRoundTrip(s: string)
    requires Canonical(s)
    ensures Decimal(NumberOfDigits(s)) == s
  {
    if |s| > 1 {
      var init := s[..|s| - 1];
      assert init[0] == s[0];
      NumberOfLeadingNonZero(init);
      NumeralRoundTrip(init);
      var n := NumberOfDigits(s);
      assert n / 10 == NumberOfDigits(init) && n % 10 == DigitValue(s[|s| - 1]);
      assert s == init + [s[|s| - 1]];
    }
  }
}
