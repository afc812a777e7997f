/** The command-line entry point of `index.ts`: read a zip code, check it,
    scrape for it and exit. */
module Cli {
  import opened Basics
  import opened Search
  import opened Text
  import opened Records

  /** Five ASCII digits start at i. */
  predicate FiveDigitsAt(s: string, i: nat)
  {
    i + 5 <= |s| && AllDigits(s[i..i + 5])
  }

  /** `/\d{5}/` finds a match in s: it is not anchored, so any five
      consecutive digits anywhere will do. */
  function HasFiveDigits(s: string): (r: bool)
    ensures r <==> exists i: nat :: FiveDigitsAt(s, i)
  {
    var at := (i: nat) => FiveDigitsAt(s, i);
    assert forall i: nat :: at(i) == FiveDigitsAt(s, i);
    var found := FirstIndex(0, |s| + 1, at);
    assert found.None? ==> forall i: nat :: !FiveDigitsAt(s, i) by {
      if found.None? {
        forall i: nat ensures !FiveDigitsAt(s, i) {
          if i > |s| {
            assert !(i + 5 <= |s|);
          }
        }
      }
    }
    found.Some?
  }

  /** The entered line is accepted when its trimmed form holds five
      consecutive digits. */
  function AcceptsZip(line: string): (r: bool)
    ensures r <==> exists i: nat :: FiveDigitsAt(Trim(line), i)
  {
    HasFiveDigits(Trim(line))
  }

  /** A run longer than five digits is accepted. */
  lemma AcceptsLongerRun()
    ensures AcceptsZip("123456")
  {
    var s := "123456";
    TrimKeeps(s);
    assert FiveDigitsAt(s, 0);
  }

  /** Letters around the digits do not matter. */
  lemma AcceptsSurroundedRun()
    ensures AcceptsZip("ab12345")
  {
    var s := "ab12345";
    TrimKeeps(s);
    assert FiveDigitsAt(s, 2);
  }

  /** Four digits are not a zip code. */
  lemma RejectsFourDigits()
    ensures !AcceptsZip("1234")
  {
    TrimKeeps("1234");
  }

  /** A five-digit window of s that overlaps neither an all-space prefix
      of length k nor an all-space suffix starting at m. */
  lemma DigitsInside(s: string, k: nat, m: nat, i: nat)
    requires k <= m <= |s| && AllSpace(s[..k]) && AllSpace(s[m..]) && FiveDigitsAt(s, i)
    ensures k <= i && i + 5 <= m
  {
    assert IsDigit(s[i..i + 5][0]);
    assert IsDigit(s[i..i + 5][4]);
  }

  lemma FiveDigitsWiden(line: string, t: string, k: nat, i: nat)
    requires k + |t| <= |line| && t == line[k..k + |t|] && FiveDigitsAt(t, i)
    ensures FiveDigitsAt(line, k + i)
  {
    var wide, narrow := line[k + i..k + i + 5], t[i..i + 5];
    assert forall j :: 0 <= j < 5 ==> wide[j] == narrow[j];
    assert wide == narrow;
  }

  lemma FiveDigitsNarrow(line: string, t: string, k: nat, i: nat)
    requires k + |t| <= |line| && t == line[k..k + |t|]
    requires AllSpace(line[..k]) && AllSpace(line[k + |t|..]) && FiveDigitsAt(line, i)
    ensures k <= i && FiveDigitsAt(t, i - k)
  {
    DigitsInside(line, k, k + |t|, i);
    var narrow, wide := t[i - k..i - k + 5], line[i..i + 5];
    assert forall j :: 0 <= j < 5 ==> narrow[j] == wide[j];
    assert narrow == wide;
  }

  /** Trimming decides nothing: white space is never a digit, so the line
      has five consecutive digits exactly when its trimmed form has. */
  lemma TrimKeepsFiveDigits(line: string)
    ensures (exists i: nat :: FiveDigitsAt(Trim(line), i)) <==> (exists i: nat :: FiveDigitsAt(line, i))
  {
    TrimSlice(line);
    var t := Trim(line);
    var k := TrimOffset(line);
    if exists i: nat :: FiveDigitsAt(t, i) {
      var i: nat :| FiveDigitsAt(t, i);
      FiveDigitsWiden(line, t, k, i);
    }
    if exists i: nat :: FiveDigitsAt(line, i) {
      var i: nat :| FiveDigitsAt(line, i);
      FiveDigitsNarrow(line, t, k, i);
    }
  }

  /** How the process ends: `exit(code)`, or Node's crash on the rejection
      of `main()`'s promise, which nothing awaits. */
  datatype Termination = Exited(code: nat) | UnhandledRejection(error: ErrorKind)

  /** `main`: the answered line is trimmed and checked; a rejected line
      prints an error and exits with status 1 before any scraping; an
      accepted one is scraped for, the records are dropped, and the
      process exits with the default status 0. */
  method RunMain(line: string, scrape: string -> Result<seq<AdvisorInfo>>)
    returns (ending: Termination, scrapedFor: Option<string>, printed: seq<string>)
    ensures !AcceptsZip(line) ==> ending == Exited(1) && scrapedFor == None && printed == ["Error: not a valid zip code"]
    ensures AcceptsZip(line) ==> scrapedFor == Some(Trim(line)) && printed == []
    ensures AcceptsZip(line) && scrape(Trim(line)).Ok? ==> ending == Exited(0)
    ensures AcceptsZip(line) && scrape(Trim(line)).Err? ==> ending == UnhandledRejection(scrape(Trim(line)).error)
  {
    var zip := Trim(line);
    printed := [];
    if !HasFiveDigits(zip) {
      printed := printed + ["Error: not a valid zip code"];
      return Exited(1), None, printed;
    }
    var result := scrape(zip);
    scrapedFor := Some(zip);
    match result
    case Err(e) => ending := UnhandledRejection(e);
    case Ok(_) => ending := Exited(0);
  }
}
