# advisor-scraper, modelled in Dafny

advisor-scraper asks for a US zip code and collects financial advisors near it from several brokerage sites. It returns one `AdvisorInfo` record per advisor: name, email, address, city, state, phone number and web sites. The files below model that repository's logic: how the answers of the sites become records. The browser, the network, cheerio and `JSON.parse` become inputs: the strings, string lists and small records those calls hand back.

- **`scrape`** (`Orchestrator`) runs the registered finders and concatenates their records in registration order. One rejected finder rejects the whole call.
- **Finders** (one module each):
  - `EdwardJones`: the API results; the `sites` list is built with nested loops.
  - `Ameriprise`: a search page and detail pages, each fetched with its own retries.
  - `Stifel`: link batches, then an HTML fetch with a browser fallback.
  - `Schwab`: consultant links taken from `javascript:` hrefs, and a branch-information pattern.
  - `Lpl`: result rows, title-cased names, and a city-state line.
- **The older compiled variant** (`EdwardJonesPaged`): it counts result pages and builds one page URL per page on a shared URL object, here a `SearchUrl` class.
- **The command line** (`Cli`): the zip check and how the process ends.

Every regular expression the code uses has a hand-written matcher. Each matcher is specified the way a backtracking engine chooses:
- the leftmost start;
- for greedy quantifiers, the longest span;
- for lazy quantifiers, the shortest;
- an optional group is tried present first.

JavaScript's own semantics are written out:
- `trim` and `\s` use the full white-space set;
- `.` excludes line terminators;
- `\w` and `\d` are ASCII;
- `replace` with a string pattern replaces only the first occurrence;
- `prefix + undefined` yields the text "undefined".

Shared modules:
- `Basics`: Option, Result, `MapAll` for `Promise.all` and the like;
- `Search`: least index, greatest end, leftmost-longest span;
- `Seqs`: flatten, filter, join;
- `Text`: character classes, trim, replace, lines, decimals;
- `Records`: `AdvisorInfo`, anchors;
- `Retry`: the self-recursive retry with its ceiling of 5.

Three facts about the code shape the model:
- `scrape` has no per-finder failure isolation: one rejected finder rejects the whole call;
- nothing merges or removes duplicate records;
- the zip check is an unanchored search for five digits, so "123456" and "ab12345" pass.

## Model

| member | source | states |
|---|---|---|
| Basics.MapAll | scrape.ts:62-64 | `Promise.all` over a list fulfils exactly when every call fulfils. Its values are the calls' values, one per element, in list order. |
| Basics.MapAllFirstError | scrape.ts:62-64 | When calls fulfil up to position i and the call at i rejects, the whole rejects with that call's error. |
| Basics.MapAllRejectsWith | scrape.ts:542-587 | The whole rejects only with an error that one of the calls rejects with. |
| Search.FirstIndex | scrape.ts:501 | The least index in a range with a property (a lazy quantifier, a leftmost start), or none when no index has it. |
| Search.LongestEnd | scrape.ts:289 | The greatest end a greedy run from p can reach, or none. |
| Search.LeftmostLongestFrom | scrape.ts:101 | The span a backtracking engine reports for a pattern with a greedy part: it has the least start, and no other span at that start ends later; none exactly when no span matches. |
| Seqs.FlattenLength | scrape.ts:62-64 | `.flat()` has as many elements as the blocks together. |
| Seqs.FlattenAppend | scrape.ts:62-64 | Flattening a concatenation of block lists concatenates the flattened lists. |
| Seqs.FlattenSnoc | scrape.ts:245-249 | Adding one block at the end appends its elements. |
| Seqs.FlattenBlock | scrape.ts:93-97 | Element k of block i sits after all elements of the blocks before i. |
| Seqs.Filter | scrape.ts:218-220 | `.filter` keeps only elements that pass, every element that passes, at most as many as were given. |
| Seqs.FilterAppend | scrape.ts:218-220 | Filtering a concatenation concatenates the filtered parts. |
| Seqs.FilterKeepsAll | scrape.ts:218-220 | A filter changes nothing exactly when every element passes. |
| Seqs.FilterIdempotent | scrape.ts:218-220 | Filtering twice is filtering once. |
| Seqs.JoinLength | scrape.ts:282-286 | `join(sep)` of n parts adds exactly n - 1 separators. |
| Text.TrimStart | scrape.ts:489 | Removes exactly the leading white space: the result is a suffix, and what was removed is all white space. |
| Text.TrimEnd | scrape.ts:489 | Removes exactly the trailing white space. |
| Text.Trim | scrape.ts:489 | `trim()` is no longer than the text, and its ends are not white space. |
| Text.TrimOffset | scrape.ts:489 | Where the trim starts: everything before it is white space, and the character there is not. |
| Text.TrimSlice | scrape.ts:489 | `trim()` is the contiguous piece of the text between its leading and its trailing white space, and everything after that piece is white space. |
| Text.TrimKeeps | scrape.ts:489 | A text whose ends are not white space is its own trim. |
| Text.TrimIdempotent | scrape.ts:548 | Trimming twice is trimming once. |
| Text.TrimSpaceCons | scrape.ts:495 | A leading white-space character makes no difference to the trim. |
| Text.TrimStartPadded | scrape.ts:548 | White space before a text that starts with something else is exactly what the start trim removes. |
| Text.TrimEndPadded | scrape.ts:548 | White space after a text that ends with something else is exactly what the end trim removes. |
| Text.TrimPadded | scrape.ts:548 | The trim of lead + x + trail, with white-space lead and trail and x's ends not white space, is x. |
| Text.DigitsTrimmed | scrape.ts:495 | A run of digits is its own trim. |
| Text.DigitsAfterSpaceTrimmed | scrape.ts:493-495 | A space followed by digits trims to the digits. |
| Text.TrimWithout | scrape.ts:490-495 | Trimming introduces no character that the text did not have. |
| Text.IndexOf | scrape.ts:209-212 | The first position where the pattern occurs, or none when it does not occur. |
| Text.NoOccurrenceOfChar | scrape.ts:560 | A one-character pattern that does not occur before n leaves that character out of the first n characters. |
| Text.ReplaceFirst | scrape.ts:209-212 | `replace` with a string pattern rewrites only the first occurrence; without one, the text is unchanged. |
| Text.ReplaceFirstAtStart | scrape.ts:493 | A pattern at the very start is the occurrence replaced: the rest follows the replacement unchanged. |
| Text.ReplaceFirstAtEnd | scrape.ts:209-212 | Deleting a pattern appended to text it cannot start inside gives the text back. |
| Text.CollapseKeepsEnds | scrape.ts:548-549 | Making the first double space single never lengthens a text, and keeps ends that are not white space. |
| Text.CollapseBetweenWords | scrape.ts:549 | In first + "  " + last, with no white space in first, the double space made single is the one after first. |
| Text.DigitsOnly | scrape.ts:278-281 | `replaceAll(/\D/g, "")` leaves only digits; a text of digits is unchanged; one character is kept exactly when it is a digit. |
| Text.DigitsOnlyAppend | scrape.ts:278-281 | Digits are kept piece by piece: with the one-character case this fixes the result as the digits of the text in order. |
| Text.RemoveAll | scrape.ts:494 | `replaceAll("-", "")` leaves no '-'; a text without '-' is unchanged; one character is dropped exactly when it is '-'. |
| Text.RemoveAllAppend | scrape.ts:494 | Removal works piece by piece, so the other characters keep their order. |
| Text.FirstLine | scrape.ts:556-560 | `split("\n")[0]` has no line feed, and is the whole text or the part before its first line feed. |
| Text.SecondLine | scrape.ts:562-566 | `split("\n")[1]` is undefined exactly when there is no line feed. Otherwise it is the first line of what follows the first line feed. |
| Text.Decimal | out/scrape.js:51 | `i.toString()` is a non-empty string of digits. It starts with '0' exactly when i is 0, and is then "0". |
| Text.DecimalRoundTrip | out/scrape.js:48-51 | Reading a numeral back with `+` gives the number written. |
| Text.DecimalInjective | out/scrape.js:50-53 | Distinct page numbers have distinct numerals. |
| Text.NumberOfLeadingNonZero | out/scrape.js:48 | A numeral that starts with a non-zero digit denotes a positive number. |
| Text.NumeralRoundTrip | out/scrape.js:48-51 | A numeral without leading zeros, read and written back, is itself. |
| Records.Concat | scrape.ts:146-150 | `prefix + value` starts with the prefix, and a missing value is appended as "undefined". |
| Records.FirstWithHrefPrefix | scrape.ts:202-206 | `.filter(href startsWith p).first()`: rejects with a TypeError exactly when some anchor has no href. Otherwise it gives the first anchor whose href starts with p, or none when no anchor does. |
| Retry.RetryFrom | scrape.ts:164-181 | The retry chain settles at the first counter value, up to 5, whose attempt does not retry; every earlier attempt retried. It is abandoned exactly when every attempt from the start to 5 retried. |
| Retry.AttemptsMade | scrape.ts:115-131 | A chain started at 0 makes at most 6 attempts. |
| Retry.AttemptsMatchCounter | scrape.ts:130 | Each retry raises the counter by exactly 1: a settled chain made counter - start + 1 attempts, an abandoned one 6 - start. |
| Retry.RetryIgnoresLaterAttempts | scrape.ts:168-171 | Attempts past counter 5 are never made: they cannot change the outcome. |
| Orchestrator.RunFinders | scrape.ts:62-64 | Fulfils exactly when every finder fulfils. The value is the finders' records flattened in list order, as many as the finders returned together. A rejection carries the error of one of the finders. |
| Orchestrator.Scrape | scrape.ts:51-65 | `scrape` fulfils exactly when every registered finder fulfils; a rejection carries a registered finder's error; fulfilled, it holds as many records as the finders gave together. |
| Orchestrator.ScrapeFulfilsIffAllFinders | scrape.ts:53-64 | No failure isolation: `scrape` fulfils exactly when all five registered finders fulfil. |
| Orchestrator.ScrapeConcatenates | scrape.ts:53-64 | `scrape` gives Edward Jones + Ameriprise + Stifel + Schwab + LPL records, concatenated, nothing merged or removed. |
| Orchestrator.ScrapeRejectsWithFinder | scrape.ts:62-64 | A rejected finder rejects `scrape` with its own error when the finders before it fulfilled. |
| Orchestrator.ScrapeIgnoresDisabledFinders | scrape.ts:53-61 | Janney and Raymond James are not run: only the registered finders decide the outcome. |
| Orchestrator.ScrapeCompiled | out/scrape.js:30-36 | The compiled `scrape` fulfils exactly when Edward Jones does, and rejects with its error. |
| Orchestrator.ScrapeCompiledIsEdwardJones | out/scrape.js:30-36 | The compiled `scrape` settles exactly as its one finder, Edward Jones, does. |
| EdwardJones.BuildSites | scrape.ts:91-98 | The nested `push` loops build the profile URL, then every social-media value in order. |
| EdwardJones.SitesOf | scrape.ts:91-98 | `sites` is the profile URL followed by one entry per social-media value, each of them such a value. |
| EdwardJones.SitesShape | scrape.ts:91-98 | `sites` starts with the origin + `faUrl` and continues with the social-media values. It is that one element when `socialMedia` is "", and has 1 + the number of values otherwise. |
| EdwardJones.SiteOfProperty | scrape.ts:93-97 | Property k of social-media object i lands right after the properties of the earlier objects. |
| EdwardJones.CityStateZipUnique | scrape.ts:101 | At a given start, `, [^,]+, \w{2} \d{5}` can end only one way. |
| EdwardJones.StripCityStateZip | scrape.ts:101 | The leftmost match of the pattern is cut out, and only it; without a match the address is unchanged. |
| EdwardJones.EdwardJonesRecords | scrape.ts:90-107 | Exactly one record per API result, in order. |
| EdwardJones.EdwardJonesRecord | scrape.ts:90-106 | Name, phone, city and state are copied unchanged and no email is set. The sites are exactly SitesOf of the profile URL and the social media: the profile URL, then every social value in order. The address is the API's address with its first city-state-zip match cut out, so it is no longer. |
| Ameriprise.AdvisorPageUrls | scrape.ts:146-150 | One detail URL per visit button, in order: the origin + href. |
| Ameriprise.Present | scrape.ts:161 | Abandoned (undefined) pages are dropped. Every record kept came from a page, and every page's record is kept. |
| Ameriprise.PresentInOrder | scrape.ts:161 | The records kept are the pages that were not abandoned, one for one and in their order. |
| Ameriprise.Email | scrape.ts:202-206 | Rejects exactly when a contact anchor has no href. Undefined exactly when no href starts with "mailto:". Otherwise it is the first mailto href after its 7-character prefix. |
| Ameriprise.AmeripriseSites | scrape.ts:218-220 | `sites` is `[url, ...sameAs]` with the empty strings dropped, in order; when none is empty, it is all of them. |
| Ameriprise.AmeripriseRecord | scrape.ts:208-221 | The name is the FinancialService name with the first occurrence of the firm suffix removed, so it is no longer. Street, locality, region and telephone are copied unchanged as address, city, state and phone. The email is the one found. The sites are non-empty entries of `[url, ...sameAs]`, at most one per entry. |
| Ameriprise.AmeripriseNameSuffix | scrape.ts:209-212 | A name ending in " - Ameriprise Financial Services, LLC" loses that suffix, whenever the part before it holds no " -" (where the suffix could start earlier). |
| Ameriprise.AmeripriseHyphenatedName | scrape.ts:209-212 | "Ann Smith-Jones" with the suffix gives "Ann Smith-Jones": a hyphen inside the name is no obstacle. |
| Ameriprise.AmeripriseNameKept | scrape.ts:209-212 | A name without the suffix is unchanged. |
| Ameriprise.AdvisorPage | scrape.ts:164-222 | A page is undefined exactly when every fetch up to the ceiling threw a TypeError. Once a fetch settles: a non-TypeError fetch error gives SyntaxError; otherwise a parse failure gives its error; otherwise a contact anchor without an href gives TypeError; otherwise the result is AmeripriseRecord of the parsed FinancialService and the email found. |
| Ameriprise.AdvisorPageAbandoned | scrape.ts:168-181 | A detail page whose every fetch up to the ceiling throws a TypeError yields undefined, not an error. |
| Ameriprise.AdvisorPageOtherError | scrape.ts:173-193 | Any other fetch error is not retried: the page is parsed from the empty markup, and `JSON.parse("")` rejects with a SyntaxError. |
| Ameriprise.AmeripriseSearchGivesUp | scrape.ts:115-131 | A search that throws on every attempt up to the ceiling gives no records. |
| Ameriprise.AmeripriseAdvisors | scrape.ts:110-161 | A rejection comes from a search that loaded, and carries the error of one of its visit buttons' detail pages. Records come only from a search that loaded before the ceiling. |
| Ameriprise.AmeripriseRecordsFromPages | scrape.ts:146-161 | Once the search loads, the finder fulfils exactly when every detail page does. Its records are the pages' records in visit-button order, the abandoned pages dropped. |
| Stifel.CollectAdvisorPages | scrape.ts:235-250 | The loop that reassigns `advisorPages` ends with the first page's links followed by every later batch, in order. |
| Stifel.AdvisorPagesInOrder | scrape.ts:235-250 | The collected links are the first page's links followed by the later batches flattened. Their number is the sum of the batch sizes. |
| Stifel.MiddleLines | scrape.ts:282-283 | `.slice(1, -2)` drops the first and the last two lines, and is empty for three lines or fewer. |
| Stifel.TrimAll | scrape.ts:284 | Every address line is trimmed, one for one. |
| Stifel.MatchCityState | scrape.ts:287-291 | `(\w+), (\w+)` picks the leftmost start and the longest city. None exactly when nothing matches. The state run stops only at a non-word character or the end. |
| Stifel.CityStateOfPlainText | scrape.ts:287-291 | "City, ST" gives exactly that city and that state. |
| Stifel.OriginAndPath | scrape.ts:292 | The site is the URL up to its query or fragment: a prefix of the URL with no '?' or '#'. |
| Stifel.StifelRecord | scrape.ts:277-301 | The name is the concatenated name texts. The address is the middle address lines, each trimmed, joined with ", ". The phone is the digits of the first phone text. City and state are CityStateGroups of the second-to-last address line. They are set together, and not at all with fewer than two address lines. Three or fewer address lines give an empty address. The one site is the URL without query or fragment, and there is no email. |
| Stifel.CityStateLine | scrape.ts:287 | `.get(-2)` is the second-to-last address element, or the empty text with fewer than two. |
| Stifel.CityStateGroups | scrape.ts:287-291 | Without a match both groups are undefined; with one they are the city run and the state run of that match; the empty text has no match. |
| Stifel.StifelRecordOfLines | scrape.ts:282-291 | Address lines "first, middle..., City, ST, last" give the trimmed middle lines joined with ", " as the address, with that city and state. |
| Stifel.StifelPage | scrape.ts:265-275 | The fetched markup is used when it has a name element; otherwise the browser-rendered markup is used. A failed fetch or render rejects. |
| Stifel.StifelAdvisors | scrape.ts:254-258 | Fulfils exactly when every collected link's page does, with one record per link, in link order, as many as the batches hold together. A rejection carries a page's error. |
| Schwab.QuotedArgument | scrape.ts:473 | `/\('(.+)'\)/` has no group exactly when no `('…')` span lies on one line. Otherwise the group is the inside of the span with the least start and, at that start, the greatest end. |
| Schwab.QuotedArgumentOfCall | scrape.ts:469-475 | An href `f('x')` yields exactly x, even when x holds quotes or parentheses. |
| Schwab.ConsultantLinks | scrape.ts:469-475 | Rejects with a TypeError exactly when an anchor has no href. Otherwise there is one link per anchor: the base + the quoted argument, or "undefined" when there is none. |
| Schwab.Tail | scrape.ts:501 | The lazy run after the state ends at the first `<br>` that a phone number follows. |
| Schwab.City | scrape.ts:501 | The lazy city group ends at the least position that leads to a full match. |
| Schwab.Rest | scrape.ts:501 | The optional address2 is taken when any full match has it, with its shortest choice. Only otherwise is it left out, and then the two `<br>` tokens around it meet: `<br><br>` must follow address1. |
| Schwab.Address1 | scrape.ts:501 | The lazy address1 group ends at the least position that leads to a full match. A match without address2 needs `<br><br>` after address1. |
| Schwab.MatchBranch | scrape.ts:496-502 | The reported match is a match of the pattern, and no other match comes before it in the engine's order. None exactly when nothing matches. A match has five `<br>` tags: with address2 each group has its own, and without it `<br><br>` follows address1. |
| Schwab.Groups | scrape.ts:501-502 | address1 is non-empty and on one line, address2 is present exactly when matched, and the state is two word characters. Without address2 the city starts after the `<br><br>` that follows address1. |
| Schwab.BranchGroupsOf | scrape.ts:496-502 | The groups exist exactly when the paragraph exists and matches; then the state has two characters and address1 is non-empty. |
| Schwab.FourBrTags | scrape.ts:501 | In `"<br>" + a1 + "<br>" + city + "<br>" + tail + "<br>" + phone`, with no '<' in the parts, the only `<br>` tags are the four it is built with. |
| Schwab.FourBrParagraphUnmatched | scrape.ts:501 | Such a four-tag paragraph never matches. The pattern needs five `<br>` tags: one per group with address2, and `<br><br>` after address1 without it. |
| Schwab.FourBrExample | scrape.ts:501 | `"<br>A<br>C<br>ST.<br>123-456-7890"` does not match. |
| Schwab.NoSuiteTags | scrape.ts:501 | In `"<br>" + a1 + "<br><br>" + city + "<br>" + tail + "<br>" + phone`, with no '<' in the parts, the only `<br>` tags are the five it is built with. |
| Schwab.MatchWithoutAddress2 | scrape.ts:501 | A text made of `<br>`, address1, `<br><br>`, the city, `<br>`, a state line of two word characters and more, `<br>` and a phone number matches the pattern with address2 absent, read off the positions of those five tags. |
| Schwab.NoSuiteMatches | scrape.ts:501 | Such a paragraph, with one-line non-empty a1 and city, a tail of two word characters and more, and a phone number, matches with address2 absent. |
| Schwab.NoSuiteFirstMatch | scrape.ts:496-502 | That match is the one reported: address1 is a1, address2 is absent, and the city ends at its own `<br>`. |
| Schwab.NoSuiteParagraphGroups | scrape.ts:496-502 | The groups of such a paragraph are a1, no address2, the city, and the first two characters of the tail. |
| Schwab.NoSuiteExample | scrape.ts:496-502 | `"<br>A<br><br>C<br>ST.<br>123-456-7890"` gives address1 "A", no address2, city "C" and state "ST". |
| Schwab.BranchAddress | scrape.ts:503-505 | The address is address1, or address1 + ", " + address2, and "" when there is no match; with a non-empty address1 it is non-empty. |
| Schwab.SchwabPhone | scrape.ts:490-495 | The phone is the text with its first "+1" removed, then every '-' removed, then trimmed. So it has no '-' and no white space at its ends. |
| Schwab.SchwabPhoneOfNumber | scrape.ts:490-495 | "+1 ddd-ddd-dddd" gives exactly its digits. |
| Schwab.SchwabPhoneWithoutPrefix | scrape.ts:490-495 | Without a "+1", the text only loses its '-' characters and its outer white space. |
| Schwab.SchwabRecord | scrape.ts:489-517 | The name is the trimmed heading. The phone is SchwabPhone of the first phone text. The address is BranchAddress of the paragraph's groups: address1, joined to address2 with ", " when it is present. With a match, city and state are the groups. City and state are set together, exactly when the branch paragraph matches. Without a match the address is "". Sites are `[url]`, and there is no email. |
| Schwab.FourBrRecord | scrape.ts:496-508 | A branch paragraph with four `<br>` tags gives no city, no state and the address "". |
| Schwab.NoSuiteRecord | scrape.ts:496-508 | A branch paragraph without a suite line gives address1 as the address, with the paragraph's city and state. |
| Schwab.SuiteTags | scrape.ts:501 | In `"<br>" + a1 + "<br>" + a2 + "<br>" + city + "<br>" + tail + "<br>" + phone`, with no '<' in the parts, the only `<br>` tags are the five it is built with. |
| Schwab.MatchWithAddress2 | scrape.ts:501 | Such a text, with one-line non-empty a1, a2 and city, a tail of two word characters and more, and a phone number, matches with address2 present. |
| Schwab.SuiteFirstMatch | scrape.ts:496-502 | That match is the one reported: address1 is a1 and address2 is a2. |
| Schwab.SuiteParagraphGroups | scrape.ts:496-502 | The groups of such a paragraph are a1, a2, the city, and the first two characters of the tail. |
| Schwab.SuiteRecord | scrape.ts:496-508 | A branch paragraph with a suite line gives `a1 + ", " + a2` as the address, with the paragraph's city and state. |
| Schwab.SchwabAdvisors | scrape.ts:469-482 | A missing href rejects with a TypeError. Otherwise the finder fulfils exactly when every link's page does, with one record per link in order; a rejection carries a page's error. |
| Lpl.TitleCaseFrom | scrape.ts:550-555 | Capitalising keeps the length. |
| Lpl.TitleCase | scrape.ts:550-555 | The capitalised name has the length of its input. |
| Lpl.CarriedCons | scrape.ts:551 | The matcher's state after a first character and then t is its state after t, started from the state that character leaves. |
| Lpl.CarriedMeansOpenMatch | scrape.ts:551 | A `\w\S*` match is under way after t exactly when t ends in a run without white space that holds a word character. |
| Lpl.OpenMatchSnoc | scrape.ts:551 | A run without white space continues through one more character exactly when it is not white space, and holds a word character when that one is or the run before did. |
| Lpl.TitleCaseAt | scrape.ts:550-555 | Position by position: the word character that starts a match is upper-cased, the rest of a match lower-cased, everything else kept. |
| Lpl.TitleCaseIdempotent | scrape.ts:550-555 | Capitalising a capitalised name changes nothing. |
| Lpl.RecaseKeepsSpace | scrape.ts:550-555 | Capitalising a character keeps it white space exactly when it was. |
| Lpl.TitleCaseKeepsEnds | scrape.ts:550-555 | A text whose ends are not white space keeps that shape when capitalised. |
| Lpl.TitleCaseFromAppend | scrape.ts:550-555 | Capitalising x + y capitalises x, then y from the state x leaves the matcher in. |
| Lpl.LplName | scrape.ts:545-555 | The name is TitleCase of the trimmed text with its first double space made single. It is no longer than the text, neither of its ends is white space, and it is already capitalised: capitalising it again changes nothing. |
| Lpl.LplNameOfTwoWords | scrape.ts:545-555 | Two words without white space, padded with white space and parted by a double space, come out as the two words capitalised with one space between them. |
| Lpl.TitleCaseJohnSmith | scrape.ts:550-555 | `"jOHN SMITH"` is capitalised to `"John Smith"`. |
| Lpl.LplNameExample | scrape.ts:545-555 | `"  jOHN  SMITH "` gives the name `"John Smith"`. |
| Lpl.MatchCityState | scrape.ts:562-568 | `(.+), (\w{2}) \d{5}` picks the leftmost start and the longest city; none exactly when nothing matches. |
| Lpl.CityAndState | scrape.ts:568-570 | City and state are set together, exactly when the line matches; the state is two word characters. |
| Lpl.CityStateOfPlainLine | scrape.ts:562-570 | "City, ST 12345" gives that city and state, even when the city holds commas. |
| Lpl.LplRecord | scrape.ts:543-586 | A row throws a TypeError exactly when its address has a single line or a contact anchor lacks an href. Otherwise the name is LplName of the name text, the address is the first line of the trimmed address text, city and state are CityAndState of its trimmed second line, the phone is the digits of the first `tel` anchor's text, the email is the email text, and there are no sites. |
| Lpl.TwoLines | scrape.ts:556-566 | Two lines parted by a line feed are `split("\n")[0]` and `split("\n")[1]`. |
| Lpl.StreetOverLine | scrape.ts:556-566 | A street line over a city-state line, with non-space ends, is its own trim, and splits into those two lines. |
| Lpl.TelFirst | scrape.ts:571-576 | When no anchor lacks an href and the first is a `tel:` link, the `tel` filter's first anchor is the first one. |
| Lpl.LplRecordOfRow | scrape.ts:543-586 | A row whose address is a street line over a city-state line, with the `tel` anchor first, gives the street as the address, CityAndState of the line, and the digits of that anchor's text. |
| Lpl.LplAdvisors | scrape.ts:542-587 | One record per row, in order, when no row throws; the first throwing row rejects with a TypeError. |
| EdwardJonesPaged.Without | out/scrape.js:51 | Removing a name's pairs leaves none of it and keeps every other name's value. |
| EdwardJonesPaged.SetParam | out/scrape.js:51 | `set` leaves a non-empty parameter list that grows by at most one pair. |
| EdwardJonesPaged.SetParamLookup | out/scrape.js:51 | After `searchParams.set(name, v)` the name has value v and occurs once; other names keep their values. |
| EdwardJonesPaged.SetParamKeepsOthers | out/scrape.js:51 | `set` keeps the other pairs in their order. |
| EdwardJonesPaged.WithoutIdempotent | out/scrape.js:51 | Removing a name twice is removing it once. |
| EdwardJonesPaged.SetParamTwice | out/scrape.js:50-53 | Setting `page` again overwrites it: the last value set wins. |
| EdwardJonesPaged.SearchUrl.Set | out/scrape.js:51 | The shared URL object's parameters become the `set` of the old ones. |
| EdwardJonesPaged.SearchUrl.Href | out/scrape.js:52 | `toString()` starts with the base URL, and is exactly the base when there are no parameters. |
| EdwardJonesPaged.MatchResults | out/scrape.js:48 | `of (\d+) Results` picks the leftmost match. None exactly when the text has no such match. |
| EdwardJonesPaged.TotalResults | out/scrape.js:48-49 | The total defaults to 0 when the text has no match. |
| EdwardJonesPaged.ResultsEndUnique | out/scrape.js:48 | A match has one end: the digit run is followed by " Results". |
| EdwardJonesPaged.PagerMatch | out/scrape.js:48 | In a pager text "… of N Results …" with no "of " before it, the match starts at that "of" and its digit run is the numeral. |
| EdwardJonesPaged.NoPagerStartBefore | out/scrape.js:48 | An "of " cannot start inside a prefix that has none when an 'o' follows the prefix. |
| EdwardJonesPaged.TotalResultsOfPager | out/scrape.js:48-49 | A pager text "… of N Results …" with no "of " before it gives N. |
| EdwardJonesPaged.PageCount | out/scrape.js:50 | `ceil(total / 16) + 1` is at least 1. Its pages minus one cover the total at 16 per page, and one page fewer would not. |
| EdwardJonesPaged.SearchPages | out/scrape.js:50-53 | Page i, for i from 0 to count - 1, is the URL with the old query and `page=i` set. The shared URL keeps the last page set. |
| EdwardJonesPaged.SearchPagesDiffer | out/scrape.js:50-53 | Distinct pages carry distinct `page` values and agree on every other parameter. |
| EdwardJonesPaged.SearchPageLinks | out/scrape.js:59-78 | Abandoned after the retries gives no links. Otherwise there is one link per anchor, in order: the origin + href. |
| EdwardJonesPaged.SearchPageKeepsOtherErrors | out/scrape.js:65-75 | A navigation error other than a timeout is not retried: the links of that attempt's page are read. |
| EdwardJonesPaged.SearchPageGivesUp | out/scrape.js:60-63 | Timeouts on every attempt up to the ceiling give no links. |
| EdwardJonesPaged.SearchQuery | out/scrape.js:39-41 | The query is `fasearch` = zip, `searchtype` = 2, then `page`. |
| EdwardJonesPaged.ScrapeEdwardJones | out/scrape.js:38-58 | It always returns no advisors. It builds one search page per counted page, with `page=i`, and collects every page's links. |
| Cli.HasFiveDigits | index.ts:12 | `/\d{5}/` matches exactly when five consecutive digits occur anywhere. |
| Cli.AcceptsZip | index.ts:11-12 | A line is accepted exactly when its trimmed form holds five consecutive digits. |
| Cli.AcceptsLongerRun | index.ts:12 | "123456" is accepted. |
| Cli.AcceptsSurroundedRun | index.ts:12 | "ab12345" is accepted. |
| Cli.RejectsFourDigits | index.ts:12-15 | "1234" is rejected. |
| Cli.TrimKeepsFiveDigits | index.ts:11-12 | Trimming does not change acceptance, since white space is never a digit. |
| Cli.RunMain | index.ts:5-22 | A rejected line prints the error and exits with 1 without scraping. An accepted one scrapes for the trimmed line and exits with 0, or dies on the unhandled rejection when `scrape` rejects. |

## Left out

- Browser and network I/O become inputs: puppeteer navigation, waits, clicks and typing, `fetch`, cheerio queries and `JSON.parse`. The loop that clicks "next page" or "load more" becomes a given list of link batches.
- Timing and concurrency become list order. `Promise.all` and bluebird's `map` (concurrency 20 or 10) are modelled by list order: the rejection reported is the first in list order, not the first in time.
- The Ameriprise JSON-LD selection (`@type`, `@graph`) is a `parse` input that yields the `FinancialService` and the contact anchors.
- `scrapeJanney` and `scrapeRaymondJames` are not modelled: they are commented out of the finder list. The debug `writeFile` dumps and `console.log` are left out too.
- Stifel.OriginAndPath: does not normalise the URL as `new URL` does (adding a "/" path or lower-casing the host). It keeps the text up to the query or fragment.
- EdwardJonesPaged.SearchUrl.Href: the query is joined as `name=value` pairs without form percent-encoding. The base URL has no query of its own.
- EdwardJonesPaged.TotalResults: numbers beyond 2^53 lose no precision here, unlike JavaScript numbers.
- Lpl.TitleCase: the upper- and lower-casing is ASCII only. `toLocaleLowerCase` also lower-cases non-ASCII letters.
- EdwardJones.SitesOf: a social-media object is an ordered list of pairs. JavaScript's `for…in` key order is taken as given.
- Strings are sequences of Unicode scalar values, not UTF-16 code units.
- Cli.RunMain: the readline prompt is the `line` input. The unhandled rejection is an outcome, not Node's exit status.
- An `AdvisorInfo` field that the source leaves `undefined` is `None`. LPL records have no `sites` field, so their `sites` is `None`.
