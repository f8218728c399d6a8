# kijiji_v2 in Dafny

A model of the core of kijiji_v2, a scraper for apartment listings on kijiji.ca. It has three
parts.

- **The extraction pass** (`kijiji_v2/process.py`). It turns one stored listing page into an
  `ApartmentDetails` record: price, bathrooms, rooms, address, date, description and headline.
  The batch loop of `run` keeps the records whose extraction did not raise and counts, per
  field, how many kept records have it.
- **The crawl frontier** (`kijiji_v2/scrape.py`). It covers three pieces:
  - `rate_limited_get` and its three attempts;
  - the start URL of an origin;
  - the work-list traversal of `crawl`. It fetches page 0 of every origin, then visits the
    result pages in order. It files each listing URL not seen before under the page's origin
    and appends the next result page when there is a "Suivante" link.
- **The Scrapy spider** (`kijiji_v2/spiders/apartment_spider.py`). Its `start_requests`,
  `listing` and `apartment_details` callbacks are modelled as the sequences of requests, or
  the item, that they yield.

Files:

- **Shared.** `results.dfy` (Option, Result), `text.dfy` (the Python `str` operations and the
  `\d+` regular expressions the source uses) and `html.dfy`. `html.dfy` models a parsed page
  as the list of elements each CSS query of the source returns. `scrape_config.dfy` holds the
  configured origins.
- **Extraction.** `process.dfy` (the `Extract` module) and `process_facts.dfy` (its
  properties).
- **Crawl.** `scrape.dfy`, `crawl_facts.dfy` (a worked two-origin traversal) and
  `worklist_facts.dfy` (the work list is determined by the origins and the site).
- **Spider.** `spider.dfy` and `spider_facts.dfy`.

Representation choices:

- **Rooms.** Room counts are exact rationals (`real`), as `fractions.Fraction` computes them
  before the final `float`.
- **Bathrooms.** Bathroom counts are a number of halves.
- **Price.** Prices are whole cents.
- **Parsers and the network.** The HTML parser, the two date parsers and the network are
  parameters. The network is a function from a URL and an attempt number to a response or an
  exception.

## Behaviour worth noting

- **Bathrooms.** `get_room_element` drops the first whitespace word of the label element's
  text (process.py:63).
  - A label element whose text is "2,5 Salles de bain" therefore gives no bathroom count: the
    dropped word is the count (`ExtractFacts.CountBeforeLabelDropped`).
  - When the text starts with the label, the count is read from what follows it
    (`ExtractFacts.BathroomsAfterLabel`).
- **Rooms.** The same dropped word turns "4 ½ Pièces" into "½ Pièces".
  - "Pièces" is then parsed as a fraction, which raises (process.py:118-121), so `run` skips
    the record (`ExtractFacts.CountBeforeRoomsLabelRaises`).
  - "Pièces 4 ½" gives 9/2 (`ExtractFacts.RoomsWithHalf`).
  - Room counts can be any fraction, such as "Pièces 1/3", not only multiples of one half.
- **The two-origin crawl.** Every origin's page 0 is fetched before the loop, and next pages
  are appended behind them (scrape.py:99-131).
  - Take origin A, whose page 0 links to {x, y} and to a next page, A's page 1, which links
    to {y, z}; and origin B, whose page 0 links to {z}.
  - The work list is A0, B0, A1, so B0 is visited before A1 and z is filed under B.
  - `CrawlFacts.TwoOriginScenario` proves the listings are (A, x), (A, y), (B, z).

## Model

| member | source | states |
|---|---|---|
| Html.Select | kijiji_v2/process.py:67-69 | `select` is none exactly when the query matches nothing, and otherwise the first match |
| Html.NewSelector | kijiji_v2/process.py:45-48 | a `Selector` holds the element `select` would return |
| Html.Selector.Text | kijiji_v2/process.py:50-51 | `text()` is none exactly when there is no element, and otherwise that element's text |
| Html.SelectorTextIsFirstMatch | kijiji_v2/process.py:45-51 | `Selector(tree, q).text()` is none exactly when `q` matches nothing, and otherwise the first match's text |
| Html.Get | kijiji_v2/process.py:138 | `element.get(name)` is the attribute's value, or none exactly when the element lacks it |
| Text.SearchNumber | kijiji_v2/process.py:83-84 | `re.search(r"(\d+)…")` finds nothing exactly when the text has no digit, and otherwise finds the leftmost, longest digit run |
| Text.NumberMatchUnique | kijiji_v2/process.py:83-84 | the leftmost-longest match is unique, so the search result is determined |
| Text.Split | kijiji_v2/process.py:63 | `str.split()` yields non-empty, whitespace-free words |
| Text.SplitWord | kijiji_v2/process.py:63 | a non-empty string without whitespace is one word |
| Text.SplitAllSpace | kijiji_v2/process.py:63 | a string made only of whitespace has no words |
| Text.SplitConcat | kijiji_v2/process.py:63 | across a whitespace boundary the words of a concatenation are the words of each part in turn; with SplitWord and SplitAllSpace this fixes `split()` on every string |
| Text.SplitConcatSpace | kijiji_v2/process.py:63 | the step of SplitConcat for a leading whitespace character |
| Text.SplitConcatWord | kijiji_v2/process.py:63 | the step of SplitConcat for a leading word |
| Text.SplitAfterSpace | kijiji_v2/process.py:63 | leading whitespace is skipped |
| Text.SplitAfterWord | kijiji_v2/process.py:63 | a word followed by whitespace or by nothing is the first word |
| Text.SplitJoin | kijiji_v2/process.py:63-64 | `split()` of words joined by single spaces gives back the words |
| Text.SplitOn | kijiji_v2/process.py:119 | `split(" ")` yields at least one piece and no piece contains a space |
| Text.SplitOnJoin | kijiji_v2/process.py:119 | `split(" ")` inverts `" ".join` on space-free pieces |
| Text.ReplaceJoin | kijiji_v2/process.py:118 | replacing "½" in a single-spaced text replaces it word by word |
| Text.Strip | kijiji_v2/process.py:131 | `strip()` never starts or ends with whitespace |
| Text.StripPadded | kijiji_v2/process.py:131 | `strip()` removes exactly the surrounding whitespace |
| Text.StripIdempotent | kijiji_v2/process.py:131 | stripping twice is stripping once |
| Text.ContainsAt | kijiji_v2/process.py:57 | `name in text` holds exactly when `name` occurs at some position |
| Extract.FirstWithText | kijiji_v2/process.py:55-60 | the first label element whose text contains the label: none exactly when no element does |
| Extract.GetRoomElement | kijiji_v2/process.py:54-64 | none exactly when no label element contains the label; otherwise the first such element's words after the first, joined by single spaces |
| ExtractFacts.LabelWords | kijiji_v2/process.py:54-64 | a single label element of single-spaced words yields its words minus the first, joined by spaces |
| Extract.KeepPriceChars | kijiji_v2/process.py:80-81 | the filter keeps only digits and commas, and keeps a digit exactly when there is one |
| ExtractFacts.KeepPriceCharsConcat | kijiji_v2/process.py:80-81 | the filter works character by character |
| ExtractFacts.FilterSkips | kijiji_v2/process.py:80-81 | a character that is neither a digit nor a comma is dropped |
| Extract.PriceOfText | kijiji_v2/process.py:78-92 | the price of a text is none exactly when the text has no digit |
| Extract.PriceOfKept | kijiji_v2/process.py:78-92 | the price read from the filtered text is none exactly when that text has no digit |
| ExtractFacts.PriceOfFiltered | kijiji_v2/process.py:78-92 | the price depends only on the digits and commas of the text: two texts with the same filtered characters have the same price |
| ExtractFacts.PriceOfMatch | kijiji_v2/process.py:83-92 | the price is the leftmost digit run times 100, plus the digits after an immediately following comma |
| ExtractFacts.PriceWithCents | kijiji_v2/process.py:83-92 | "<dollars>,<cents>" is dollars times 100 plus the cents as written |
| ExtractFacts.PriceIgnoresOtherChars | kijiji_v2/process.py:78-92 | spaces, "$" and other characters outside the filter do not change the price ("1 234,56 $" reads as "1234,56") |
| ExtractFacts.PriceCentsNotScaled | kijiji_v2/process.py:89-92 | the cents are not scaled: "12,5" is 1205 |
| Extract.ReadPrice | kijiji_v2/process.py:72-92 | no price element means no price; otherwise the price of the element's text |
| Extract.BathroomHalves | kijiji_v2/process.py:101-109 | the bathroom count is none exactly when the text has no digit |
| ExtractFacts.BathroomHalvesOfMatch | kijiji_v2/process.py:101-109 | the count in halves is twice the leftmost integer, plus one exactly when ",5" follows it |
| Extract.ReadNumBathrooms | kijiji_v2/process.py:95-109 | none for a missing or empty label text; otherwise the count of that text |
| ExtractFacts.BathroomsAfterLabel | kijiji_v2/process.py:95-109 | "Salles de bain <v>" is read from "de bain <v>" |
| ExtractFacts.CountBeforeLabelDropped | kijiji_v2/process.py:95-109 | "<count> Salles de bain" gives no bathroom count |
| ExtractFacts.BathroomsNeedLabel | kijiji_v2/process.py:95-99 | without an element containing the label there is no bathroom count |
| Extract.ParseFraction | kijiji_v2/process.py:121 | `Fraction(s)` raises with `s` as the culprit, and reads an all-digit string as its integer |
| ExtractFacts.ParseRatio | kijiji_v2/process.py:121 | `Fraction("a/b")` is exactly a / b for a non-zero denominator |
| ExtractFacts.UnsignedRatio | kijiji_v2/process.py:121 | the unsigned numeral "a/b" is exactly a / b |
| ExtractFacts.ParseUnsigned | kijiji_v2/process.py:121 | a numeral without a leading sign has the value of its unsigned reading |
| ExtractFacts.UnsignedPoint | kijiji_v2/process.py:121 | the unsigned numeral "a.b" is the decimal a.b, for digit strings not both empty |
| ExtractFacts.ParsePoint | kijiji_v2/process.py:121 | `Fraction("a.b")` is the decimal a.b for digit strings not both empty ("1.", ".5", "2.25") |
| ExtractFacts.ParseSigned | kijiji_v2/process.py:121 | for an unsigned part s, "-" + s and "+" + s are fractions exactly when s is; "-" negates its value and "+" keeps it |
| ExtractFacts.ParseFractionRejects | kijiji_v2/process.py:121 | a part holding a character that is not whitespace, a digit, a sign or one of "/", ".", "e", "E", "_" raises; `fractions.Fraction` raises on such a part too, except for the non-ASCII digits noted under Left out |
| ExtractFacts.UnsignedRejects | kijiji_v2/process.py:121 | after the sign, a numeral holding a character that is not whitespace, a digit or one of "/", ".", "e", "E", "_" (a second sign included) is not a fraction; `fractions.Fraction` agrees except for a sign right after an exponent mark and non-ASCII digits |
| ExtractFacts.ParseFractionRejectsLead | kijiji_v2/process.py:121 | a part that starts with a character other than whitespace, a digit, ".", "+" or "-" raises, as in `fractions.Fraction` for every character but the non-ASCII digits |
| ExtractFacts.HalfFraction | kijiji_v2/process.py:118-121 | "1/2", the replacement of "½", is exactly one half |
| Extract.SumFractionsSpec | kijiji_v2/process.py:121 | the sum succeeds exactly when every part is a fraction; otherwise it fails on the first part that is not |
| Extract.FirstBadPartCons | kijiji_v2/process.py:121 | behind a part that parses, the first bad part of the rest is the first bad part |
| ExtractFacts.SumFractionsConcat | kijiji_v2/process.py:121 | the sum of two runs of parts that both parse is the sum of their sums; with SumSingle this gives the value of every successful sum |
| ExtractFacts.SumSingle | kijiji_v2/process.py:121 | a single part that parses sums to its value |
| ExtractFacts.SumStep | kijiji_v2/process.py:121 | a successful sum is its first part's value plus the sum of the others |
| ExtractFacts.SumConsValue | kijiji_v2/process.py:121 | a parsing first part ahead of a successful sum adds its value |
| ExtractFacts.SumSecondFails | kijiji_v2/process.py:121 | when the first part parses and the second does not, the sum fails on the second |
| ExtractFacts.SumPair | kijiji_v2/process.py:121 | two parts that parse sum to their values added |
| ExtractFacts.SumWithFraction | kijiji_v2/process.py:121 | a whole number followed by a part that parses sums to the number plus that part |
| Extract.TakeTwo | kijiji_v2/process.py:119 | `[:2]` is a prefix of at most two parts |
| ExtractFacts.RoomsOfWords | kijiji_v2/process.py:118-121 | the rooms of single-spaced words are the exact sum of the first two words after "½" becomes "1/2" |
| Extract.ReadNumRooms | kijiji_v2/process.py:112-121 | none for a missing or empty label text; otherwise the exact sum, or the failure of the part that raises |
| ExtractFacts.RoomsFromLabelWords | kijiji_v2/process.py:112-121 | the rooms of a page are the sum over the label element's words after the first |
| ExtractFacts.RoomsAfterLabel | kijiji_v2/process.py:112-121 | "Pièces a b" is the sum of a and b with "½" replaced, or the failure of the first that raises |
| ExtractFacts.RoomsWithHalf | kijiji_v2/process.py:112-121 | "Pièces <n> ½" is exactly n + 1/2 |
| ExtractFacts.RoomsRejectWord | kijiji_v2/process.py:112-121 | "Pièces <n> <word>" raises on the word |
| ExtractFacts.HalfThenWordRaises | kijiji_v2/process.py:118-121 | "½ <word>" raises on the word |
| ExtractFacts.CountBeforeRoomsLabelRaises | kijiji_v2/process.py:112-121 | "<n> ½ Pièces" raises on "Pièces" |
| Extract.DropLeadingCommaSpace | kijiji_v2/process.py:128-129 | a leading ", " is removed once; a string without it is unchanged |
| Extract.ReadRawAddress | kijiji_v2/process.py:124-131 | none exactly when the element is missing or its text is empty; otherwise the result has no surrounding whitespace |
| ExtractFacts.AddressDropsArtifact | kijiji_v2/process.py:124-131 | ", " plus padding around an address gives exactly the address |
| ExtractFacts.AddressStripsSpace | kijiji_v2/process.py:124-131 | without the ", " artifact only the padding is removed |
| ExtractFacts.AddressDropsOneArtifact | kijiji_v2/process.py:128-131 | only one ", " is removed: for every address `m` that does not end in whitespace, ", , " + `m` gives ", " + `m` (", , Québec" gives ", Québec") |
| Extract.DatePathOf | kijiji_v2/process.py:134-148 | the modern path is taken exactly when the `time` element exists, and the legacy one exactly when it does not and a `title` element does |
| Extract.ParseDateAttr | kijiji_v2/process.py:137-146 | a missing attribute or a value the parser rejects raises; otherwise the parsed value |
| Extract.ReadDatePosted | kijiji_v2/process.py:134-148 | with neither element no date; otherwise the attribute of the chosen path, parsed by that path's parser |
| ExtractFacts.ModernDateWins | kijiji_v2/process.py:134-140 | when the modern element exists the legacy elements do not affect the result |
| ExtractFacts.DatePathChoice | kijiji_v2/process.py:134-148 | a date comes from the path's parser on the path's attribute, and no date means neither element exists |
| Extract.ReadDescription | kijiji_v2/process.py:151-161 | none exactly when no description container exists; otherwise the first one's markup |
| Extract.ReadHeadline | kijiji_v2/process.py:164-166 | raises exactly when no title element exists; otherwise the first one's text |
| Extract.Process | kijiji_v2/process.py:169-181 | an unparseable page fails; a parsed page succeeds exactly when the headline, the date and the rooms do not raise, and then every field is its extractor's result (up to the `float` overflow of a room count, under Left out) |
| Extract.Extracted | kijiji_v2/process.py:208-216 | at most one kept record per row |
| Extract.SkippedUrls | kijiji_v2/process.py:208-216 | at most one logged URL per row |
| Extract.ExtractedStep | kijiji_v2/process.py:209-216 | one more row adds its record when `process` succeeds and its URL when it raises |
| ExtractFacts.ExtractedConcat | kijiji_v2/process.py:208-216 | the batch splits over concatenated inputs, keeping input order |
| ExtractFacts.KeptPlusSkipped | kijiji_v2/process.py:208-216 | every row yields one kept record or one logged URL |
| ExtractFacts.ExtractedAreProcessed | kijiji_v2/process.py:208-216 | a record is kept exactly when it is the successful `process` result of some row (the insert is not modelled; see Left out) |
| ExtractFacts.SuccessesKept | kijiji_v2/process.py:210-213 | every successful `process` result is among the kept records (apart from the insert overflow under Left out) |
| ExtractFacts.KeptAreSuccesses | kijiji_v2/process.py:210-213 | every kept record is the successful `process` result of some row |
| ExtractFacts.BadRowSkipped | kijiji_v2/process.py:210-216 | a row that raises adds no record and logs its URL |
| ExtractFacts.OneBadRecord | kijiji_v2/process.py:208-216 | among good rows, one bad row costs exactly its own record and is the only URL logged |
| ExtractFacts.NoneSkipped | kijiji_v2/process.py:208-216 | with no failing row nothing is logged |
| Extract.CountPresent | kijiji_v2/process.py:230-232 | a field's present-count is at most the number of kept records |
| ExtractFacts.HeadlineAlwaysCounted | kijiji_v2/process.py:228-232 | the headline is never none, so its count is the number of kept records |
| Extract.Run | kijiji_v2/process.py:208-234 | the loop keeps the successful records and logs the failing URLs, in order (apart from the insert and `float` overflows under Left out); the table has one row per reported field, in order, with counts at most the number of kept records |
| Extract.ProcessRows | kijiji_v2/process.py:208-216 | the batch loop keeps the records `process` returns, logs the URL of every row that raises, in input order, and accounts for every row once (apart from the insert and `float` overflows under Left out) |
| Extract.ProcessRow | kijiji_v2/process.py:209-216 | one pass of the loop adds the row's record when `process` succeeds and its URL when it raises |
| Extract.Tabulate | kijiji_v2/process.py:220-234 | one table row per reported field, in order, holding that field's present-count |
| Scrape.FetchFromMeaning | kijiji_v2/scrape.py:54-62 | from attempt i on: the loop stops at the first response, or raises the last attempt's exception after all attempts raised |
| Scrape.FetchMeaning | kijiji_v2/scrape.py:52-62 | one to three attempts; every earlier attempt raised; the result is the last response, or the third exception exactly when all three raised |
| Scrape.RateLimitedGet | kijiji_v2/scrape.py:52-62 | the loop returns what the fetch specification gives, after one pause per attempt |
| Scrape.RStripChar | kijiji_v2/scrape.py:112 | `rstrip("/")` is a prefix, does not end in "/", and removes only slashes |
| Scrape.SiteRootValue | kijiji_v2/scrape.py:112 | `BASE_URL.rstrip("/")` is the base URL without its final slash |
| Scrape.LoadPage | kijiji_v2/scrape.py:102-103 | fetching and parsing succeeds exactly when the fetch and the parse do; a failed fetch reports its exception |
| Scrape.FetchPage | kijiji_v2/scrape.py:102-103 | the imperative fetch-and-parse returns what `LoadPage` specifies |
| Scrape.InitialPage | kijiji_v2/scrape.py:99-104 | an origin's page 0 is the tree loaded from its start URL, filed under that origin at index 0; it fails exactly when that load fails, with the load's error |
| Scrape.PageUrls | kijiji_v2/scrape.py:110-113 | the page's listing URLs are exactly the site root plus each link's href; a link without href is an error |
| Scrape.NextPageUrl | kijiji_v2/scrape.py:121-123 | no next page exactly when there is no "Suivante" link; otherwise the site root plus the first link's href, or an error without href |
| Scrape.SuccessorPage | kijiji_v2/scrape.py:121-131 | when it succeeds, a page has a successor exactly when it has a next link, and the successor has the same origin and the next index |
| Scrape.SuccessorPageSpec | kijiji_v2/scrape.py:121-131 | the successor is the tree loaded from the URL of the next link; it fails exactly when the next link has no href or its page does not load, with that error |
| Scrape.FirstPage | kijiji_v2/scrape.py:107-119 | the first page, in visiting order, that links to a URL |
| Scrape.AllUrlsFirstPage | kijiji_v2/scrape.py:107-119 | a URL is linked from the pages exactly when it has a first page |
| Scrape.CountWithNext | kijiji_v2/scrape.py:121-131 | at most one appended page per visited page |
| Scrape.UrlsOfConcat | kijiji_v2/scrape.py:108 | the seen URLs of concatenated listings are the union |
| Scrape.AppendFresh | kijiji_v2/scrape.py:119 | appending a listing with an unseen URL keeps URLs distinct and adds that URL |
| Scrape.AddListings | kijiji_v2/scrape.py:119 | `listings +=` appends one listing per new URL, in any order, all under the page's origin |
| Scrape.AddOne | kijiji_v2/scrape.py:119 | adding the listing of a URL not yet added keeps URLs distinct and files it under the origin |
| Scrape.ExtendsAfter | kijiji_v2/scrape.py:119 | the new listings extend the listings they are appended to |
| Scrape.DistinctAppend | kijiji_v2/scrape.py:108-119 | appending listings whose URLs are disjoint from the seen ones keeps URLs distinct |
| Scrape.DiscoveredStep | kijiji_v2/scrape.py:107-119 | visiting one more page keeps every URL listed once, under the origin of its first page, in page order |
| Scrape.PlacedKept | kijiji_v2/scrape.py:129-131 | appending to the work list keeps what was established about earlier pages |
| Scrape.WorkListStep | kijiji_v2/scrape.py:107-131 | a visit appends the page's successor at the position the count of next links gives it |
| Scrape.VisitPage | kijiji_v2/scrape.py:107-131 | a visit succeeds exactly when the links have hrefs and the next page loads; it files the new URLs under the page's origin and fetches once exactly when there is a next link; an error is the missing href, or else the next page's failure |
| Scrape.FollowNext | kijiji_v2/scrape.py:121-131 | following the next link gives exactly the successor page, with one fetch exactly when there is a next link |
| Scrape.VisitStep | kijiji_v2/scrape.py:107-131 | the loop invariant of `crawl` survives one visit |
| Scrape.VisitNext | kijiji_v2/scrape.py:107-131 | one turn of the loop keeps its invariant with the successor appended and one fetch per appended page, or ends with the visited page's own error |
| Scrape.Crawl | kijiji_v2/scrape.py:94-133 | on success: the pages are the origins' pages 0 followed by the successors in visiting order; every linked URL is listed once, under the origin of the first page linking to it; one fetch per page. When the budget runs out, more than `budget` pages are listed and they are the work list after `budget` visits. Any other failure is the error of the first page 0 that does not load, all earlier pages 0 loaded; or the error of the visit of page j of the work list after j visits without error |
| Scrape.FetchInitialPages | kijiji_v2/scrape.py:99-104 | the first loop loads every origin's page 0 in order, or stops with the error of the first one that does not load |
| Scrape.InitialFailure | kijiji_v2/scrape.py:99-104 | a page 0 that does not load ends the crawl with its error |
| Scrape.VisitFailure | kijiji_v2/scrape.py:107-131 | a visit that fails ends the crawl with the visited page's own error |
| WorkListFacts.Shrink | kijiji_v2/scrape.py:121-131 | without the successor the last visit appended, the pages are the work list after one visit fewer |
| WorkListFacts.Prefix | kijiji_v2/scrape.py:99-131 | of two work lists of the same origins on the same site, the one after fewer visits is a prefix of the other |
| WorkListFacts.VisitedWithin | kijiji_v2/scrape.py:99-131 | every work list is a prefix of the complete work list of the site, and no more pages are visited than it holds |
| WorkListFacts.NoFailureOnLoadingSite | kijiji_v2/scrape.py:99-131 | on a site whose complete work list loads and whose links have hrefs, no page 0 and no visit fails: a crawl there can only succeed or run out of budget |
| CrawlFacts.SuccessorIsLater | kijiji_v2/scrape.py:121-131 | a page's successor is never placed at the page's own position |
| CrawlFacts.ScenarioWorkList | kijiji_v2/scrape.py:99-131 | with two origins, where only A's page 0 has a next page, the work list is A0, B0, A1 |
| CrawlFacts.FirstOrigin | kijiji_v2/scrape.py:107-119 | the origin of the first page linking to a URL exists exactly when some page links to it |
| CrawlFacts.DiscoveredOrigins | kijiji_v2/scrape.py:107-119 | discovered listings carry the origin of the first page that links to their URL |
| CrawlFacts.ScenarioFirstPages | kijiji_v2/scrape.py:107-113 | in the two-origin case x and y are first linked from A0, and z from B0 |
| CrawlFacts.ThreePageListings | kijiji_v2/scrape.py:107-119 | the listings of pages A0, B0, A1 are (A, x), (A, y), (B, z) |
| CrawlFacts.TwoOriginScenario | kijiji_v2/scrape.py:94-133 | the crawl of the two-origin case files z under B, because B0 is visited before A1 |
| Spider.StartMeta | kijiji_v2/spiders/apartment_spider.py:33 | a start request's meta has exactly `dont_cache: True` and the origin |
| SpiderFacts.StartRequestsPerOrigin | kijiji_v2/spiders/apartment_spider.py:19-34 | one start request per origin, in order, for its search URL, with callback `listing` and the start meta |
| SpiderFacts.EnabledStart | kijiji_v2/spiders/apartment_spider.py:19-21 | with the shipped configuration the spider starts from Quebec City only |
| SpiderFacts.StartUrlMatchesCrawler | kijiji_v2/scrape.py:81-91 | the crawler's start URL is the spider's plus "?ad=offering" |
| SpiderFacts.SameSiteRoot | kijiji_v2/scrape.py:112 | the crawler's `BASE_URL.rstrip("/")` is the spider's `base_url` |
| Spider.Hrefs | kijiji_v2/spiders/apartment_spider.py:37 | `::attr(href)` extracts at most one href per element, each from an element that has it |
| Spider.HrefsConcat | kijiji_v2/spiders/apartment_spider.py:37 | the hrefs of a concatenation are the hrefs of each part in turn; with HrefsOfOne this fixes the extraction, in document order |
| Spider.HrefsOfOne | kijiji_v2/spiders/apartment_spider.py:37 | one element contributes its href, if it has one |
| Spider.HrefsComplete | kijiji_v2/spiders/apartment_spider.py:37 | every element with an href contributes it |
| Spider.HrefsEmpty | kijiji_v2/spiders/apartment_spider.py:37 | nothing is extracted exactly when no element has an href |
| Spider.HrefsFirst | kijiji_v2/spiders/apartment_spider.py:37-39 | the first value extracted is the href of the first element that has one |
| Spider.NextPath | kijiji_v2/spiders/apartment_spider.py:39 | `extract_first()` is none exactly when no next link has an href, and otherwise the first href |
| Spider.DetailMeta | kijiji_v2/spiders/apartment_spider.py:49-50 | the copy without `dont_cache` keeps every other key and value |
| Spider.DetailRequestsSnoc | kijiji_v2/spiders/apartment_spider.py:47-52 | each loop step appends one detail request for the next path |
| Spider.Listing | kijiji_v2/spiders/apartment_spider.py:36-52 | the generator loop yields what `ListingOf` specifies, raising at the first `del` when meta lacks `dont_cache` |
| SpiderFacts.ListingOrder | kijiji_v2/spiders/apartment_spider.py:36-52 | the next request comes first with the response's meta unchanged; then one detail request per path, in page order and with repeats kept, each with meta minus `dont_cache`; it raises exactly when there are paths and no `dont_cache` |
| SpiderFacts.DetailMetaOfStart | kijiji_v2/spiders/apartment_spider.py:49-50 | removing `dont_cache` from a start meta leaves only the origin |
| SpiderFacts.ListingKeepsOrigin | kijiji_v2/spiders/apartment_spider.py:33-52 | a search page whose meta holds `dont_cache` and an origin, whatever other keys it has, never raises, and yields only search-page and detail-page requests of that origin |
| Spider.ApartmentDetails | kijiji_v2/spiders/apartment_spider.py:54-59 | the item has the meta's origin, the request URL and the page text; it raises exactly when meta has no origin |
| SpiderFacts.DetailsOfOrigin | kijiji_v2/spiders/apartment_spider.py:54-59 | a detail page whose meta holds an origin, whatever other keys it has, yields that origin's item |

## Left out

- **Database and uploads.** The SQLite work is not modelled: `prepare_db`, the inserts and the
  transaction in `crawl` and `run`, `pipelines/export.py` and `frontend.py`. Neither are
  `geocode.py`, `upload.py` and `cli.py`. They are I/O with no logic beyond SQL text and HTTP
  calls.
- **HTTP and the pause.** The HTTP requests are a parameter. The `time.sleep` pause is
  counted, not performed, and its length is the constant `RateLimitPeriod`. The progress
  messages are not modelled.
- **Per-listing download.** The download loop of `crawl` (scrape.py:134-143) is not modelled.
  It only fetches each listing and inserts it.
- **Parsing libraries.** lxml parsing, CSS selector matching, `lxml.etree.tostring` and
  `itertext` are given as the query results of a page and as the element's text and markup.
- **Date parsing.** `dateutil.parser.isoparse` and the fr_FR `strptime` are parameters, so
  only the choice between the two date paths is modelled.
- **Floats and the summary table.** The `float` conversions of rooms and bathrooms are not
  modelled; the model keeps the exact values. The percentage column of the summary table and
  its printing are not modelled either. That column divides by zero when no record is kept.
- **Digits.** `\d` and `int()` are modelled on the ASCII digits. Python also accepts other
  Unicode decimal digits.
- Extract.ParseFraction: covers an optional sign, digits, "a/b" and decimals with a point. It
  treats exponents, underscores, surrounding whitespace and non-ASCII digits as raising, where
  `fractions.Fraction` accepts some of them. The parts `read_num_rooms` passes it never hold
  whitespace. `ExtractFacts.ParseFractionRejects` and `ExtractFacts.UnsignedRejects` are stated
  only for characters that `fractions.Fraction` rejects as well, up to the non-ASCII digits and,
  for `UnsignedRejects`, a sign that follows an exponent mark.
- Extract.ProcessRows: the insert of `INSERT_DETAILS` runs inside the same `try` as `process`
  (process.py:210-213) and is not modelled. sqlite raises `OverflowError` for a price of 2^63
  cents or more (a price text such as "99999999999999999"). The source then logs the URL and
  skips the record; the model keeps it. `Extract.Run` and `ExtractFacts.SuccessesKept` share
  this gap.
- Extract.Process: `float(sum(...))` (process.py:121) raises `OverflowError` when the room count
  is beyond the range of a double, as for "Pièces 1" followed by 309 zeros. The model keeps the
  exact value and returns `Ok`, so such a row is kept rather than skipped.
- Scrape.Crawl: it visits at most `budget` pages and reports `PageBudgetExhausted` beyond. The
  source loops for as long as the site offers next pages.
- **Network model.** The network is a deterministic function of the URL and the attempt
  number.
- **Set order.** `crawl` appends new URLs in the iteration order of a Python set, which is not
  specified. `Scrape.AddListings` allows any order, so the order of listings from one page is
  left open.
- **Scrapy behind the spider.** Scheduling, duplicate filtering, redirects and the cache are
  not modelled. A response is the request that produced it together with its page. Detail
  requests are built from a copy of meta. Maps are values in the model, so the response's own
  meta cannot change, as the copy ensures in the source.
- Spider.ApartmentDetails: the item's origin is whatever `meta["origin"]` holds. Its type is
  not checked, as in the source.
