/** The crawl frontier of kijiji_v2/scrape.py: the rate-limited fetcher with its bounded retry,
    the start URL of an origin, and the work-list traversal of the result pages that collects
    the distinct listing URLs. The transport and the HTML parser are parameters; the per-listing
    download and the database are not part of this module. */
module Scrape {
  import opened Results
  import opened Text
  import opened Html
  import opened ScrapeConfig

  /** Attempts `rate_limited_get` makes before it gives up. */
  const RetryCount: nat := 3

  /** The pause, in seconds, before every attempt. */
  const RateLimitPeriod: real := 3.5

  const BaseUrl: string := "https://www.kijiji.ca/"

  /** A fetched result page of an origin, with its position in that origin's chain of pages. */
  datatype IndexPage = IndexPage(origin: ScrapeOrigin, tree: Tree, index: nat)

  /** A discovered listing and the origin it is filed under. */
  datatype Listing = Listing(origin: ScrapeOrigin, url: string)

  // ---------------------------------------------------------------------------------------
  // rate_limited_get
  // ---------------------------------------------------------------------------------------

  /** What one call of the transport does: it answers, or it raises. */
  datatype Attempt = Response(text: string) | Raised(error: string)

  /** The transport: the outcome of attempt number `n` (from 0) of one fetch of a URL. */
  type Network = (string, nat) -> Attempt

  /** The outcome of the retry loop from attempt `i` on: the first response, or the exception of
      the last attempt. */
  function FetchFrom(url: string, net: Network, i: nat): Result<string, string>
    requires i < RetryCount
    decreases RetryCount - i
  {
    match net(url, i)
    case Response(text) => Ok(text)
    case Raised(e) => if i < RetryCount - 1 then FetchFrom(url, net, i + 1) else Err(e)
  }

  /** How many attempts the retry loop makes from attempt `i` on. */
  function AttemptsFrom(url: string, net: Network, i: nat): nat
    requires i < RetryCount
    decreases RetryCount - i
  {
    match net(url, i)
    case Response(_) => i + 1
    case Raised(_) => if i < RetryCount - 1 then AttemptsFrom(url, net, i + 1) else RetryCount
  }

  /** `rate_limited_get(url)`: the response text, or the exception it lets propagate. */
  function Fetch(url: string, net: Network): Result<string, string>
  {
    FetchFrom(url, net, 0)
  }

  /** How many attempts (and so how many pauses) one fetch takes. */
  function Attempts(url: string, net: Network): nat
  {
    AttemptsFrom(url, net, 0)
  }

  /** From attempt `i` on, the loop stops at the first response, returning it, or raises the
      exception of the last attempt once every attempt has raised. */
  lemma {:induction false} FetchFromMeaning(url: string, net: Network, i: nat)
    requires i < RetryCount
    ensures var n := AttemptsFrom(url, net, i);
      && i < n <= RetryCount
      && (forall j | i <= j < n - 1 :: net(url, j).Raised?)
      && (FetchFrom(url, net, i).Ok? <==> net(url, n - 1).Response?)
      && (FetchFrom(url, net, i).Ok? ==> FetchFrom(url, net, i).value == net(url, n - 1).text)
      && (FetchFrom(url, net, i).Err? ==> n == RetryCount && FetchFrom(url, net, i).error == net(url, n - 1).error)
    decreases RetryCount - i
  {
    if net(url, i).Raised? && i < RetryCount - 1 {
      FetchFromMeaning(url, net, i + 1);
    }
  }

  /** The fetcher's promise: between one and three attempts; every attempt before the last one
      made raised; the result is the last attempt's response, or, when all three attempts
      raised, the third exception. */
  lemma FetchMeaning(url: string, net: Network)
    ensures 1 <= Attempts(url, net) <= RetryCount
    ensures forall j | 0 <= j < Attempts(url, net) - 1 :: net(url, j).Raised?
    ensures Fetch(url, net).Ok? <==> net(url, Attempts(url, net) - 1).Response?
    ensures Fetch(url, net).Ok? ==> Fetch(url, net).value == net(url, Attempts(url, net) - 1).text
    ensures Fetch(url, net).Err? <==> forall j | 0 <= j < RetryCount :: net(url, j).Raised?
    ensures Fetch(url, net).Err? ==> Fetch(url, net).error == net(url, RetryCount - 1).error
  {
    FetchFromMeaning(url, net, 0);
  }

  /** `rate_limited_get`: pause, try; on an exception retry unless it was the last attempt.
      `pauses` counts the `time.sleep(RATE_LIMIT_PERIOD)` calls. */
  method RateLimitedGet(url: string, net: Network) returns (r: Result<string, string>, pauses: nat)
    ensures r == Fetch(url, net)
    ensures pauses == Attempts(url, net)
  {
    var i := 0;
    pauses := 0;
    while true
      invariant 0 <= i < RetryCount
      invariant pauses == i
      invariant FetchFrom(url, net, i) == Fetch(url, net)
      invariant AttemptsFrom(url, net, i) == Attempts(url, net)
      decreases RetryCount - i
    {
      pauses := pauses + 1;
      var attempt := net(url, i);
      if attempt.Response? {
        return Ok(attempt.text), pauses;
      }
      if i < RetryCount - 1 {
        i := i + 1;
      } else {
        return Err(attempt.error), pauses;
      }
    }
  }

  // ---------------------------------------------------------------------------------------
  // URLs
  // ---------------------------------------------------------------------------------------

  /** `s.rstrip(c)`: `s` without its trailing run of `c`. */
  function RStripChar(s: string, c: char): (r: string)
    ensures r <= s
    ensures r == [] || r[|r| - 1] != c
    ensures forall k | |r| <= k < |s| :: s[k] == c
  {
    if s != [] && s[|s| - 1] == c then RStripChar(s[..|s| - 1], c) else s
  }

  /** `BASE_URL.rstrip("/")`, the prefix of every absolute URL the crawler builds. */
  function SiteRoot(): string
  {
    RStripChar(BaseUrl, '/')
  }

  /** The site root is the base URL without its slash. */
  lemma SiteRootValue()
    ensures SiteRoot() == "https://www.kijiji.ca"
    ensures BaseUrl == SiteRoot() + "/"
  {
    assert BaseUrl[..|BaseUrl| - 1] == "https://www.kijiji.ca";
  }

  /** `build_apartment_listing_url`: `"".join` of the base URL, the category path, the
      origin's region name, the category code, the origin's region identifier and the offer
      filter. */
  function BuildApartmentListingUrl(o: ScrapeOrigin): string
  {
    BaseUrl + "b-appartement-condo/" + o.kijijiName + "c37" + o.kijijiId + "?ad=offering"
  }

  // ---------------------------------------------------------------------------------------
  // crawl
  // ---------------------------------------------------------------------------------------

  /** Why a crawl stops early: a fetch that raised on every attempt, a page the parser refuses, a
      link without `href` (the source's `str + None`), or a chain of pages longer than the
      budget this model gives the loop. */
  datatype CrawlError =
    | FetchFailed(url: string, error: string)
    | Unparseable(url: string)
    | MissingHref
    | PageBudgetExhausted

  /** `lxml.html.fromstring`; `None` where it raises. */
  type Parser = string -> Option<Tree>

  /** Fetch a URL and parse the answer. */
  function LoadPage(url: string, net: Network, parse: Parser): (r: Result<Tree, CrawlError>)
    ensures r.Ok? <==> Fetch(url, net).Ok? && parse(Fetch(url, net).value).Some?
    ensures r.Ok? ==> r.value == parse(Fetch(url, net).value).value
    ensures Fetch(url, net).Err? ==> r == Err(FetchFailed(url, Fetch(url, net).error))
    ensures r.Err? ==> r.error != PageBudgetExhausted
  {
    match Fetch(url, net)
    case Err(e) => Err(FetchFailed(url, e))
    case Ok(text) =>
      match parse(text)
      case None => Err(Unparseable(url))
      case Some(t) => Ok(t)
  }

  /** `lxml.html.fromstring(rate_limited_get(url).text)`. */
  method FetchPage(url: string, net: Network, parse: Parser) returns (r: Result<Tree, CrawlError>)
    ensures r == LoadPage(url, net, parse)
  {
    var fetched, _ := RateLimitedGet(url, net);
    if fetched.Err? {
      return Err(FetchFailed(url, fetched.error));
    }
    var tree := parse(fetched.value);
    if tree.None? {
      return Err(Unparseable(url));
    }
    return Ok(tree.value);
  }

  /** The page 0 of an origin (the first loop of `crawl`). */
  function InitialPage(o: ScrapeOrigin, net: Network, parse: Parser): (r: Result<IndexPage, CrawlError>)
    ensures r.Ok? ==> r.value.origin == o && r.value.index == 0
    ensures r.Ok? <==> LoadPage(BuildApartmentListingUrl(o), net, parse).Ok?
    ensures r.Ok? ==> r.value.tree == LoadPage(BuildApartmentListingUrl(o), net, parse).value
    ensures r.Err? ==> r.error == LoadPage(BuildApartmentListingUrl(o), net, parse).error
  {
    match LoadPage(BuildApartmentListingUrl(o), net, parse)
    case Err(e) => Err(e)
    case Ok(t) => Ok(IndexPage(o, t, 0))
  }

  predicate AllHaveHref(els: seq<Element>)
  {
    forall k | 0 <= k < |els| :: "href" in els[k].attrs
  }

  /** The absolute listing URLs a result page links to, as a set; an error when a link has no
      `href`. */
  function PageUrls(t: Tree): (r: Result<set<string>, CrawlError>)
    ensures r.Ok? <==> AllHaveHref(Matches(t, ListingLink))
    ensures r.Ok? ==> forall k | 0 <= k < |Matches(t, ListingLink)| ::
      SiteRoot() + Matches(t, ListingLink)[k].attrs["href"] in r.value
    ensures r.Ok? ==> forall u | u in r.value :: exists k | 0 <= k < |Matches(t, ListingLink)| ::
      u == SiteRoot() + Matches(t, ListingLink)[k].attrs["href"]
  {
    var els := Matches(t, ListingLink);
    if AllHaveHref(els) then Ok(set k | 0 <= k < |els| :: SiteRoot() + els[k].attrs["href"])
    else Err(MissingHref)
  }

  /** Whether a result page has a "Suivante" link. */
  predicate HasNext(p: IndexPage)
  {
    Matches(p.tree, NextPageLink) != []
  }

  /** The absolute URL of the first "Suivante" link, if there is one. */
  function NextPageUrl(t: Tree): (r: Result<Option<string>, CrawlError>)
    ensures r.Ok? && r.value.Some? <==> Select(t, NextPageLink).Some? && Get(Select(t, NextPageLink).value, "href").Some?
    ensures r.Ok? && r.value.Some? ==> r.value.value == SiteRoot() + Get(Select(t, NextPageLink).value, "href").value
    ensures r == Ok(None) <==> Matches(t, NextPageLink) == []
  {
    match Select(t, NextPageLink)
    case None => Ok(None)
    case Some(e) =>
      match Get(e, "href")
      case None => Err(MissingHref)
      case Some(href) => Ok(Some(SiteRoot() + href))
  }

  /** The page `crawl` appends after visiting `p`: none without a next link, otherwise the next
      page, fetched and parsed, of the same origin at the next index. */
  function SuccessorPage(p: IndexPage, net: Network, parse: Parser): (r: Result<Option<IndexPage>, CrawlError>)
    ensures r.Ok? ==> (r.value.Some? <==> HasNext(p))
    ensures r.Ok? && r.value.Some? ==> r.value.value.origin == p.origin && r.value.value.index == p.index + 1
  {
    match NextPageUrl(p.tree)
    case Err(e) => Err(e)
    case Ok(None) => Ok(None)
    case Ok(Some(url)) =>
      match LoadPage(url, net, parse)
      case Err(e) => Err(e)
      case Ok(t) => Ok(Some(IndexPage(p.origin, t, p.index + 1)))
  }

  /** Which page the successor is, and when and how it fails: it is the tree loaded from the
      URL of the next link, and the error is that of the missing `href` or of the load. */
  lemma SuccessorPageSpec(p: IndexPage, net: Network, parse: Parser)
    ensures SuccessorPage(p, net, parse).Ok? && SuccessorPage(p, net, parse).value.Some? ==>
      && NextPageUrl(p.tree).Ok? && NextPageUrl(p.tree).value.Some?
      && LoadPage(NextPageUrl(p.tree).value.value, net, parse).Ok?
      && SuccessorPage(p, net, parse).value.value.tree == LoadPage(NextPageUrl(p.tree).value.value, net, parse).value
    ensures SuccessorPage(p, net, parse).Err? <==>
      || NextPageUrl(p.tree).Err?
      || (&& NextPageUrl(p.tree).value.Some?
          && LoadPage(NextPageUrl(p.tree).value.value, net, parse).Err?)
    ensures SuccessorPage(p, net, parse).Err? && NextPageUrl(p.tree).Err? ==> SuccessorPage(p, net, parse).error == NextPageUrl(p.tree).error
    ensures SuccessorPage(p, net, parse).Err? && NextPageUrl(p.tree).Ok? ==>
      && NextPageUrl(p.tree).value.Some?
      && LoadPage(NextPageUrl(p.tree).value.value, net, parse).Err?
      && SuccessorPage(p, net, parse).error == LoadPage(NextPageUrl(p.tree).value.value, net, parse).error
  {
  }

  /** The listing URLs of a page whose links all have an `href` (none otherwise). */
  function LinksOf(p: IndexPage): set<string>
  {
    match PageUrls(p.tree)
    case Ok(urls) => urls
    case Err(_) => {}
  }

  /** The listing URLs of a sequence of pages. */
  function AllUrls(pages: seq<IndexPage>): set<string>
  {
    if pages == [] then {} else AllUrls(pages[..|pages| - 1]) + LinksOf(pages[|pages| - 1])
  }

  /** The position of the first page, in visiting order, that links to `u`; `|pages|` when no
      page does. */
  function FirstPage(pages: seq<IndexPage>, u: string): (k: nat)
    ensures k <= |pages|
    ensures k < |pages| ==> u in LinksOf(pages[k])
    ensures forall j | 0 <= j < k :: u !in LinksOf(pages[j])
  {
    if pages == [] then 0
    else
      var init := pages[..|pages| - 1];
      var k := FirstPage(init, u);
      assert forall j | 0 <= j < |init| :: init[j] == pages[j];
      if k < |init| then k
      else if u in LinksOf(pages[|pages| - 1]) then |pages| - 1
      else |pages|
  }

  /** A URL is among the pages' links exactly when some page links to it. */
  lemma {:induction false} AllUrlsFirstPage(pages: seq<IndexPage>, u: string)
    ensures u in AllUrls(pages) <==> FirstPage(pages, u) < |pages|
  {
    if pages != [] {
      AllUrlsFirstPage(pages[..|pages| - 1], u);
    }
  }

  /** How many of the pages have a next link. */
  function CountWithNext(pages: seq<IndexPage>): (n: nat)
    ensures n <= |pages|
  {
    if pages == [] then 0
    else CountWithNext(pages[..|pages| - 1]) + (if HasNext(pages[|pages| - 1]) then 1 else 0)
  }

  /** The URLs of some listings. */
  function UrlsOf(listings: seq<Listing>): set<string>
  {
    set l | l in listings :: l.url
  }

  /** No two listings share a URL. */
  predicate DistinctUrls(listings: seq<Listing>)
  {
    forall a, b | 0 <= a < b < |listings| :: listings[a].url != listings[b].url
  }

  /** What the traversal promises about the listings it has collected from `pages`: every URL
      linked from a page exactly once, filed under the origin of the first page that linked to
      it, in the order the pages were visited. */
  predicate Discovered(pages: seq<IndexPage>, listings: seq<Listing>)
  {
    && DistinctUrls(listings)
    && UrlsOf(listings) == AllUrls(pages)
    && (forall k | 0 <= k < |listings| ::
          FirstPage(pages, listings[k].url) < |pages| &&
          listings[k].origin == pages[FirstPage(pages, listings[k].url)].origin)
    && (forall a, b | 0 <= a < b < |listings| ::
          FirstPage(pages, listings[a].url) <= FirstPage(pages, listings[b].url))
  }

  /** Page `k` was visited without error, and its successor, when it has a next link, sits at
      the place `crawl` appended it: behind the origins' pages 0 and the successors of the
      earlier pages. */
  predicate Placed(origins: seq<ScrapeOrigin>, pages: seq<IndexPage>, k: nat, net: Network, parse: Parser)
    requires k < |pages|
  {
    && PageUrls(pages[k].tree).Ok?
    && SuccessorPage(pages[k], net, parse).Ok?
    && (HasNext(pages[k]) ==>
          && |origins| + CountWithNext(pages[..k]) < |pages|
          && SuccessorPage(pages[k], net, parse) == Ok(Some(pages[|origins| + CountWithNext(pages[..k])])))
  }

  /** The work list `crawl` builds and visits: one page 0 per origin, in the origins' order, and
      behind them the successor of every page with a next link, in the order those pages were
      visited. */
  predicate IsWorkList(origins: seq<ScrapeOrigin>, pages: seq<IndexPage>, net: Network, parse: Parser)
  {
    && |pages| == |origins| + CountWithNext(pages)
    && (forall k | 0 <= k < |origins| :: InitialPage(origins[k], net, parse) == Ok(pages[k]))
    && (forall k | 0 <= k < |pages| :: Placed(origins, pages, k, net, parse))
  }

  /** The work list as it stands once `crawl` has visited its first `j` pages: the origins'
      pages 0, then the successor of each visited page with a next link, in visiting order, and
      nothing else. */
  predicate WorkListUpTo(origins: seq<ScrapeOrigin>, pages: seq<IndexPage>, j: nat, net: Network, parse: Parser)
  {
    && j <= |pages|
    && |pages| == |origins| + CountWithNext(pages[..j])
    && (forall k | 0 <= k < |origins| :: InitialPage(origins[k], net, parse) == Ok(pages[k]))
    && (forall k | 0 <= k < j :: Placed(origins, pages, k, net, parse))
  }

  /** The state of `crawl`'s loop before it visits page `j`. */
  predicate Visiting(origins: seq<ScrapeOrigin>, pages: seq<IndexPage>, j: nat, listings: seq<Listing>,
                     net: Network, parse: Parser)
  {
    WorkListUpTo(origins, pages, j, net, parse) && Discovered(pages[..j], listings)
  }

  /** The URLs of two runs of listings together. */
  lemma UrlsOfConcat(a: seq<Listing>, b: seq<Listing>)
    ensures UrlsOf(a + b) == UrlsOf(a) + UrlsOf(b)
  {
    forall u | u in UrlsOf(a + b) ensures u in UrlsOf(a) + UrlsOf(b) {
      var l :| l in a + b && l.url == u;
    }
  }

  /** Appending a listing with a new URL keeps the URLs distinct and adds that URL. */
  lemma AppendFresh(listings: seq<Listing>, l: Listing)
    requires DistinctUrls(listings) && l.url !in UrlsOf(listings)
    ensures DistinctUrls(listings + [l])
    ensures UrlsOf(listings + [l]) == UrlsOf(listings) + {l.url}
  {
    UrlsOfConcat(listings, [l]);
    assert UrlsOf([l]) == {l.url};
    forall k | 0 <= k < |listings| ensures listings[k].url != l.url {
      assert listings[k].url in UrlsOf(listings);
    }
  }

  /** `grown` is `listings` followed by one listing per URL of `urls`, each filed under
      `origin`. */
  predicate Extends(listings: seq<Listing>, grown: seq<Listing>, origin: ScrapeOrigin, urls: set<string>)
  {
    && |grown| >= |listings| && grown[..|listings|] == listings
    && UrlsOf(grown[|listings|..]) == urls
    && DistinctUrls(grown[|listings|..])
    && (forall k | |listings| <= k < |grown| :: grown[k].origin == origin)
  }

  /** `listings += [Listing(origin, url) for url in urls]`: the order of a Python set is not
      specified, so any order is allowed. */
  method AddListings(listings: seq<Listing>, origin: ScrapeOrigin, urls: set<string>) returns (r: seq<Listing>)
    ensures |r| == |listings| + |urls|
    ensures Extends(listings, r, origin, urls)
  {
    var added: seq<Listing> := [];
    var left := urls;
    while left != {}
      invariant left <= urls && |added| + |left| == |urls|
      invariant Extends([], added, origin, urls - left)
      decreases |left|
    {
      var u :| u in left;
      AddOne(added, origin, urls, left, u);
      added := added + [Listing(origin, u)];
      left := left - {u};
    }
    r := listings + added;
    ExtendsAfter(listings, added, origin, urls);
  }

  /** One pass of the loop of `AddListings`: the listing of a URL not yet added. */
  lemma AddOne(added: seq<Listing>, origin: ScrapeOrigin, urls: set<string>, left: set<string>, u: string)
    requires Extends([], added, origin, urls - left) && u in left && left <= urls
    ensures Extends([], added + [Listing(origin, u)], origin, urls - (left - {u}))
  {
    assert added[0..] == added;
    AppendFresh(added, Listing(origin, u));
    assert (added + [Listing(origin, u)])[0..] == added + [Listing(origin, u)];
    assert urls - left + {u} == urls - (left - {u});
  }

  /** Listings added from scratch extend any listings they are appended to. */
  lemma ExtendsAfter(listings: seq<Listing>, added: seq<Listing>, origin: ScrapeOrigin, urls: set<string>)
    requires Extends([], added, origin, urls)
    ensures Extends(listings, listings + added, origin, urls)
  {
    assert added[0..] == added;
    assert (listings + added)[|listings|..] == added && (listings + added)[..|listings|] == listings;
  }

  /** Appending a run of new URLs keeps the URLs distinct. */
  lemma DistinctAppend(a: seq<Listing>, b: seq<Listing>)
    requires DistinctUrls(a) && DistinctUrls(b)
    requires UrlsOf(a) !! UrlsOf(b)
    ensures DistinctUrls(a + b)
  {
    var all := a + b;
    forall x, y | 0 <= x < y < |all| ensures all[x].url != all[y].url {
      if y < |a| {
        assert all[x] == a[x] && all[y] == a[y];
      } else if x >= |a| {
        assert all[x] == b[x - |a|] && all[y] == b[y - |a|];
      } else {
        assert all[x] == a[x] && all[x].url in UrlsOf(a);
        assert all[y] == b[y - |a|] && all[y].url in UrlsOf(b);
      }
    }
  }

  /** Visiting one more page keeps the promise: the new listings are the page's URLs not seen
      before, filed under that page's origin. */
  lemma DiscoveredStep(pages: seq<IndexPage>, old_: seq<Listing>, added: seq<Listing>)
    requires pages != []
    requires Discovered(pages[..|pages| - 1], old_)
    requires DistinctUrls(added)
    requires UrlsOf(added) == LinksOf(pages[|pages| - 1]) - UrlsOf(old_)
    requires forall k | 0 <= k < |added| :: added[k].origin == pages[|pages| - 1].origin
    ensures Discovered(pages, old_ + added)
  {
    var init := pages[..|pages| - 1];
    var last := |pages| - 1;
    var all := old_ + added;
    DistinctAppend(old_, added);
    UrlsOfConcat(old_, added);
    forall k | 0 <= k < |all|
      ensures FirstPage(pages, all[k].url) < |pages|
      ensures all[k].origin == pages[FirstPage(pages, all[k].url)].origin
      ensures k < |old_| ==> FirstPage(pages, all[k].url) < last
      ensures k >= |old_| ==> FirstPage(pages, all[k].url) == last
    {
      if k < |old_| {
        assert all[k] == old_[k];
        assert init[FirstPage(init, all[k].url)] == pages[FirstPage(init, all[k].url)];
      } else {
        assert all[k] == added[k - |old_|];
        assert all[k].url in UrlsOf(added);
        AllUrlsFirstPage(init, all[k].url);
      }
    }
    forall a, b | 0 <= a < b < |all|
      ensures FirstPage(pages, all[a].url) <= FirstPage(pages, all[b].url)
    {
      if b < |old_| {
        assert all[a] == old_[a] && all[b] == old_[b];
      }
    }
  }

  /** Appending to the work list keeps what was established about a page already in it. */
  lemma PlacedKept(origins: seq<ScrapeOrigin>, before: seq<IndexPage>, after: seq<IndexPage>, k: nat,
                   net: Network, parse: Parser)
    requires k < |before| <= |after| && after[..|before|] == before
    requires Placed(origins, before, k, net, parse)
    ensures Placed(origins, after, k, net, parse)
  {
    assert after[k] == before[k];
    assert after[..k] == before[..k];
    if HasNext(before[k]) {
      var i := |origins| + CountWithNext(before[..k]);
      assert after[i] == before[i];
    }
  }

  /** One visit keeps the work list in order: the visited page's successor, if any, is appended
      at the end, which is the place the count of next links so far gives it. */
  lemma WorkListStep(origins: seq<ScrapeOrigin>, before: seq<IndexPage>, after: seq<IndexPage>, j: nat,
                     net: Network, parse: Parser)
    requires j < |before|
    requires |before| == |origins| + CountWithNext(before[..j])
    requires forall k | 0 <= k < j :: Placed(origins, before, k, net, parse)
    requires PageUrls(before[j].tree).Ok? && SuccessorPage(before[j], net, parse).Ok?
    requires SuccessorPage(before[j], net, parse).value.None? ==> after == before
    requires SuccessorPage(before[j], net, parse).value.Some? ==>
      after == before + [SuccessorPage(before[j], net, parse).value.value]
    ensures after[..j + 1] == before[..j + 1]
    ensures after[..|before|] == before
    ensures |after| == |origins| + CountWithNext(after[..j + 1])
    ensures forall k | 0 <= k < j + 1 :: Placed(origins, after, k, net, parse)
  {
    assert after[..j + 1][..j] == before[..j];
    assert after[..j + 1] == before[..j + 1];
    assert before[..j + 1][..j] == before[..j];
    forall k | 0 <= k < j ensures Placed(origins, after, k, net, parse) {
      PlacedKept(origins, before, after, k, net, parse);
    }
    assert Placed(origins, after, j, net, parse) by {
      assert after[..j] == before[..j];
    }
  }

  /** The outcome of one visit: the grown listings and the page to append, if any. */
  datatype Visit = Visit(listings: seq<Listing>, successor: Option<IndexPage>)

  /** The error a visit of `page` reports: the missing `href` of one of its listing links, which
      is looked for first, or else the failure to follow its "Suivante" link. */
  predicate VisitError(page: IndexPage, e: CrawlError, net: Network, parse: Parser)
  {
    || PageUrls(page.tree) == Err(e)
    || (PageUrls(page.tree).Ok? && SuccessorPage(page, net, parse) == Err(e))
  }

  /** The body of `crawl`'s loop for one page: file the page's URLs not seen before under its
      origin, then follow its "Suivante" link if it has one. An error is the page's own: a link
      without `href`, or a next page that cannot be fetched or parsed. */
  method VisitPage(page: IndexPage, listings: seq<Listing>, net: Network, parse: Parser)
    returns (r: Result<Visit, CrawlError>, fetches: nat)
    ensures r.Ok? <==> PageUrls(page.tree).Ok? && SuccessorPage(page, net, parse).Ok?
    ensures r.Ok? ==> r.value.successor == SuccessorPage(page, net, parse).value
    ensures r.Ok? ==> Extends(listings, r.value.listings, page.origin, PageUrls(page.tree).value - UrlsOf(listings))
    ensures r.Ok? ==> fetches == if HasNext(page) then 1 else 0
    ensures r.Err? ==> VisitError(page, r.error, net, parse)
    ensures r.Err? ==> r.error != PageBudgetExhausted
  {
    fetches := 0;
    var seen := set l | l in listings :: l.url;
    var found := PageUrls(page.tree);
    if found.Err? {
      return Err(found.error), fetches;
    }
    assert seen == UrlsOf(listings);
    var grown := AddListings(listings, page.origin, found.value - seen);
    var successor;
    successor, fetches := FollowNext(page, net, parse);
    if successor.Err? {
      return Err(successor.error), fetches;
    }
    return Ok(Visit(grown, successor.value)), fetches;
  }

  /** The second half of a visit: follow the page's "Suivante" link, if it has one, with one
      fetch. */
  method FollowNext(page: IndexPage, net: Network, parse: Parser)
    returns (r: Result<Option<IndexPage>, CrawlError>, fetches: nat)
    ensures r == SuccessorPage(page, net, parse)
    ensures r.Ok? ==> fetches == if HasNext(page) then 1 else 0
    ensures r.Err? ==> r.error != PageBudgetExhausted
  {
    fetches := 0;
    var next := NextPageUrl(page.tree);
    if next.Err? {
      return Err(next.error), fetches;
    }
    if next.value.None? {
      return Ok(None), fetches;
    }
    var tree := FetchPage(next.value.value, net, parse);
    fetches := 1;
    if tree.Err? {
      return Err(tree.error), fetches;
    }
    return Ok(Some(IndexPage(page.origin, tree.value, page.index + 1))), fetches;
  }

  /** Why a crawl that did not run out of budget failed. Either the page 0 of the origin after
      the `pages` already fetched could not be loaded, or the visit of some page `j` of the
      work list failed, all earlier pages having been visited without error. */
  predicate CrawlFailed(origins: seq<ScrapeOrigin>, pages: seq<IndexPage>, e: CrawlError,
                        net: Network, parse: Parser)
  {
    || (&& |pages| < |origins|
        && (forall k | 0 <= k < |pages| :: InitialPage(origins[k], net, parse) == Ok(pages[k]))
        && InitialPage(origins[|pages|], net, parse) == Err(e))
    || (exists j | 0 <= j < |pages| :: VisitFailedAt(origins, pages, j, e, net, parse))
  }

  /** The visit of page `j` of the work list failed with `e`: the pages are the work list after
      `j` visits without error, so page `j` is on it, and its own visit failed. */
  predicate VisitFailedAt(origins: seq<ScrapeOrigin>, pages: seq<IndexPage>, j: nat, e: CrawlError,
                          net: Network, parse: Parser)
  {
    && j < |pages|
    && WorkListUpTo(origins, pages, j, net, parse)
    && VisitError(pages[j], e, net, parse)
  }

  /** The first loop of `crawl`: fetch page 0 of every origin, in order, stopping at the first
      one that cannot be loaded. */
  method FetchInitialPages(origins: seq<ScrapeOrigin>, net: Network, parse: Parser)
    returns (r: Result<(), CrawlError>, pages: seq<IndexPage>, fetches: nat)
    ensures r.Ok? ==> |pages| == |origins| && fetches == |pages|
    ensures forall k | 0 <= k < |pages| :: k < |origins| && InitialPage(origins[k], net, parse) == Ok(pages[k])
    ensures r.Err? ==> CrawlFailed(origins, pages, r.error, net, parse) && r.error != PageBudgetExhausted
  {
    pages, fetches := [], 0;
    for k := 0 to |origins|
      invariant |pages| == k && fetches == k
      invariant forall i | 0 <= i < k :: InitialPage(origins[i], net, parse) == Ok(pages[i])
    {
      var tree := FetchPage(BuildApartmentListingUrl(origins[k]), net, parse);
      fetches := fetches + 1;
      if tree.Err? {
        InitialFailure(origins, pages, tree.error, net, parse);
        return Err(tree.error), pages, fetches;
      }
      pages := pages + [IndexPage(origins[k], tree.value, 0)];
    }
    r := Ok(());
  }

  /** `crawl` up to the download loop: fetch page 0 of every origin, then visit the work list
      in order, filing every listing URL not seen before under the page's origin and appending
      the next page when there is a "Suivante" link. `fetches` counts the calls to
      `rate_limited_get`. The source loops as long as the site offers next pages; here at most
      `budget` pages are visited. */
  method Crawl(origins: seq<ScrapeOrigin>, net: Network, parse: Parser, budget: nat)
    returns (r: Result<seq<Listing>, CrawlError>, pages: seq<IndexPage>, fetches: nat)
    ensures r.Ok? ==> IsWorkList(origins, pages, net, parse)
    ensures r.Ok? ==> Discovered(pages, r.value)
    ensures r.Ok? ==> fetches == |pages| && |pages| <= budget
    ensures r == Err(PageBudgetExhausted) ==> |pages| > budget && WorkListUpTo(origins, pages, budget, net, parse)
    ensures r.Err? && r.error != PageBudgetExhausted ==> CrawlFailed(origins, pages, r.error, net, parse)
  {
    var loaded;
    loaded, pages, fetches := FetchInitialPages(origins, net, parse);
    if loaded.Err? {
      return Err(loaded.error), pages, fetches;
    }

    var listings: seq<Listing> := [];
    var j := 0;
    assert pages[..0] == [];
    while j < |pages|
      invariant j <= budget
      invariant fetches == |pages|
      invariant Visiting(origins, pages, j, listings, net, parse)
      decreases budget - j
    {
      if j == budget {
        return Err(PageBudgetExhausted), pages, fetches;
      }
      var visited, grown, more := VisitNext(origins, pages, j, listings, net, parse);
      fetches := fetches + more;
      if visited.Err? {
        return Err(visited.error), pages, fetches;
      }
      pages, listings, j := grown, visited.value, j + 1;
    }
    assert pages[..j] == pages;
    r := Ok(listings);
  }

  /** One turn of `crawl`'s loop: visit page `j`, append its successor to the work list if it
      has one, and carry the grown listings on; or end with the page's own error. */
  method VisitNext(origins: seq<ScrapeOrigin>, pages: seq<IndexPage>, j: nat, listings: seq<Listing>,
                   net: Network, parse: Parser)
    returns (r: Result<seq<Listing>, CrawlError>, grown: seq<IndexPage>, fetches: nat)
    requires Visiting(origins, pages, j, listings, net, parse) && j < |pages|
    ensures r.Ok? ==> Visiting(origins, grown, j + 1, r.value, net, parse) && |grown| == |pages| + fetches
    ensures r.Err? ==> CrawlFailed(origins, pages, r.error, net, parse) && r.error != PageBudgetExhausted
  {
    var visit;
    visit, fetches := VisitPage(pages[j], listings, net, parse);
    if visit.Err? {
      VisitFailure(origins, pages, j, listings, visit.error, net, parse);
      return Err(visit.error), pages, fetches;
    }
    grown := pages;
    if visit.value.successor.Some? {
      grown := pages + [visit.value.successor.value];
    }
    VisitStep(origins, pages, grown, j, listings, visit.value.listings, net, parse);
    r := Ok(visit.value.listings);
  }

  /** A page 0 that cannot be loaded ends the crawl with its error. */
  lemma InitialFailure(origins: seq<ScrapeOrigin>, pages: seq<IndexPage>, e: CrawlError,
                       net: Network, parse: Parser)
    requires |pages| < |origins|
    requires forall k | 0 <= k < |pages| :: InitialPage(origins[k], net, parse) == Ok(pages[k])
    requires LoadPage(BuildApartmentListingUrl(origins[|pages|]), net, parse) == Err(e)
    ensures CrawlFailed(origins, pages, e, net, parse)
  {
  }

  /** A visit that fails ends the crawl with the visited page's own error. */
  lemma VisitFailure(origins: seq<ScrapeOrigin>, pages: seq<IndexPage>, j: nat, listings: seq<Listing>,
                     e: CrawlError, net: Network, parse: Parser)
    requires Visiting(origins, pages, j, listings, net, parse) && j < |pages|
    requires VisitError(pages[j], e, net, parse)
    ensures CrawlFailed(origins, pages, e, net, parse)
  {
    assert VisitFailedAt(origins, pages, j, e, net, parse);
  }

  /** The loop invariant of `crawl` survives one visit. */
  lemma VisitStep(origins: seq<ScrapeOrigin>, before: seq<IndexPage>, after: seq<IndexPage>, j: nat,
                  listings: seq<Listing>, grown: seq<Listing>, net: Network, parse: Parser)
    requires Visiting(origins, before, j, listings, net, parse) && j < |before|
    requires PageUrls(before[j].tree).Ok? && SuccessorPage(before[j], net, parse).Ok?
    requires SuccessorPage(before[j], net, parse).value.None? ==> after == before
    requires SuccessorPage(before[j], net, parse).value.Some? ==>
      after == before + [SuccessorPage(before[j], net, parse).value.value]
    requires Extends(listings, grown, before[j].origin, PageUrls(before[j].tree).value - UrlsOf(listings))
    ensures Visiting(origins, after, j + 1, grown, net, parse)
  {
    WorkListStep(origins, before, after, j, net, parse);
    assert grown == listings + grown[|listings|..];
    assert after[..j + 1][..j] == before[..j];
    assert LinksOf(after[j]) == PageUrls(before[j].tree).value;
    DiscoveredStep(after[..j + 1], listings, grown[|listings|..]);
    forall k | 0 <= k < |origins| ensures InitialPage(origins[k], net, parse) == Ok(after[k]) {
      assert after[k] == before[k];
    }
  }
}
