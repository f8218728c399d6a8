/** The Scrapy spider of kijiji_v2/spiders/apartment_spider.py, the crawl path the command line
    uses. Its callbacks are generators; here each becomes the sequence of requests (or the item)
    it yields. Scrapy's scheduler, its duplicate filter and its HTTP layer are not modelled: a
    response is the request that produced it together with the parsed page and its text. */
module Spider {
  import opened Results
  import opened Html
  import opened ScrapeConfig

  /** `ApartmentSpider.base_url`: the site root, without a trailing slash. */
  const SpiderBase: string := "https://www.kijiji.ca"

  const DontCacheKey: string := "dont_cache"
  const OriginKey: string := "origin"

  /** The values the spider stores in a request's `meta` dictionary. */
  datatype MetaValue = Flag(flag: bool) | OriginRef(origin: ScrapeOrigin) | Other(text: string)

  type Meta = map<string, MetaValue>

  /** Which spider method Scrapy calls with the response. */
  datatype Callback = ListingPage | ApartmentDetailsPage

  datatype Request = Request(url: string, callback: Callback, meta: Meta)

  /** A downloaded page: `response.request`, the parsed document and `response.text`. Scrapy's
      `response.meta` is the meta of the request that produced the response. */
  datatype Response = Response(request: Request, tree: Tree, text: string)

  /** The `ApartmentScrape` item; its origin is whatever `meta["origin"]` holds. */
  datatype ApartmentScrape = ApartmentScrape(url: string, content: string, origin: MetaValue)

  /** The exception a callback can raise: a `del` or a lookup of a key `meta` lacks. */
  datatype SpiderError = KeyError(key: string)

  /** What `listing` yields before it returns or raises. */
  datatype ListingOutput = ListingOutput(requests: seq<Request>, raised: Option<SpiderError>)

  /** The search page of an origin; unlike the crawler's URL it has no `?ad=offering`. */
  function StartUrl(o: ScrapeOrigin): string
  {
    SpiderBase + "/b-appartement-condo/" + o.kijijiName + "c37" + o.kijijiId
  }

  /** The meta of a start request: caching off, and the origin the page belongs to. */
  function StartMeta(o: ScrapeOrigin): (m: Meta)
    ensures m.Keys == {DontCacheKey, OriginKey}
    ensures m[DontCacheKey] == Flag(true) && m[OriginKey] == OriginRef(o)
  {
    map[DontCacheKey := Flag(true), OriginKey := OriginRef(o)]
  }

  /** `start_requests` over the given origins (the source reads `enabled_origins`). */
  function StartRequests(origins: seq<ScrapeOrigin>): seq<Request>
  {
    seq(|origins|, i requires 0 <= i < |origins| =>
      Request(StartUrl(origins[i]), ListingPage, StartMeta(origins[i])))
  }

  /** The requests Scrapy starts the crawl with. */
  function EnabledStartRequests(): seq<Request>
  {
    StartRequests(EnabledOrigins)
  }

  /** `::attr(href)` extracted from `els`: the `href` of every element that has one, in document
      order; an element without the attribute contributes nothing. */
  function Hrefs(els: seq<Element>): (r: seq<string>)
    ensures |r| <= |els|
    ensures forall h :: h in r ==> exists e :: e in els && "href" in e.attrs && e.attrs["href"] == h
  {
    if els == [] then []
    else
      var head := if "href" in els[0].attrs then [els[0].attrs["href"]] else [];
      head + Hrefs(els[1..])
  }

  /** `::attr(href)` of a concatenation is the hrefs of each part in turn; with `HrefsOfOne`
      this fixes `Hrefs` on every list, in document order. */
  lemma {:induction false} HrefsConcat(a: seq<Element>, b: seq<Element>)
    ensures Hrefs(a + b) == Hrefs(a) + Hrefs(b)
  {
    if a == [] {
      assert a + b == b;
    } else {
      assert (a + b)[1..] == a[1..] + b;
      HrefsConcat(a[1..], b);
    }
  }

  /** One element contributes its `href`, if it has one. */
  lemma HrefsOfOne(e: Element)
    ensures Hrefs([e]) == if "href" in e.attrs then [e.attrs["href"]] else []
  {
    assert [e][1..] == [];
  }

  /** Every element with an `href` contributes it. */
  lemma {:induction false} HrefsComplete(els: seq<Element>, k: nat)
    requires k < |els| && "href" in els[k].attrs
    ensures els[k].attrs["href"] in Hrefs(els)
  {
    if k > 0 {
      HrefsComplete(els[1..], k - 1);
    }
  }

  /** Nothing is extracted exactly when no element has an `href`. */
  lemma HrefsEmpty(els: seq<Element>)
    ensures Hrefs(els) == [] <==> forall k | 0 <= k < |els| :: "href" !in els[k].attrs
  {
    forall k | 0 <= k < |els| && "href" in els[k].attrs
      ensures Hrefs(els) != []
    {
      HrefsComplete(els, k);
    }
  }

  /** Element `k` is the first of `els` with an `href`. */
  predicate IsFirstHref(els: seq<Element>, k: nat)
  {
    && k < |els|
    && "href" in els[k].attrs
    && forall j | 0 <= j < k :: "href" !in els[j].attrs
  }

  /** The first value extracted is the `href` of the first element that has one. */
  lemma {:induction false} HrefsFirst(els: seq<Element>, k: nat)
    requires IsFirstHref(els, k)
    ensures Hrefs(els) != [] && Hrefs(els)[0] == els[k].attrs["href"]
  {
    if k > 0 {
      assert IsFirstHref(els[1..], k - 1) by {
        forall j | 0 <= j < k - 1
          ensures "href" !in els[1..][j].attrs
        {
          assert els[1..][j] == els[j + 1];
        }
      }
      HrefsFirst(els[1..], k - 1);
    }
  }

  /** The listing paths of a search page (`.info-container a.title::attr(href)`). */
  function ApartmentPaths(t: Tree): seq<string>
  {
    Hrefs(Matches(t, ListingLink))
  }

  /** `extract_first()` of the next-page link's `href`. */
  function NextPath(t: Tree): (r: Option<string>)
    ensures r.None? <==> Hrefs(Matches(t, NextPageLink)) == []
    ensures r.Some? ==> r.value == Hrefs(Matches(t, NextPageLink))[0]
  {
    var found := Hrefs(Matches(t, NextPageLink));
    if found == [] then None else Some(found[0])
  }

  /** The next-page request, if the page links to a non-empty next path; it carries the
      response's own meta. */
  function NextRequests(resp: Response): seq<Request>
  {
    match NextPath(resp.tree)
    case Some(p) =>
      if p != "" then [Request(SpiderBase + p, ListingPage, resp.request.meta)] else []
    case None => []
  }

  /** The meta of a detail request: a copy of the response's meta without `dont_cache`. */
  function DetailMeta(meta: Meta): (m: Meta)
    ensures DontCacheKey !in m
    ensures forall k :: k in meta && k != DontCacheKey ==> k in m && m[k] == meta[k]
    ensures m.Keys <= meta.Keys
  {
    meta - {DontCacheKey}
  }

  /** One detail request per path, in page order. */
  function DetailRequests(paths: seq<string>, meta: Meta): seq<Request>
  {
    seq(|paths|, i requires 0 <= i < |paths| =>
      Request(SpiderBase + paths[i], ApartmentDetailsPage, DetailMeta(meta)))
  }

  lemma DetailRequestsSnoc(paths: seq<string>, p: string, meta: Meta)
    ensures DetailRequests(paths + [p], meta)
      == DetailRequests(paths, meta) + [Request(SpiderBase + p, ApartmentDetailsPage, DetailMeta(meta))]
  {
    var a := DetailRequests(paths + [p], meta);
    var b := DetailRequests(paths, meta) + [Request(SpiderBase + p, ApartmentDetailsPage, DetailMeta(meta))];
    assert |a| == |b|;
    forall i | 0 <= i < |a|
      ensures a[i] == b[i]
    {
      assert a[i] == Request(SpiderBase + (paths + [p])[i], ApartmentDetailsPage, DetailMeta(meta));
      if i < |paths| {
        assert b[i] == DetailRequests(paths, meta)[i];
      }
    }
  }

  /** What `listing` yields for a response: the next-page request first, then the detail
      requests; when meta lacks `dont_cache` the first `del` raises before any detail request. */
  function ListingOf(resp: Response): ListingOutput
  {
    var paths := ApartmentPaths(resp.tree);
    if paths != [] && DontCacheKey !in resp.request.meta then
      ListingOutput(NextRequests(resp), Some(KeyError(DontCacheKey)))
    else
      ListingOutput(NextRequests(resp) + DetailRequests(paths, resp.request.meta), None)
  }

  /** The `listing` callback, its loop over the listing paths included. */
  method Listing(resp: Response) returns (out: ListingOutput)
    ensures out == ListingOf(resp)
  {
    var paths := ApartmentPaths(resp.tree);
    var requests := NextRequests(resp);
    for i := 0 to |paths|
      invariant DontCacheKey in resp.request.meta || i == 0
      invariant requests == NextRequests(resp) + DetailRequests(paths[..i], resp.request.meta)
    {
      var meta := resp.request.meta;
      if DontCacheKey !in meta {
        return ListingOutput(requests, Some(KeyError(DontCacheKey)));
      }
      meta := meta - {DontCacheKey};
      assert meta == DetailMeta(resp.request.meta);
      requests := requests + [Request(SpiderBase + paths[i], ApartmentDetailsPage, meta)];
      assert paths[..i + 1] == paths[..i] + [paths[i]];
      DetailRequestsSnoc(paths[..i], paths[i], resp.request.meta);
    }
    assert paths[..|paths|] == paths;
    out := ListingOutput(requests, None);
  }

  /** The `apartment_details` callback: the item of a detail page. */
  function ApartmentDetails(resp: Response): (r: Result<ApartmentScrape, SpiderError>)
    ensures r.Err? <==> OriginKey !in resp.request.meta
    ensures r.Ok? ==> r.value.origin == resp.request.meta[OriginKey]
    ensures r.Ok? ==> r.value.url == resp.request.url && r.value.content == resp.text
  {
    if OriginKey in resp.request.meta then
      Ok(ApartmentScrape(resp.request.url, resp.text, resp.request.meta[OriginKey]))
    else
      Err(KeyError(OriginKey))
  }
}
