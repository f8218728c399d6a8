/** What the spider's callbacks promise, and how its URLs relate to the crawler's. */
module SpiderFacts {
  import opened Results
  import opened Html
  import opened ScrapeConfig
  import opened Spider
  import Scrape

  /** A search-page request of origin `o`: its meta holds `dont_cache` and the origin, beside
      whatever keys Scrapy itself adds (`depth`, `download_slot`, ...). */
  predicate ListingRequestFor(r: Request, o: ScrapeOrigin)
  {
    && r.callback == ListingPage
    && DontCacheKey in r.meta
    && OriginKey in r.meta && r.meta[OriginKey] == OriginRef(o)
  }

  /** A detail-page request of origin `o`: its meta holds the origin but not `dont_cache`,
      beside whatever keys Scrapy itself adds. */
  predicate DetailRequestFor(r: Request, o: ScrapeOrigin)
  {
    && r.callback == ApartmentDetailsPage
    && DontCacheKey !in r.meta
    && OriginKey in r.meta && r.meta[OriginKey] == OriginRef(o)
  }

  /** `start_requests` yields one search-page request per origin, in order, each for the
      origin's search URL. */
  lemma StartRequestsPerOrigin(origins: seq<ScrapeOrigin>)
    ensures |StartRequests(origins)| == |origins|
    ensures forall i | 0 <= i < |origins| ::
      StartRequests(origins)[i].url == StartUrl(origins[i])
      && ListingRequestFor(StartRequests(origins)[i], origins[i])
  {
  }

  /** With the shipped configuration the spider starts from Quebec City's search page only. */
  lemma EnabledStart()
    ensures EnabledStartRequests() == [Request(StartUrl(Quebec), ListingPage, StartMeta(Quebec))]
  {
    assert EnabledStartRequests()[0] == Request(StartUrl(Quebec), ListingPage, StartMeta(Quebec));
  }

  /** The spider's search URL is the crawler's without the `?ad=offering` query. */
  lemma StartUrlMatchesCrawler(o: ScrapeOrigin)
    ensures Scrape.BuildApartmentListingUrl(o) == StartUrl(o) + "?ad=offering"
  {
    Scrape.SiteRootValue();
    assert Scrape.BaseUrl + "b-appartement-condo/" == SpiderBase + "/b-appartement-condo/";
  }

  /** The spider and the crawler prefix a listing path with the same site root. */
  lemma SameSiteRoot()
    ensures Scrape.SiteRoot() == SpiderBase
  {
    Scrape.SiteRootValue();
  }

  /** `listing`: the next-page request, when there is one, comes first and carries the
      response's meta unchanged; then, unless meta lacks `dont_cache` and there are listing
      paths, come exactly one detail request per path, in page order and without removing
      repeated paths, each with the response's meta minus `dont_cache`. */
  lemma ListingOrder(resp: Response)
    ensures var out := ListingOf(resp);
      var paths := ApartmentPaths(resp.tree);
      var n := |NextRequests(resp)|;
      && n <= 1
      && (n == 1 <==> NextPath(resp.tree).Some? && NextPath(resp.tree).value != "")
      && (n == 1 ==>
            out.requests[0] == Request(SpiderBase + NextPath(resp.tree).value, ListingPage, resp.request.meta))
      && (out.raised.Some? <==> paths != [] && DontCacheKey !in resp.request.meta)
      && (out.raised.Some? ==> out.requests == NextRequests(resp))
      && (out.raised.None? ==>
            && |out.requests| == n + |paths|
            && forall i | 0 <= i < |paths| ::
                 out.requests[n + i]
                 == Request(SpiderBase + paths[i], ApartmentDetailsPage, DetailMeta(resp.request.meta)))
  {
    var out := ListingOf(resp);
    var paths := ApartmentPaths(resp.tree);
    var n := |NextRequests(resp)|;
    if out.raised.None? {
      forall i | 0 <= i < |paths|
        ensures out.requests[n + i]
          == Request(SpiderBase + paths[i], ApartmentDetailsPage, DetailMeta(resp.request.meta))
      {
        assert out.requests[n + i] == DetailRequests(paths, resp.request.meta)[i];
      }
    }
  }

  /** Removing `dont_cache` from a start request's meta leaves only the origin. */
  lemma DetailMetaOfStart(o: ScrapeOrigin)
    ensures DetailMeta(StartMeta(o)) == map[OriginKey := OriginRef(o)]
  {
    assert DontCacheKey != OriginKey;
    var m := DetailMeta(StartMeta(o));
    assert m.Keys == {OriginKey};
  }

  /** A search page reached from an origin's start request never raises, and every request it
      yields is again a search-page or a detail-page request of the same origin. */
  lemma ListingKeepsOrigin(resp: Response, o: ScrapeOrigin)
    requires ListingRequestFor(resp.request, o)
    ensures ListingOf(resp).raised.None?
    ensures forall r | r in ListingOf(resp).requests ::
      ListingRequestFor(r, o) || DetailRequestFor(r, o)
  {
    assert DontCacheKey != OriginKey;
    var paths := ApartmentPaths(resp.tree);
    forall r | r in ListingOf(resp).requests
      ensures ListingRequestFor(r, o) || DetailRequestFor(r, o)
    {
      if r in NextRequests(resp) {
        assert r.meta == resp.request.meta;
      } else {
        var details := DetailRequests(paths, resp.request.meta);
        assert r in details;
        var i :| 0 <= i < |details| && details[i] == r;
        assert r.meta == DetailMeta(resp.request.meta);
      }
    }
  }

  /** A detail page reached from an origin yields the item of that origin, for the requested
      URL, with the page text as content. */
  lemma DetailsOfOrigin(resp: Response, o: ScrapeOrigin)
    requires DetailRequestFor(resp.request, o)
    ensures ApartmentDetails(resp) == Ok(ApartmentScrape(resp.request.url, resp.text, OriginRef(o)))
  {
  }
}
