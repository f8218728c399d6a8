/** A worked case of `crawl`'s traversal: two origins, where a listing is linked both from the
    first origin's second page and from the second origin's first page. */
module CrawlFacts {
  import opened Results
  import opened Html
  import opened ScrapeConfig
  import opened Scrape

  /** The work list of the case has exactly three pages: A's page 0, B's page 0, and then A's
      page 1, because the successors of pages are appended behind every origin's page 0. */
  lemma ScenarioWorkList(origins: seq<ScrapeOrigin>, pages: seq<IndexPage>, net: Network, parse: Parser,
                         next: IndexPage)
    requires |origins| == 2
    requires IsWorkList(origins, pages, net, parse)
    requires HasNext(pages[0]) && !HasNext(pages[1])
    requires SuccessorPage(pages[0], net, parse) == Ok(Some(next)) && !HasNext(next)
    ensures pages == [pages[0], pages[1], next]
    ensures pages[0].origin == origins[0] && pages[1].origin == origins[1] && next.origin == origins[0]
  {
    assert Placed(origins, pages, 0, net, parse);
    assert CountWithNext(pages[..0]) == 0;
    assert pages[2] == next;
    assert InitialPage(origins[0], net, parse) == Ok(pages[0]);
    assert InitialPage(origins[1], net, parse) == Ok(pages[1]);
    if |pages| > 3 {
      CountFirstThree(pages);
      if HasNext(pages[3]) {
        SuccessorIsLater(origins, pages, 3, net, parse);
        assert false;
      } else {
        CountBelowLength(pages, 3, 3);
        assert false;
      }
    }
    assert pages[..3] == [pages[0], pages[1], next];
    assert pages[..3][..2] == pages[..2];
    assert pages[..2][..1] == pages[..1];
    assert CountWithNext(pages[..3]) == 1;
    assert pages == pages[..3];
  }

  /** Counting pages with a next link from position `m` on adds at most one per page, and
      strictly less when the page at `i` has none. */
  lemma {:induction false} CountBelowLength(pages: seq<IndexPage>, m: nat, i: nat)
    requires m <= i < |pages| && !HasNext(pages[i])
    ensures CountWithNext(pages) < CountWithNext(pages[..m]) + (|pages| - m)
  {
    var init := pages[..|pages| - 1];
    if i == |pages| - 1 {
      CountAtMost(init, m);
      assert init[..m] == pages[..m];
    } else {
      CountBelowLength(init, m, i);
      assert init[..m] == pages[..m];
    }
  }

  lemma {:induction false} CountAtMost(pages: seq<IndexPage>, m: nat)
    requires m <= |pages|
    ensures CountWithNext(pages) <= CountWithNext(pages[..m]) + (|pages| - m)
  {
    if |pages| > m {
      var init := pages[..|pages| - 1];
      CountAtMost(init, m);
      assert init[..m] == pages[..m];
    } else {
      assert pages[..m] == pages;
    }
  }

  /** With pages A0, B0, A1 where the three pages have no next link beyond A0's, every later
      page would have to be a successor that does not exist. */
  lemma CountFirstThree(pages: seq<IndexPage>)
    requires |pages| > 3 && HasNext(pages[0]) && !HasNext(pages[1]) && !HasNext(pages[2])
    ensures CountWithNext(pages[..3]) == 1
  {
    assert pages[..1][..0] == [] && pages[..1][0] == pages[0];
    assert CountWithNext(pages[..1]) == 1;
    assert pages[..2][..1] == pages[..1] && pages[..2][1] == pages[1];
    assert CountWithNext(pages[..2]) == 1;
    assert pages[..3][..2] == pages[..2] && pages[..3][2] == pages[2];
  }

  /** The listing URLs of three pages visited in turn. */
  lemma AllUrlsOfThree(p0: IndexPage, p1: IndexPage, p2: IndexPage)
    ensures AllUrls([p0, p1, p2]) == LinksOf(p0) + LinksOf(p1) + LinksOf(p2)
  {
    assert [p0, p1, p2][..2] == [p0, p1];
    assert [p0, p1][..1] == [p0];
    assert [p0][..0] == [];
    assert AllUrls([p0]) == LinksOf(p0);
    assert AllUrls([p0, p1]) == LinksOf(p0) + LinksOf(p1);
  }

  /** The first of three pages that links to `u`. */
  lemma FirstPageOfThree(p0: IndexPage, p1: IndexPage, p2: IndexPage, u: string)
    ensures FirstPage([p0, p1, p2], u)
      == if u in LinksOf(p0) then 0 else if u in LinksOf(p1) then 1 else if u in LinksOf(p2) then 2 else 3
  {
    assert [p0, p1, p2][..2] == [p0, p1];
    assert [p0, p1][..1] == [p0];
    assert [p0][..0] == [];
    assert FirstPage([p0], u) == if u in LinksOf(p0) then 0 else 1;
    assert FirstPage([p0, p1], u) == if u in LinksOf(p0) then 0 else if u in LinksOf(p1) then 1 else 2;
  }

  /** The two-origin case: A's page 0 links to x and y and has a next page linking to y and z;
      B's page 0 links to z. `crawl` visits B's page 0 before A's page 1, so z is filed under B;
      x and y are filed under A, and each URL appears once. */
  lemma TwoOriginScenario(origins: seq<ScrapeOrigin>, pages: seq<IndexPage>, listings: seq<Listing>,
                          net: Network, parse: Parser, next: IndexPage, x: string, y: string, z: string)
    requires |origins| == 2
    requires IsWorkList(origins, pages, net, parse) && Discovered(pages, listings)
    requires x != y && y != z && x != z
    requires HasNext(pages[0]) && LinksOf(pages[0]) == {x, y}
    requires !HasNext(pages[1]) && LinksOf(pages[1]) == {z}
    requires SuccessorPage(pages[0], net, parse) == Ok(Some(next))
    requires !HasNext(next) && LinksOf(next) == {y, z}
    ensures (set l | l in listings) == {Listing(origins[0], x), Listing(origins[0], y), Listing(origins[1], z)}
  {
    ScenarioWorkList(origins, pages, net, parse, next);
    DiscoveredOrigins(pages, listings);
    ThreePageListings(pages[0], pages[1], next, listings, x, y, z);
  }

  /** The listings discovered from the pages A0, B0, A1 of the two-origin case. */
  lemma ThreePageListings(p0: IndexPage, p1: IndexPage, p2: IndexPage, listings: seq<Listing>,
                          x: string, y: string, z: string)
    requires UrlsOf(listings) == AllUrls([p0, p1, p2])
    requires forall l | l in listings :: FirstOrigin([p0, p1, p2], l.url) == Some(l.origin)
    requires x != y && y != z && x != z
    requires LinksOf(p0) == {x, y} && LinksOf(p1) == {z} && LinksOf(p2) == {y, z}
    ensures (set l | l in listings) == {Listing(p0.origin, x), Listing(p0.origin, y), Listing(p1.origin, z)}
  {
    ScenarioFirstPages(p0, p1, p2, x, y, z);
    ListingsByUrl(listings, p0.origin, p1.origin, x, y, z);
  }

  /** Listings of the URLs x, y, z only, where x and y are filed under `a` and z under `b`, are
      exactly those three. */
  lemma ListingsByUrl(listings: seq<Listing>, a: ScrapeOrigin, b: ScrapeOrigin, x: string, y: string, z: string)
    requires UrlsOf(listings) == {x, y, z}
    requires forall l | l in listings :: (l.url == x || l.url == y ==> l.origin == a) && (l.url == z ==> l.origin == b)
    ensures (set l | l in listings) == {Listing(a, x), Listing(a, y), Listing(b, z)}
  {
    var expected := {Listing(a, x), Listing(a, y), Listing(b, z)};
    forall l | l in listings
      ensures l in expected
    {
      assert l.url in UrlsOf(listings);
    }
    forall l | l in expected
      ensures l in listings
    {
      assert l.url in UrlsOf(listings);
      var m :| m in listings && m.url == l.url;
    }
  }

  /** In the two-origin case the pages link to x, y and z; x and y are first linked from A0
      and z from B0. */
  lemma ScenarioFirstPages(p0: IndexPage, p1: IndexPage, p2: IndexPage, x: string, y: string, z: string)
    requires x != y && y != z && x != z
    requires LinksOf(p0) == {x, y} && LinksOf(p1) == {z} && LinksOf(p2) == {y, z}
    ensures AllUrls([p0, p1, p2]) == {x, y, z}
    ensures FirstOrigin([p0, p1, p2], x) == Some(p0.origin) && FirstOrigin([p0, p1, p2], y) == Some(p0.origin)
    ensures FirstOrigin([p0, p1, p2], z) == Some(p1.origin)
  {
    AllUrlsOfThree(p0, p1, p2);
    FirstPageOfThree(p0, p1, p2, x);
    FirstPageOfThree(p0, p1, p2, y);
    FirstPageOfThree(p0, p1, p2, z);
  }

  /** A page's successor is placed after it: it cannot be the page itself, whose index is one
      less. */
  lemma SuccessorIsLater(origins: seq<ScrapeOrigin>, pages: seq<IndexPage>, k: nat, net: Network, parse: Parser)
    requires IsWorkList(origins, pages, net, parse) && k < |pages| && HasNext(pages[k])
    ensures |origins| + CountWithNext(pages[..k]) != k
  {
    assert Placed(origins, pages, k, net, parse);
  }

  /** The origin of the first page that links to `u`, if any page does. */
  function FirstOrigin(pages: seq<IndexPage>, u: string): (r: Option<ScrapeOrigin>)
    ensures r.Some? <==> FirstPage(pages, u) < |pages|
  {
    var k := FirstPage(pages, u);
    if k < |pages| then Some(pages[k].origin) else None
  }

  /** `Discovered` files every listing under the origin of the first page linking to it. */
  lemma DiscoveredOrigins(pages: seq<IndexPage>, listings: seq<Listing>)
    requires Discovered(pages, listings)
    ensures UrlsOf(listings) == AllUrls(pages)
    ensures forall l | l in listings :: FirstOrigin(pages, l.url) == Some(l.origin)
  {
    forall l | l in listings
      ensures FirstOrigin(pages, l.url) == Some(l.origin)
    {
      var k :| 0 <= k < |listings| && listings[k] == l;
    }
  }
}
