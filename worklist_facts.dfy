/** The work list of `crawl` is determined by the origins and the site: two work lists built by
    the same rules agree page for page. So a crawl on a site whose whole work list loads and
    whose links all have an `href` cannot fail, except by running out of budget. */
module WorkListFacts {
  import opened Results
  import opened Html
  import opened ScrapeConfig
  import opened Scrape

  /** The count of pages with a next link grows by the last page's link. */
  lemma CountSnoc(pages: seq<IndexPage>, j: nat)
    requires 0 < j <= |pages|
    ensures CountWithNext(pages[..j]) == CountWithNext(pages[..j - 1]) + (if HasNext(pages[j - 1]) then 1 else 0)
  {
    assert pages[..j][..j - 1] == pages[..j - 1];
  }

  /** A page with a next link before position `b` is counted in the prefix up to `b`. */
  lemma {:induction false} CountGrows(pages: seq<IndexPage>, a: nat, b: nat)
    requires a < b <= |pages| && HasNext(pages[a])
    ensures CountWithNext(pages[..a]) < CountWithNext(pages[..b])
    decreases b
  {
    CountSnoc(pages, b);
    if b > a + 1 {
      CountGrows(pages, a, b - 1);
    }
  }

  /** A page placed in the work list stays placed in a prefix of it that still holds its
      successor. */
  lemma PlacedInPrefix(origins: seq<ScrapeOrigin>, pages: seq<IndexPage>, fewer: seq<IndexPage>, k: nat,
                       net: Network, parse: Parser)
    requires fewer <= pages && k < |fewer| && Placed(origins, pages, k, net, parse)
    requires HasNext(pages[k]) ==> |origins| + CountWithNext(pages[..k]) < |fewer|
    ensures Placed(origins, fewer, k, net, parse)
  {
    assert fewer[k] == pages[k] && fewer[..k] == pages[..k];
    if HasNext(pages[k]) {
      var i := |origins| + CountWithNext(pages[..k]);
      assert fewer[i] == pages[i];
    }
  }

  /** The last visit appended a successor, which is the last page and not the visited one. */
  lemma LastIsSuccessor(origins: seq<ScrapeOrigin>, pages: seq<IndexPage>, j: nat, net: Network, parse: Parser)
    requires 0 < j <= |pages| && Placed(origins, pages, j - 1, net, parse) && HasNext(pages[j - 1])
    requires |pages| == |origins| + CountWithNext(pages[..j - 1]) + 1
    ensures j - 1 < |pages| - 1
  {
    assert pages[|pages| - 1].index == pages[j - 1].index + 1;
  }

  /** Undoing the last visit: without the successor that visit appended, the pages are the work
      list after one visit fewer. */
  lemma Shrink(origins: seq<ScrapeOrigin>, pages: seq<IndexPage>, j: nat, net: Network, parse: Parser)
    returns (fewer: seq<IndexPage>)
    requires 0 < j && WorkListUpTo(origins, pages, j, net, parse)
    ensures WorkListUpTo(origins, fewer, j - 1, net, parse) && fewer <= pages
    ensures HasNext(pages[j - 1]) ==> j - 1 < |fewer| && |pages| == |fewer| + 1
    ensures !HasNext(pages[j - 1]) ==> fewer == pages
  {
    CountSnoc(pages, j);
    if HasNext(pages[j - 1]) {
      fewer := pages[..|pages| - 1];
      LastIsSuccessor(origins, pages, j, net, parse);
      assert fewer[..j - 1] == pages[..j - 1];
      forall k | 0 <= k < |origins| ensures InitialPage(origins[k], net, parse) == Ok(fewer[k]) {
        assert fewer[k] == pages[k];
      }
      forall k | 0 <= k < j - 1 ensures Placed(origins, fewer, k, net, parse) {
        if HasNext(pages[k]) {
          CountGrows(pages, k, j - 1);
        }
        PlacedInPrefix(origins, pages, fewer, k, net, parse);
      }
    } else {
      fewer := pages;
      assert pages[..j - 1] == pages[..j][..j - 1];
    }
  }

  /** Undoing visits down to `m` of them. */
  lemma {:induction false} ShrinkTo(origins: seq<ScrapeOrigin>, pages: seq<IndexPage>, j: nat, m: nat,
                                    net: Network, parse: Parser)
    returns (fewer: seq<IndexPage>)
    requires m <= j && WorkListUpTo(origins, pages, j, net, parse)
    ensures WorkListUpTo(origins, fewer, m, net, parse) && fewer <= pages
    decreases j - m
  {
    if m == j {
      fewer := pages;
    } else {
      var one := Shrink(origins, pages, j, net, parse);
      fewer := ShrinkTo(origins, one, j - 1, m, net, parse);
    }
  }

  /** No page is its own successor: a visited page with a next link did not append itself. */
  lemma NotOwnSuccessor(origins: seq<ScrapeOrigin>, pages: seq<IndexPage>, k: nat, net: Network, parse: Parser)
    requires k < |pages| && Placed(origins, pages, k, net, parse) && HasNext(pages[k])
    ensures |origins| + CountWithNext(pages[..k]) != k
  {
    var i := |origins| + CountWithNext(pages[..k]);
    assert pages[i].index == pages[k].index + 1;
  }

  /** Two work lists that agree up to a visited page with a next link agree on its successor. */
  lemma SameSuccessor(origins: seq<ScrapeOrigin>, a: seq<IndexPage>, b: seq<IndexPage>, k: nat,
                      net: Network, parse: Parser)
    requires k < |a| && k < |b| && a[..k] == b[..k] && a[k] == b[k] && HasNext(a[k])
    requires Placed(origins, a, k, net, parse) && Placed(origins, b, k, net, parse)
    ensures |origins| + CountWithNext(a[..k]) < |b|
    ensures a[|origins| + CountWithNext(a[..k])] == b[|origins| + CountWithNext(a[..k])]
  {
  }

  /** A prefix of `b` grown by the page `b` holds next is still a prefix of `b`. */
  lemma PrefixSnoc(fewer: seq<IndexPage>, a: seq<IndexPage>, b: seq<IndexPage>)
    requires fewer <= a && fewer <= b && |a| == |fewer| + 1 && |fewer| < |b| && a[|fewer|] == b[|fewer|]
    ensures a <= b
  {
    assert a == fewer + [a[|fewer|]];
    assert b[..|a|] == b[..|fewer|] + [b[|fewer|]];
  }

  /** Of two work lists of the same origins on the same site, the one with fewer visits is a
      prefix of the other. */
  lemma {:induction false} Prefix(origins: seq<ScrapeOrigin>, a: seq<IndexPage>, ja: nat, b: seq<IndexPage>, jb: nat,
                                  net: Network, parse: Parser)
    requires ja <= jb
    requires WorkListUpTo(origins, a, ja, net, parse) && WorkListUpTo(origins, b, jb, net, parse)
    ensures a <= b
    decreases ja
  {
    if ja == 0 {
      assert a[..0] == [] && b[..0] == [];
      forall k | 0 <= k < |a| ensures a[k] == b[k] {
        assert InitialPage(origins[k], net, parse) == Ok(a[k]);
      }
    } else {
      var k := ja - 1;
      var fewer := Shrink(origins, a, ja, net, parse);
      Prefix(origins, fewer, k, b, jb, net, parse);
      if HasNext(a[k]) {
        CountSnoc(a, ja);
        assert a[..k] == fewer[..k] == b[..k];
        assert a[k] == fewer[k] == b[k];
        assert Placed(origins, a, k, net, parse);
        assert Placed(origins, b, k, net, parse);
        SameSuccessor(origins, a, b, k, net, parse);
        PrefixSnoc(fewer, a, b);
      }
    }
  }

  /** The complete work list is the work list after visiting all of its pages. */
  lemma Complete(origins: seq<ScrapeOrigin>, site: seq<IndexPage>, net: Network, parse: Parser)
    requires IsWorkList(origins, site, net, parse)
    ensures WorkListUpTo(origins, site, |site|, net, parse)
  {
    assert site[..|site|] == site;
  }

  /** No work list is visited beyond the end of the complete one: every page it visits is a
      page of the complete work list, at the same place. */
  lemma VisitedWithin(origins: seq<ScrapeOrigin>, site: seq<IndexPage>, pages: seq<IndexPage>, j: nat,
                      net: Network, parse: Parser)
    requires IsWorkList(origins, site, net, parse) && WorkListUpTo(origins, pages, j, net, parse)
    ensures j <= |site| && pages <= site
  {
    Complete(origins, site, net, parse);
    if j > |site| {
      var n := |site|;
      var b := ShrinkTo(origins, pages, j, n + 1, net, parse);
      Prefix(origins, site, n, b, n + 1, net, parse);
      CountSnoc(b, n + 1);
      assert b[..n] == site;
      NotOwnSuccessor(origins, b, n, net, parse);
      assert false;
    }
    Prefix(origins, pages, j, site, |site|, net, parse);
  }

  /** On a site whose whole work list loads and whose listing links all have an `href`, a crawl
      cannot fail with an error of its own: neither a page 0 nor a visit can fail. */
  lemma NoFailureOnLoadingSite(origins: seq<ScrapeOrigin>, site: seq<IndexPage>, pages: seq<IndexPage>,
                               e: CrawlError, net: Network, parse: Parser)
    requires IsWorkList(origins, site, net, parse)
    ensures !CrawlFailed(origins, pages, e, net, parse)
  {
    if |pages| < |origins| {
      assert InitialPage(origins[|pages|], net, parse) == Ok(site[|pages|]);
    }
    forall j | 0 <= j < |pages| && WorkListUpTo(origins, pages, j, net, parse)
      ensures !VisitError(pages[j], e, net, parse)
    {
      VisitedWithin(origins, site, pages, j, net, parse);
      assert Placed(origins, site, j, net, parse);
    }
  }
}
