/** The parsed document as the extractors and the crawler see it. The lxml tree and its
    `cssselect` engine are not modelled: a `Tree` is the list of elements each of the source's
    CSS queries returns, in document order. */
module Html {
  import opened Results

  /** One element: its `text_content()` (which `"".join(itertext())` also yields), its
      attributes, and its serialisation by `lxml.etree.tostring`. */
  datatype Element = Element(text: string, attrs: map<string, string>, markup: string)

  /** The CSS queries the source issues. */
  datatype Query =
    | CurrentPrice      // span[class^="currentPrice"] > span
    | LabelValue        // [class^='noLabelValue']
    | Address           // span[class^='address']
    | DatePostedTime    // div[class^="datePosted"] > time
    | DatePostedTitle   // [class^="datePosted"] [title]
    | Description       // [class*="descriptionContainer"]
    | Title             // [class*=title]
    | ListingLink       // .info-container a.title
    | NextPageLink      // [title~="Suivante"]
  {
    /** The selector text of the query. */
    function Css(): string
    {
      match this
      case CurrentPrice => "span[class^=\"currentPrice\"] > span"
      case LabelValue => "[class^='noLabelValue']"
      case Address => "span[class^='address']"
      case DatePostedTime => "div[class^=\"datePosted\"] > time"
      case DatePostedTitle => "[class^=\"datePosted\"] [title]"
      case Description => "[class*=\"descriptionContainer\"]"
      case Title => "[class*=title]"
      case ListingLink => ".info-container a.title"
      case NextPageLink => "[title~=\"Suivante\"]"
    }
  }

  /** A parsed document: for each query it answers, the matching elements in document order;
      a query it does not list matches nothing. */
  datatype Tree = Tree(results: map<Query, seq<Element>>)

  /** `tree.cssselect(q)`. */
  function Matches(t: Tree, q: Query): seq<Element>
  {
    if q in t.results then t.results[q] else []
  }

  /** `select(tree, q)` (process.py): the first element the query matches, if any. */
  function Select(t: Tree, q: Query): (r: Option<Element>)
    ensures r.None? <==> Matches(t, q) == []
    ensures r.Some? ==> r.value == Matches(t, q)[0] && r.value in Matches(t, q)
  {
    if Matches(t, q) == [] then None else Some(Matches(t, q)[0])
  }

  /** The `Selector` class of process.py: it keeps the first match of a query. */
  datatype Selector = Selector(element: Option<Element>)
  {
    /** `Selector.text()`: the element's text, or `None` when there is no element. */
    function Text(): (r: Option<string>)
      ensures r.None? <==> element.None?
      ensures r.Some? ==> r.value == element.value.text
    {
      match element
      case None => None
      case Some(e) => Some(e.text)
    }
  }

  /** `Selector(tree, q)`. */
  function NewSelector(t: Tree, q: Query): (s: Selector)
    ensures s.element == Select(t, q)
  {
    var found := Matches(t, q);
    Selector(if found != [] then Some(found[0]) else None)
  }

  /** `Selector(tree, q).text()` is `None` exactly when the query matches nothing, and is
      otherwise the text of the same element `select` returns. */
  lemma SelectorTextIsFirstMatch(t: Tree, q: Query)
    ensures NewSelector(t, q).Text().None? <==> Matches(t, q) == []
    ensures Matches(t, q) != [] ==> NewSelector(t, q).Text() == Some(Matches(t, q)[0].text)
  {
  }

  /** The attribute `name` of `e`, as lxml's `element.get(name)` returns it. */
  function Get(e: Element, name: string): (r: Option<string>)
    ensures r.Some? <==> name in e.attrs
    ensures r.Some? ==> r.value == e.attrs[name]
  {
    if name in e.attrs then Some(e.attrs[name]) else None
  }

  /** The same tree with the answer to one query replaced. */
  function WithMatches(t: Tree, q: Query, found: seq<Element>): (r: Tree)
    ensures Matches(r, q) == found
    ensures forall q' :: q' != q ==> Matches(r, q') == Matches(t, q')
  {
    Tree(t.results[q := found])
  }
}
