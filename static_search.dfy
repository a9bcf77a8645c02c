/** The search page of the static site: the query of the `q` parameter, the matching products,
    the result count and a card per result. */
module StaticSearch {
  import opened Basics
  import opened Prices
  import opened Catalog
  import StaticProducts

  /** `params.get('q') ? params.get('q').trim().toLowerCase() : ''`. */
  function SearchQuery(q: Option<string>): (r: string)
    ensures r == ToLower(Trim(OptOrElse(q, "")))
    ensures r == "" <==> Trim(OptOrElse(q, "")) == ""
  {
    if OptOrElse(q, "") == "" then "" else ToLower(Trim(q.value))
  }

  /** What the search page shows on a card: the listing's badge without a special view, the
      listing's discount, and the buttons only for a product for sale. */
  datatype SearchCard = SearchCard(id: Id, badge: StaticProducts.Badge, deal: Deal, buttons: bool)

  datatype SearchView =
    | Prompt
    | NoResults(title: string, meta: string)
    | Results(title: string, meta: string, cards: seq<SearchCard>)

  function ResultsTitle(query: string): string {
    "Results for \"" + query + "\""
  }

  function CountText(n: nat): string {
    NatToString(n) + " product(s) found"
  }

  /** A card as the page means it, reading prices with the listing page's parser (the page
      announces its card logic as copied from the listing). */
  function SearchCardOf(p: Product): (c: SearchCard)
    ensures c.badge == StaticProducts.ListingBadge(p, None) && c.deal == StaticProducts.ListingDeal(p)
    ensures c.buttons <==> IsAvailable(p)
  {
    SearchCard(p.id, StaticProducts.ListingBadge(p, None), StaticProducts.ListingDeal(p), IsAvailable(p))
  }

  function SearchCards(results: seq<Product>): (r: seq<SearchCard>)
    ensures |r| == |results| && forall k :: 0 <= k < |r| ==> r[k] == SearchCardOf(results[k])
  {
    if results == [] then [] else [SearchCardOf(results[0])] + SearchCards(results[1..])
  }

  /** The page as intended: a prompt for an empty query, the "No products found" panel, or one
      card per result in catalogue order. */
  function SearchPage(products: seq<Product>, q: Option<string>): (v: SearchView)
    ensures v == Prompt <==> SearchQuery(q) == ""
    ensures v.Results? ==> |v.cards| == |SearchResults(products, SearchQuery(q))| >= 1
                           && v.meta == CountText(|v.cards|)
                           && forall k :: 0 <= k < |v.cards| ==>
                                v.cards[k] == SearchCardOf(SearchResults(products, SearchQuery(q))[k])
    ensures v.NoResults? <==> SearchQuery(q) != "" && forall p :: p in products ==> !MatchesQuery(p, SearchQuery(q))
  {
    var query := SearchQuery(q);
    if query == "" then Prompt
    else
      var results := SearchResults(products, query);
      if results == [] then NoResults(ResultsTitle(query), CountText(0))
      else
        assert results[0] in results;
        Results(ResultsTitle(query), CountText(|results|), SearchCards(results))
  }

  /** The page as written: the card loop calls a `parsePrice` that neither this module nor any
      module it imports defines (the helper of the shared script is local to that module), so
      the first card throws after the grid was emptied and the count was written. */
  function SearchPageAsWritten(products: seq<Product>, q: Option<string>): SearchView {
    var query := SearchQuery(q);
    if query == "" then Prompt
    else
      var results := SearchResults(products, query);
      if results == [] then NoResults(ResultsTitle(query), CountText(0))
      else Results(ResultsTitle(query), CountText(|results|), [])
  }

  /** As written, every search that finds something announces its results and shows none. */
  lemma AsWrittenShowsNoCards(products: seq<Product>, q: Option<string>)
    ensures SearchPage(products, q).Results? ==>
              SearchPageAsWritten(products, q).Results? && SearchPageAsWritten(products, q).cards == []
              && SearchPageAsWritten(products, q).meta == SearchPage(products, q).meta
    ensures !SearchPage(products, q).Results? ==> SearchPageAsWritten(products, q) == SearchPage(products, q)
  {
  }

  /** Any product that matches a non-empty query gets a card as intended and none as written. */
  lemma MatchLostAsWritten(products: seq<Product>, q: Option<string>, p: Product)
    requires p in products && SearchQuery(q) != "" && MatchesQuery(p, SearchQuery(q))
    ensures SearchCardOf(p) in SearchPage(products, q).cards
    ensures SearchPageAsWritten(products, q).cards == []
  {
    var results := SearchResults(products, SearchQuery(q));
    assert p in results;
    var k :| 0 <= k < |results| && results[k] == p;
    assert SearchPage(products, q).cards[k] == SearchCardOf(p);
  }

  /** Whenever the search page lists results, they are exactly the products the listing page
      shows for the same `q` parameter (which lower-cases before trimming). */
  lemma SameResultsAsListing(products: seq<Product>, q: Option<string>)
    requires SearchQuery(q) != ""
    ensures forall p :: p in SearchResults(products, SearchQuery(q)) <==> p in StaticProducts.SearchFiltered(products, q)
  {
    TrimLowerCommute(q.value);
  }

  /** The card's "Inquire" button: `shopSettings.phone` and a message naming the product. */
  function SearchInquiryUrl(p: Product, phone: string, enc: string -> string): string {
    WaMeLink(phone, enc(SearchInquiryText(p.name)))
  }

  function SearchInquiryText(name: string): string {
    "Hello, I saw this on search: " + name + ". Is it available?"
  }

  /** With an encoding that loses nothing, the link of a card names its product. */
  lemma SearchInquiryNamesProduct(p: Product, q: Product, phone: string, enc: string -> string)
    requires forall a, b :: enc(a) == enc(b) ==> a == b
    requires SearchInquiryUrl(p, phone, enc) == SearchInquiryUrl(q, phone, enc)
    ensures p.name == q.name
  {
    WaMeLinkText(phone, enc(SearchInquiryText(p.name)), enc(SearchInquiryText(q.name)));
    var n := |"Hello, I saw this on search: "|;
    var tp := SearchInquiryText(p.name);
    var tq := SearchInquiryText(q.name);
    assert |p.name| == |q.name|;
    assert p.name == tp[n..n + |p.name|];
    assert q.name == tq[n..n + |q.name|];
  }
}
