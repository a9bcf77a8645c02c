/** The product listing of the static site: a search query, a category or a special view
    (best sellers, latest arrivals), a sort order, and a card per product with its badge. */
module StaticProducts {
  import opened Basics
  import opened Prices
  import opened Catalog

  /** The products whose lower-cased name or category contains the query; no query, or an empty
      one, keeps the whole list. The query is lower-cased and then trimmed. */
  function SearchFiltered(products: seq<Product>, q: Option<string>): (r: seq<Product>)
    ensures q.None? || q.value == "" ==> r == products
    ensures q.Some? && q.value != "" ==> r == SearchResults(products, Trim(ToLower(q.value)))
    ensures q.Some? && q.value != "" ==> forall p :: p in r <==> p in products && MatchesQuery(p, Trim(ToLower(q.value)))
  {
    if q.None? || q.value == "" then products else SearchResults(products, Trim(ToLower(q.value)))
  }

  predicate IsLatest(p: Product) {
    p.latestArrival == Some(true)
  }

  /** The "latest" view: the products marked as latest arrivals, or, when there are none, the
      last ten products, newest first. */
  function Latest(filtered: seq<Product>): (r: seq<Product>)
    ensures (exists k :: 0 <= k < |filtered| && IsLatest(filtered[k])) ==> r == Filter(filtered, IsLatest)
    ensures (exists k :: 0 <= k < |filtered| && IsLatest(filtered[k])) ==>
              forall p :: p in r <==> p in filtered && IsLatest(p)
    ensures (forall k :: 0 <= k < |filtered| ==> !IsLatest(filtered[k])) ==>
              |r| == (if |filtered| < 10 then |filtered| else 10)
              && forall k :: 0 <= k < |r| ==> r[k] == filtered[|filtered| - 1 - k]
  {
    var latest := Filter(filtered, IsLatest);
    if latest == [] then
      assert forall k :: 0 <= k < |filtered| ==> !IsLatest(filtered[k]) by {
        forall k | 0 <= k < |filtered|
          ensures !IsLatest(filtered[k])
        {
          assert filtered[k] in filtered;
        }
      }
      Take(Reverse(filtered), 10)
    else
      assert exists k :: 0 <= k < |filtered| && IsLatest(filtered[k]) by {
        assert latest[0] in filtered;
      }
      latest
  }

  /** The category, or else the special view, applied to the searched list. */
  function TypeFiltered(filtered: seq<Product>, category: string, kind: Option<string>): seq<Product> {
    if category != "" then Filter(filtered, (p: Product) => p.category == category)
    else if kind == Some("bestsellers") then Filter(filtered, (p: Product) => Truthy(p.bestseller))
    else if kind == Some("latest") then Latest(filtered)
    else filtered
  }

  /** The products the listing shows, before sorting. */
  function Selected(products: seq<Product>, q: Option<string>, category: string, kind: Option<string>): seq<Product> {
    TypeFiltered(SearchFiltered(products, q), category, kind)
  }

  /** The heading the listing ends up with. The search heading is written first but is always
      overwritten by one of these four. */
  function ListingTitle(category: string, kind: Option<string>): (t: string)
    ensures category != "" ==> t == Capitalize(category)
    ensures category == "" && kind == Some("bestsellers") ==> t == "Best Sellers"
    ensures category == "" && kind == Some("latest") ==> t == "Latest Arrivals"
    ensures category == "" && kind != Some("bestsellers") && kind != Some("latest") ==> t == "All Products"
  {
    if category != "" then Capitalize(category)
    else if kind == Some("bestsellers") then "Best Sellers"
    else if kind == Some("latest") then "Latest Arrivals"
    else "All Products"
  }

  /** Every product shown is a catalogue product that passes each filter in force: the search
      query, then the category, or else the special view. */
  lemma {:induction false} SelectedMembers(products: seq<Product>, q: Option<string>, category: string, kind: Option<string>, p: Product)
    requires p in Selected(products, q, category, kind)
    ensures p in products
    ensures q.Some? && q.value != "" ==> MatchesQuery(p, Trim(ToLower(q.value)))
    ensures category != "" ==> p.category == category
    ensures category == "" && kind == Some("bestsellers") ==> Truthy(p.bestseller)
  {
    var f := SearchFiltered(products, q);
    if category == "" && kind == Some("latest") {
      var r := Latest(f);
      if exists k :: 0 <= k < |f| && IsLatest(f[k]) {
        assert p in f;
      } else {
        var k :| 0 <= k < |r| && r[k] == p;
        assert f[|f| - 1 - k] == p;
      }
    }
  }

  /** The listing after the sort menu: the same products, ordered by price (parsed by removing
      "₹" and "," and reading the rest as a number) or by name whenever those compare. */
  lemma ListingSorted(products: seq<Product>, q: Option<string>, category: string, kind: Option<string>, sort: string)
    requires Comparable(SortOptionOf(sort), ParsePriceRupee, Selected(products, q, category, kind))
    ensures var shown := SortBy(SortOptionOf(sort), ParsePriceRupee, Selected(products, q, category, kind));
      multiset(shown) == multiset(Selected(products, q, category, kind))
      && Sorted(SortOptionOf(sort), ParsePriceRupee, shown)
  {
    SortBySorted(SortOptionOf(sort), ParsePriceRupee, Selected(products, q, category, kind));
  }

  /** What the grid shows: the "no products" message, or one card per product. */
  datatype Grid = NoProducts | Cards(products: seq<Product>)

  /** `filterProducts`: the list is narrowed step by step, then sorted. */
  method FilterProducts(products: seq<Product>, q: Option<string>, category: string, kind: Option<string>, sort: string)
    returns (title: string, grid: Grid)
    ensures title == ListingTitle(category, kind)
    ensures grid == NoProducts <==> Selected(products, q, category, kind) == []
    ensures grid.Cards? ==> grid.products == SortBy(SortOptionOf(sort), ParsePriceRupee, Selected(products, q, category, kind))
  {
    var filtered;
    title, filtered := NarrowProducts(products, q, category, kind);
    filtered := SortBy(SortOptionOf(sort), ParsePriceRupee, filtered);
    if |filtered| == 0 {
      grid := NoProducts;
    } else {
      grid := Cards(filtered);
    }
  }

  /** The narrowing steps of `filterProducts`, with the heading each step writes. */
  method NarrowProducts(products: seq<Product>, q: Option<string>, category: string, kind: Option<string>)
    returns (title: string, filtered: seq<Product>)
    ensures title == ListingTitle(category, kind)
    ensures filtered == Selected(products, q, category, kind)
  {
    filtered := products;
    title := "";
    if q.Some? && q.value != "" {
      var query := Trim(ToLower(q.value));
      filtered := Filter(filtered, (p: Product) => MatchesQuery(p, query));
      title := "Search results for \"" + q.value + "\"";
    }
    assert filtered == SearchFiltered(products, q);
    if category != "" {
      filtered := Filter(filtered, (p: Product) => p.category == category);
      title := Capitalize(category);
    } else if kind == Some("bestsellers") {
      filtered := Filter(filtered, (p: Product) => Truthy(p.bestseller));
      title := "Best Sellers";
    } else if kind == Some("latest") {
      var latest := Filter(filtered, IsLatest);
      if |latest| == 0 {
        latest := Take(Reverse(filtered), 10);
      }
      filtered := latest;
      title := "Latest Arrivals";
    } else {
      title := "All Products";
    }
  }

  // ---------------------------------------------------------------- a card

  /** `p.original_price ? parsePrice(p.original_price) : 0` against `parsePrice(p.price)`. */
  function ListingDeal(p: Product): (d: Deal)
    ensures d.Deal? <==> ParsePriceRupee(p.originalPrice).Some? && ParsePriceRupee(p.price).Some?
                         && ParsePriceRupee(p.originalPrice).value > ParsePriceRupee(p.price).value
  {
    DiscountOf(ParsePriceRupee(p.originalPrice), ParsePriceRupee(p.price))
  }

  /** A product without an original price is never a deal: prices are not negative. */
  lemma NoOriginalNoDeal(p: Product)
    requires p.originalPrice.None? || p.originalPrice.value == ""
    ensures ListingDeal(p) == NoDeal
  {
  }

  datatype Badge = LimitedDeal | BestSeller | New | NoBadge

  /** A deal first; then, outside the special views, a best seller, then a new arrival. */
  function ListingBadge(p: Product, kind: Option<string>): (b: Badge)
    ensures b == LimitedDeal <==> ListingDeal(p).Deal?
    ensures b == BestSeller <==> !ListingDeal(p).Deal? && Truthy(p.bestseller) && OptOrElse(kind, "") == ""
    ensures b == New <==> !ListingDeal(p).Deal? && !(Truthy(p.bestseller) && OptOrElse(kind, "") == "")
                          && Truthy(p.latestArrival) && OptOrElse(kind, "") == ""
  {
    if ListingDeal(p).Deal? then LimitedDeal
    else if Truthy(p.bestseller) && OptOrElse(kind, "") == "" then BestSeller
    else if Truthy(p.latestArrival) && OptOrElse(kind, "") == "" then New
    else NoBadge
  }

  /** `shopSettings.phone`, or the shop's number when the setting is empty. */
  function InquiryPhone(settingsPhone: Option<string>): string {
    OptOrElse(settingsPhone, "919002066361")
  }

  /** The "Inquire" button's link. */
  function InquiryUrl(p: Product, settingsPhone: Option<string>, enc: string -> string): string {
    WaMeLink(InquiryPhone(settingsPhone), enc("Hello, I'm interested in the " + p.name + " (Price: "
      + Interpolate(p.price) + "). Is it available?"))
  }

  /** The inquiry goes to the configured phone, or to the shop's number when none is set. */
  lemma InquiryUrlPhone(p: Product, settingsPhone: Option<string>, enc: string -> string)
    ensures settingsPhone.Some? && settingsPhone.value != "" ==>
              InquiryUrl(p, settingsPhone, enc)[..|WaMeLink(settingsPhone.value, "")|] == WaMeLink(settingsPhone.value, "")
    ensures (settingsPhone.None? || settingsPhone.value == "") ==>
              InquiryUrl(p, settingsPhone, enc)[..|WaMeLink("919002066361", "")|] == WaMeLink("919002066361", "")
  {
  }
}
