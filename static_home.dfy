/** The home page of the static site, apart from its carousel: the best-seller strip and the
    latest arrivals. */
module StaticHome {
  import opened Basics
  import opened Prices
  import opened Catalog
  import StaticProducts

  /** `products.filter(p => p.bestseller)`; an empty strip says "No bestsellers found.". */
  function HomeBestsellers(products: seq<Product>): (r: seq<Product>)
    ensures r == Filter(products, (p: Product) => Truthy(p.bestseller))
    ensures forall p :: p in r <==> p in products && Truthy(p.bestseller)
  {
    Filter(products, (p: Product) => Truthy(p.bestseller))
  }

  /** The strip's discount: `parseFloat` of the prices with everything but digits and dots
      removed, compared only when an original price is given. The current price must be
      present (the page calls `replace` on it). */
  function HomeDeal(p: Product): (d: Deal)
    requires p.price.Some?
    ensures d.Deal? <==> OptOrElse(p.originalPrice, "") != ""
                         && ParseFloatFiltered(p.originalPrice.value).Some? && ParseFloatFiltered(p.price.value).Some?
                         && ParseFloatFiltered(p.originalPrice.value).value > ParseFloatFiltered(p.price.value).value
  {
    if OptOrElse(p.originalPrice, "") != "" then
      DiscountOf(ParseFloatFiltered(p.originalPrice.value), ParseFloatFiltered(p.price.value))
    else NoDeal
  }

  /** A card of the strip: it always carries the "Limited Time Deal" ribbon, whether or not the
      product is reduced. */
  datatype StripCard = StripCard(id: Id, ribbon: bool, deal: Deal)

  function StripCardOf(p: Product): (c: StripCard)
    requires p.price.Some?
    ensures c.ribbon && c.deal == HomeDeal(p)
  {
    StripCard(p.id, true, HomeDeal(p))
  }

  /** On well-formed prices the strip and the listing page agree on the discount. */
  lemma HomeDealAgreesWithListing(p: Product)
    requires p.price.Some? && RupeePrice(p.price.value)
    requires p.originalPrice.Some? && RupeePrice(p.originalPrice.value)
    ensures HomeDeal(p) == StaticProducts.ListingDeal(p)
  {
    ParseFloatOnRupeePrice(p.price.value);
    ParseFloatOnRupeePrice(p.originalPrice.value);
    NumberOnRupeePrice(p.price.value);
    NumberOnRupeePrice(p.originalPrice.value);
  }

  /** The latest arrivals: up to eight products marked `latest_arrival === true`, or, when none
      is marked, the last eight products, newest first. */
  function HomeLatest(products: seq<Product>): (r: seq<Product>)
    ensures |r| <= 8
    ensures r == [] <==> products == []
  {
    var marked := Filter(products, StaticProducts.IsLatest);
    if marked == [] then Take(Reverse(products), 8) else Take(marked, 8)
  }

  /** The home page shows the first eight of what the listing's "latest" view shows. */
  lemma HomeLatestIsListingPrefix(products: seq<Product>)
    ensures HomeLatest(products) == Take(StaticProducts.Latest(products), 8)
  {
    var marked := Filter(products, StaticProducts.IsLatest);
    if marked == [] {
      var rev := Reverse(products);
      assert Take(Take(rev, 10), 8) == Take(rev, 8);
    }
  }

  /** The "NEW" tag of a latest card: only a product marked as a latest arrival. */
  function NewTag(p: Product): bool {
    Truthy(p.latestArrival)
  }

  // ---------------------------------------------------------------- the page

  /** The position of the first product without a price, or the length when every product has
      one. */
  function FirstPriceless(s: seq<Product>): (k: nat)
    ensures k <= |s|
    ensures forall i :: 0 <= i < k ==> s[i].price.Some?
    ensures k < |s| ==> s[k].price.None?
  {
    if s == [] then 0
    else if s[0].price.None? then 0
    else 1 + FirstPriceless(s[1..])
  }

  datatype StripView = NoBestsellers | Strip(cards: seq<StripCard>)

  datatype LatestCard = LatestCard(id: Id, newTag: bool)

  /** The two sections the page's script fills. `latest` is `None` when the script stopped
      before reaching the latest arrivals. */
  datatype HomeView = HomeView(strip: StripView, latest: Option<seq<LatestCard>>)

  function LatestCards(products: seq<Product>): (r: seq<LatestCard>)
    ensures |r| == |HomeLatest(products)|
    ensures forall k :: 0 <= k < |r| ==> r[k] == LatestCard(HomeLatest(products)[k].id, NewTag(HomeLatest(products)[k]))
  {
    var latest := HomeLatest(products);
    seq(|latest|, k requires 0 <= k < |latest| => LatestCard(latest[k].id, NewTag(latest[k])))
  }

  /** The home page's script: the strip gets one card per best seller, in order, until a best
      seller without a price, where `product.price.replace` throws; the cards built so far stay
      and the rest of the script, the latest arrivals included, does not run. */
  function HomePage(products: seq<Product>): (v: HomeView)
    ensures v.strip == NoBestsellers <==> HomeBestsellers(products) == []
    ensures v.strip.Strip? ==>
              var best := HomeBestsellers(products);
              |v.strip.cards| <= |best|
              && (forall k :: 0 <= k < |v.strip.cards| ==> best[k].price.Some? && v.strip.cards[k] == StripCardOf(best[k]))
              && (|v.strip.cards| < |best| ==> best[|v.strip.cards|].price.None?)
    ensures v.latest.Some? <==> forall p :: p in HomeBestsellers(products) ==> p.price.Some?
    ensures v.latest.Some? ==> v.latest.value == LatestCards(products)
  {
    var best := HomeBestsellers(products);
    if best == [] then HomeView(NoBestsellers, Some(LatestCards(products)))
    else
      var stop := FirstPriceless(best);
      var cards := seq(stop, k requires 0 <= k < stop => StripCardOf(best[k]));
      HomeView(Strip(cards), if stop == |best| then Some(LatestCards(products)) else None)
  }

  /** A best seller without a price that comes first in the catalogue leaves the strip without
      a card and hides the latest arrivals. */
  lemma PricelessFirstBestseller(products: seq<Product>)
    requires products != [] && Truthy(products[0].bestseller) && products[0].price.None?
    ensures HomePage(products) == HomeView(Strip([]), None)
  {
    var best := HomeBestsellers(products);
    assert products[0] in best;
    FilterCons(products[0], products[1..], (p: Product) => Truthy(p.bestseller));
    assert [products[0]] + products[1..] == products;
    assert best[0] == products[0];
  }
}
