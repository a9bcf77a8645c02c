/** The product page of the static site: the product named by the `id` parameter, its price
    block, its image gallery, its availability, the related products and the animated
    "Add to Cart" button. */
module StaticProductPage {
  import opened Basics
  import opened Prices
  import opened Catalog
  import opened CartStore

  /** `products.find(p => p.id == id)` with the `id` parameter of the URL; a missing parameter
      (`null`) equals no product id. */
  function LookupProduct(products: seq<Product>, idParam: Option<string>): (r: Option<Product>)
    ensures r.Some? ==> r.value in products && idParam.Some? && LooseEq(r.value.id, Text(idParam.value))
    ensures r.Some? ==> exists k :: 0 <= k < |products| && products[k] == r.value
                                    && forall j :: 0 <= j < k ==> !LooseEq(products[j].id, Text(idParam.value))
    ensures r.None? && idParam.Some? ==> forall k :: 0 <= k < |products| ==> !LooseEq(products[k].id, Text(idParam.value))
  {
    if idParam.None? then None else FindProduct(products, Text(idParam.value))
  }

  // ---------------------------------------------------------------- the price block

  /** The price block as written: the page's `parsePrice` drops the characters of a
      mis-encoded rupee sign, so "₹" stays in the text and every catalogue price reads as NaN. */
  function DetailDealAsWritten(p: Product): Deal {
    DiscountOf(ParsePriceMisencoded(p.originalPrice), ParsePriceMisencoded(p.price))
  }

  /** With a well-formed current price the page as written never shows a deal. */
  lemma AsWrittenNeverDeal(p: Product)
    requires p.price.Some? && RupeePrice(p.price.value)
    ensures DetailDealAsWritten(p) == NoDeal
  {
    MisencodedOnRupeePrice(p.price.value);
  }

  /** The price block as intended: the listing's parser, which drops "₹" and ",". */
  function DetailDeal(p: Product): Deal {
    DiscountOf(ParsePriceRupee(p.originalPrice), ParsePriceRupee(p.price))
  }

  /** With well-formed prices the corrected block shows a deal exactly when the M.R.P. is above
      the price, with the rounded percentage saved. */
  lemma DetailDealOnRupeePrices(p: Product)
    requires p.price.Some? && RupeePrice(p.price.value)
    requires p.originalPrice.Some? && RupeePrice(p.originalPrice.value)
    ensures DetailDeal(p).Deal? <==> RupeeValue(p.originalPrice.value) > RupeeValue(p.price.value)
    ensures DetailDeal(p).Deal? ==>
              DetailDeal(p).percent == PercentOff(RupeeValue(p.originalPrice.value) as real, RupeeValue(p.price.value) as real)
  {
    NumberOnRupeePrice(p.price.value);
    NumberOnRupeePrice(p.originalPrice.value);
  }

  /** The dining table of the catalogue (M.R.P. "₹22,000", price "₹18,500"): 16% off as
      intended, no deal as written. */
  lemma TableOnDetailPage(p: Product)
    requires p.originalPrice == Some("\U{20B9}22,000") && p.price == Some("\U{20B9}18,500")
    ensures DetailDeal(p) == Deal(16)
    ensures DetailDealAsWritten(p) == NoDeal
  {
    TableDeal();
    TablePrices();
    AsWrittenNeverDeal(p);
  }

  // ---------------------------------------------------------------- the gallery

  /** `product.images` when it has any, else the single `product.image`. */
  function GalleryImages(p: Product): (r: seq<string>)
    ensures |r| >= 1
    ensures |p.images| > 0 ==> r == p.images
    ensures |p.images| == 0 ==> r == [p.image]
  {
    if |p.images| > 0 then p.images else [p.image]
  }

  /** Dots and the previous/next buttons exist only for more than one image. */
  function HasGalleryControls(p: Product): (b: bool)
    ensures b <==> |p.images| > 1
  {
    |GalleryImages(p)| > 1
  }

  /** `product.available ? 'In Stock' : 'Out of Stock'`. */
  function AvailabilityText(p: Product): string {
    if Truthy(p.available) then "In Stock" else "Out of Stock"
  }

  /** A product without the flag is offered for sale everywhere else, but this page calls it out
      of stock. */
  lemma AbsentFlagOutOfStock(p: Product)
    requires p.available.None?
    ensures AvailabilityText(p) == "Out of Stock" && IsAvailable(p)
  {
  }

  /** The "Buy on WhatsApp" message. */
  function OrderMessage(p: Product): string {
    "Hello, I'm interested in the " + p.name + " (Price: " + Interpolate(p.price) + "). Is it available?"
  }

  // ---------------------------------------------------------------- related products

  predicate IsRelated(p: Product, q: Product) {
    q.category == p.category && q.id != p.id
  }

  /** Same category, a strictly different id: the first fifteen such products, in catalogue
      order. */
  function Related(products: seq<Product>, p: Product): (r: seq<Product>)
    ensures FirstKept(products, (q: Product) => IsRelated(p, q), 15, r)
    ensures forall q :: q in r ==> q in products && IsRelated(p, q)
    ensures p !in r
  {
    var all := Filter(products, (q: Product) => IsRelated(p, q));
    TakeFilterFirstKept(products, (q: Product) => IsRelated(p, q), 15);
    var r := Take(all, 15);
    assert forall q :: q in r ==> q in all;
    r
  }

  /** Every related product is kept while there are at most fifteen. */
  lemma RelatedComplete(products: seq<Product>, p: Product, q: Product)
    requires q in products && IsRelated(p, q)
    requires |Filter(products, (x: Product) => IsRelated(p, x))| <= 15
    ensures q in Related(products, p)
  {
  }

  /** The grid's classes for `n` related products: "category-grid" first, then the count class
      ("count-1" to "count-4", or "count-plus" above four), then "desktop-overflow" above nine. */
  function GridClasses(n: nat): (r: seq<string>)
    ensures |r| >= 1 && r[0] == "category-grid"
    ensures "count-plus" in r <==> n > 4
    ensures "desktop-overflow" in r <==> n > 9
    ensures n == 1 <==> "count-1" in r
    ensures n == 2 <==> "count-2" in r
    ensures n == 3 <==> "count-3" in r
    ensures n == 4 <==> "count-4" in r
    ensures |r| == (if n == 0 then 1 else if n > 9 then 3 else 2)
  {
    ["category-grid"]
    + (if n == 1 then ["count-1"] else if n == 2 then ["count-2"] else if n == 3 then ["count-3"]
       else if n == 4 then ["count-4"] else if n > 4 then ["count-plus"] else [])
    + (if n > 9 then ["desktop-overflow"] else [])
  }

  // ---------------------------------------------------------------- the page

  /** The details of a found product. `deal` is the price block, and `relatedDeals` holds the
      "% OFF" tag of each related mini-card (the same parser and the same rule). Both are
      computed as intended, with the listing's parser: the page as written reads every
      well-formed price as NaN and shows no deal anywhere (AsWrittenNeverDeal). */
  datatype DetailView =
    | ProductNotFound
    | Detail(product: Product, deal: Deal, images: seq<string>, controls: bool, availability: string,
             related: seq<Product>, relatedDeals: seq<Deal>, gridClasses: seq<string>)

  /** The page for an `id` parameter: "Product not found." alone (the related section hidden), or
      the details of the product the parameter names. */
  function PageOf(products: seq<Product>, idParam: Option<string>): (v: DetailView)
    ensures v == ProductNotFound <==> LookupProduct(products, idParam).None?
    ensures v.Detail? ==> LookupProduct(products, idParam) == Some(v.product)
    ensures v.Detail? ==> v.deal == DetailDeal(v.product)
    ensures v.Detail? ==> v.images == GalleryImages(v.product) && v.controls == HasGalleryControls(v.product)
    ensures v.Detail? ==> v.availability == AvailabilityText(v.product)
    ensures v.Detail? ==> v.related == Related(products, v.product)
                          && FirstKept(products, (q: Product) => IsRelated(v.product, q), 15, v.related)
    ensures v.Detail? ==> |v.relatedDeals| == |v.related|
                          && forall k :: 0 <= k < |v.related| ==> v.relatedDeals[k] == DetailDeal(v.related[k])
    ensures v.Detail? ==> v.gridClasses == GridClasses(|v.related|)
  {
    var found := LookupProduct(products, idParam);
    if found.None? then ProductNotFound
    else
      var p := found.value;
      var related := Related(products, p);
      var deals := seq(|related|, k requires 0 <= k < |related| => DetailDeal(related[k]));
      Detail(p, DetailDeal(p), GalleryImages(p), HasGalleryControls(p), AvailabilityText(p), related,
             deals, GridClasses(|related|))
  }

  // ---------------------------------------------------------------- the cart button

  /** The button runs an animation (1.2 s), then shows "Added" (2 s), then is ready again. */
  datatype ButtonState = Ready | Animating | Added

  class AddToCartButton {
    var state: ButtonState
    const storage: CartStorage

    constructor (storage: CartStorage)
      ensures state == Ready && this.storage == storage
    {
      state := Ready;
      this.storage := storage;
    }

    /** `addToCart(id)`: ignored while the button animates or shows "Added"; otherwise the
        product is added by loose id and the animation starts. */
    method Click(products: seq<Product>, id: string)
      modifies this, storage
      ensures old(state) != Ready ==> state == old(state) && storage.Cart() == old(storage.Cart())
      ensures old(state) == Ready ==> state == Animating
                                      && storage.Cart() == AddedLoose(old(storage.Cart()), products, Text(id))
                                      && CartCount(storage.Cart()) == CartCount(old(storage.Cart())) + 1
    {
      if state != Ready {
        return;
      }
      storage.AddLoose(products, Text(id));
      state := Animating;
    }

    /** The first timer: the badge is refreshed and the button shows "Added". */
    method AnimationEnds()
      requires state == Animating
      modifies this
      ensures state == Added
    {
      state := Added;
    }

    /** The second timer: the button is ready again. */
    method ResetEnds()
      requires state == Added
      modifies this
      ensures state == Ready
    {
      state := Ready;
    }
  }
}
