/** The product page of the dynamic site: the product fetched from `/api/product/<id>`, its
    price block and buttons, the WhatsApp "Buy Now" link, the related products of the same
    category and the cart button. */
module DynamicProductPage {
  import opened Basics
  import opened Prices
  import opened Catalog
  import opened CartStore
  import ProductCards
  import DynamicCart

  /** The outcome of `fetch('/api/product/<id>')`: a product, a response that is not OK, or an
      exception (network failure, malformed JSON). */
  datatype Response = Found(product: Product) | NotFound | LoadFailed

  /** The price area: "Unavailable", the price as stored, or the M.R.P. row with the rounded
      percentage above the price. */
  datatype PriceBlock =
    | Unavailable
    | Current(price: string)
    | Reduced(original: string, percent: int, price: string)

  datatype DetailView = DetailView(
    name: string,
    price: PriceBlock,
    status: string,
    description: string,
    dimensions: string,
    material: string,
    cartButton: string,
    buyButton: string,
    buttonsEnabled: bool,
    buyUrl: string)

  datatype Page = Message(text: string) | Detail(view: DetailView)

  /** The message the "Buy Now" link sends. */
  function InterestMessage(p: Product): string {
    "I'm interested in the " + p.name + " (Price: " + Interpolate(p.price) + ")"
  }

  /** `displayProductDetails`: missing texts fall back to fixed ones; an unavailable product shows
      neither a price nor a deal and disables both buttons. */
  function DetailOf(p: Product, shopPhone: string, enc: string -> string): (v: DetailView)
    ensures v.name == p.name
    ensures v.description == OptOrElse(p.description, "No description available.")
    ensures v.dimensions == OptOrElse(p.dimensions, "N/A") && v.material == OptOrElse(p.material, "N/A")
    ensures v.buttonsEnabled <==> IsAvailable(p)
    ensures v.status == (if IsAvailable(p) then "In Stock" else "Currently Unavailable")
    ensures v.cartButton == (if IsAvailable(p) then "Add to Cart" else "Out of Stock")
    ensures v.buyButton == (if IsAvailable(p) then "Buy Now" else "Out of Stock")
    ensures v.price == Unavailable <==> !IsAvailable(p)
    ensures v.price.Reduced? <==> ProductCards.AvailableDeal(p).Deal?
    ensures v.price.Reduced? ==> v.price.percent == ProductCards.AvailableDeal(p).percent && 0 <= v.price.percent <= 100
    ensures v.price.Reduced? ==> v.price.original == Interpolate(p.originalPrice) && v.price.price == Interpolate(p.price)
    ensures v.price.Current? ==> v.price.price == Interpolate(p.price)
    ensures v.buyUrl == WaMeLink(shopPhone, enc(InterestMessage(p)))
  {
    var deal := ProductCards.AvailableDeal(p);
    var available := IsAvailable(p);
    var price :=
      if !available then Unavailable
      else if deal.Deal? then Reduced(Interpolate(p.originalPrice), deal.percent, Interpolate(p.price))
      else Current(Interpolate(p.price));
    DetailView(
      p.name, price,
      if available then "In Stock" else "Currently Unavailable",
      OptOrElse(p.description, "No description available."),
      OptOrElse(p.dimensions, "N/A"),
      OptOrElse(p.material, "N/A"),
      if available then "Add to Cart" else "Out of Stock",
      if available then "Buy Now" else "Out of Stock",
      available,
      WaMeLink(shopPhone, enc(InterestMessage(p))))
  }

  /** The page for the `id` parameter and the outcome of the request (made only for a non-empty
      parameter). */
  function PageOf(idParam: Option<string>, response: Response, shopPhone: string, enc: string -> string): (page: Page)
    ensures OptOrElse(idParam, "") == "" ==> page == Message("No product selected.")
    ensures OptOrElse(idParam, "") != "" ==>
              match response
              case Found(p) => page == Detail(DetailOf(p, shopPhone, enc))
              case NotFound => page == Message("Product not found.")
              case LoadFailed => page == Message("Error loading product details.")
  {
    if OptOrElse(idParam, "") == "" then Message("No product selected.")
    else match response
      case Found(p) => Detail(DetailOf(p, shopPhone, enc))
      case NotFound => Message("Product not found.")
      case LoadFailed => Message("Error loading product details.")
  }

  /** Two products with the same name and price text send the same message whatever else
      differs, and a product for sale always gets a link to the shop's number. */
  lemma BuyLinkNamesProduct(p: Product, q: Product, shopPhone: string, enc: string -> string)
    requires p.name == q.name && p.price == q.price
    ensures DetailOf(p, shopPhone, enc).buyUrl == DetailOf(q, shopPhone, enc).buyUrl
    ensures DetailOf(p, shopPhone, enc).buyUrl[..|"https://wa.me/" + shopPhone|] == "https://wa.me/" + shopPhone
  {
  }

  // ---------------------------------------------------------------- related products

  /** A related product: for sale and not the product shown, comparing ids as text. */
  predicate IsRelated(q: Product, currentId: Id) {
    IdString(q.id) != IdString(currentId) && IsAvailable(q)
  }

  datatype RelatedSection = NotShown | NoRelated | Cards(products: seq<Product>)

  /** `products.filter(...).slice(0, 4)`: the first four related products of the response, in
      its order. */
  function FirstRelated(products: seq<Product>, currentId: Id): (r: seq<Product>)
    ensures FirstKept(products, (q: Product) => IsRelated(q, currentId), 4, r)
    ensures forall q :: q in r ==> q in products && IsRelated(q, currentId)
    ensures r == [] <==> forall q :: q in products ==> !IsRelated(q, currentId)
  {
    var all := Filter(products, (q: Product) => IsRelated(q, currentId));
    TakeFilterFirstKept(products, (q: Product) => IsRelated(q, currentId), 4);
    var r := Take(all, 4);
    assert forall q :: q in r ==> q in all;
    assert all != [] ==> all[0] in r;
    r
  }

  /** `displayRelatedProducts`: asked for only when the product has a category; a failed request
      leaves the section as it is; otherwise the first four related products of the category,
      with their ids turned into text. */
  function RelatedOf(p: Product, response: Option<seq<Product>>): (r: RelatedSection)
    ensures r == NotShown <==> p.category == "" || response.None?
    ensures r == NoRelated <==>
              p.category != "" && response.Some? && forall q :: q in response.value ==> !IsRelated(q, p.id)
    ensures r.Cards? ==> 1 <= |r.products| <= 4
    ensures r.Cards? ==> r.products == WithTextIds(FirstRelated(response.value, p.id))
    ensures r.Cards? ==> forall k :: 0 <= k < |r.products| ==>
                           r.products[k].id.Text? && IsRelated(r.products[k], p.id)
                           && exists q :: q in response.value && r.products[k] == WithTextId(q)
  {
    if p.category == "" || response.None? then NotShown
    else
      var related := FirstRelated(response.value, p.id);
      if related == [] then NoRelated
      else
        RelatedCards(related, response.value, p.id);
        Cards(WithTextIds(related))
  }

  /** Related products keep being related once their ids are text, and each card comes from
      the answer. */
  lemma RelatedCards(related: seq<Product>, products: seq<Product>, currentId: Id)
    requires forall q :: q in related ==> q in products && IsRelated(q, currentId)
    ensures forall k :: 0 <= k < |related| ==>
              WithTextIds(related)[k].id.Text? && IsRelated(WithTextIds(related)[k], currentId)
              && exists q :: q in products && WithTextIds(related)[k] == WithTextId(q)
  {
    var cards := WithTextIds(related);
    forall k | 0 <= k < |related|
      ensures cards[k].id.Text? && IsRelated(cards[k], currentId)
              && exists q :: q in products && cards[k] == WithTextId(q)
    {
      assert related[k] in related && cards[k] == WithTextId(related[k]);
    }
  }

  // ---------------------------------------------------------------- the cart button

  /** The button's label before and after a click; the icon markup of both is left out. */
  const CartLabel := "Add to Cart"
  const AddedLabel := "Added"

  /** The page's "Add to Cart" button. Its listener is attached only for a product for sale.
      Every click adds by strict id, reads the label shown at that moment, shows "Added" and
      starts a two-second timer that writes the label it read back. The timers all last two
      seconds, so they end in the order of the clicks: `pending` holds, oldest first, the label
      each running timer will write back. */
  class CartButton {
    const storage: CartStorage
    const product: Product
    var text: string
    var addedClass: bool
    var pending: seq<string>

    constructor (storage: CartStorage, product: Product)
      ensures this.storage == storage && this.product == product
      ensures text == CartLabel && !addedClass && pending == []
    {
      this.storage := storage;
      this.product := product;
      text := CartLabel;
      addedClass := false;
      pending := [];
    }

    method Click()
      modifies this, storage
      ensures IsAvailable(product) ==> storage.Cart() == AddedStrict(old(storage.Cart()), product)
                                       && CartCount(storage.Cart()) == CartCount(old(storage.Cart())) + 1
                                       && text == AddedLabel && addedClass
                                       && pending == old(pending) + [old(text)]
      ensures !IsAvailable(product) ==> storage.Cart() == old(storage.Cart())
                                        && text == old(text) && addedClass == old(addedClass)
                                        && pending == old(pending)
    {
      if IsAvailable(product) {
        storage.AddStrict(product);
        pending := pending + [text];
        text := AddedLabel;
        addedClass := true;
      }
    }

    /** The oldest running timer ends: the label its click read comes back and the "added"
        class goes. */
    method TimerEnds()
      requires pending != []
      modifies this
      ensures text == old(pending)[0] && !addedClass && pending == old(pending)[1..]
    {
      text := pending[0];
      addedClass := false;
      pending := pending[1..];
    }
  }

  /** One click on a product for sale: once its timer ends the button reads "Add to Cart" again. */
  method OneClickRestores(product: Product) returns (text: string, added: bool)
    requires IsAvailable(product)
    ensures text == CartLabel && !added
  {
    var storage := new CartStorage();
    var button := new CartButton(storage, product);
    button.Click();
    button.TimerEnds();
    text, added := button.text, button.addedClass;
  }

  /** Two clicks within two seconds: the second click reads "Added", so once both timers have
      ended the button keeps reading "Added" (without the "added" class) for good. */
  method DoubleClickKeepsAdded(product: Product) returns (text: string, added: bool)
    requires IsAvailable(product)
    ensures text == AddedLabel && !added
  {
    var storage := new CartStorage();
    var button := new CartButton(storage, product);
    button.Click();
    button.Click();
    button.TimerEnds();
    button.TimerEnds();
    text, added := button.text, button.addedClass;
  }
}
