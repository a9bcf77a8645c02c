/** The cart page of the static site: the rows and totals it shows, the buttons that change a
    line, and the WhatsApp order it composes. */
module StaticCart {
  import opened Basics
  import opened Prices
  import opened CartStore

  /** `shopSettings.phone`, or "0000000000" when the settings carry none. */
  function ShopPhone(settingsPhone: Option<string>): string {
    OptOrElse(settingsPhone, "0000000000")
  }

  /** The quantity a row shows and counts: `(q && q > 0) ? parseInt(q) : 1`. */
  function RowQty(q: int): int {
    if q > 0 then q else 1
  }

  /** The quantity the order message uses: `item.quantity || 1`. */
  function OrderQty(q: int): int {
    if q == 0 then 1 else q
  }

  /** One rendered line of the cart. */
  datatype Row = Row(image: string, alt: string, name: string, price: string, qty: int, index: nat)

  /** The page: the "empty cart" message, or the rows with the item count and the total. */
  datatype CartView = EmptyCart | Filled(rows: seq<Row>, totalQty: int, totalText: string)

  function RowOf(l: CartLine, index: nat): Row {
    Row(OptOrElse(l.image, ""), OptOrElse(l.name, "Product"), OptOrElse(l.name, "Unknown Product"),
        OptOrElse(l.price, "\U{20B9}0"), RowQty(l.quantity), index)
  }

  function Rows(cart: seq<CartLine>): (r: seq<Row>)
    ensures |r| == |cart|
  {
    seq(|cart|, k requires 0 <= k < |cart| => RowOf(cart[k], k))
  }

  /** The item count of the summary: the sum of the rows' quantities. */
  function TotalQty(cart: seq<CartLine>): int {
    if cart == [] then 0 else TotalQty(cart[..|cart| - 1]) + RowQty(cart[|cart| - 1].quantity)
  }

  /** The total of the summary: each price, read by `getPrice`, times the row's quantity. */
  function TotalPrice(cart: seq<CartLine>): real {
    if cart == [] then 0.0 else TotalPrice(cart[..|cart| - 1]) + RowTotal(cart[|cart| - 1])
  }

  /** `getPrice(item.price) * qty`. */
  function RowTotal(l: CartLine): real {
    Subtotal(ParsePriceOrZero(l.price), RowQty(l.quantity))
  }

  /** The price of `qty` units. */
  function Subtotal(price: real, qty: int): real {
    price * qty as real
  }

  /** The running values of `renderCart` after one more line. */
  lemma PrefixStep(cart: seq<CartLine>, i: nat)
    requires i < |cart|
    ensures TotalQty(cart[..i + 1]) == TotalQty(cart[..i]) + RowQty(cart[i].quantity)
    ensures TotalPrice(cart[..i + 1]) == TotalPrice(cart[..i]) + RowTotal(cart[i])
    ensures Rows(cart[..i + 1]) == Rows(cart[..i]) + [RowOf(cart[i], i)]
  {
    var next := cart[..i + 1];
    assert next[..i] == cart[..i] && next[i] == cart[i];
    RowsStep(cart, i);
  }

  lemma RowsStep(cart: seq<CartLine>, i: nat)
    requires i < |cart|
    ensures Rows(cart[..i + 1]) == Rows(cart[..i]) + [RowOf(cart[i], i)]
  {
    var a := Rows(cart[..i + 1]);
    var b := Rows(cart[..i]) + [RowOf(cart[i], i)];
    assert |a| == |b|;
    forall k | 0 <= k < |a|
      ensures a[k] == b[k]
    {
      if k < i {
        assert b[k] == Rows(cart[..i])[k];
      }
    }
  }

  /** The page as `renderCart` leaves it; `fmt` is `toLocaleString('en-IN')`. */
  function ViewOf(cart: seq<CartLine>, fmt: real -> string): CartView {
    if cart == [] then EmptyCart
    else Filled(Rows(cart), TotalQty(cart), [Rupee] + fmt(TotalPrice(cart)))
  }

  /** Every row counts at least one item, so the count is at least the number of rows. */
  lemma {:induction false} TotalQtyAtLeastRows(cart: seq<CartLine>)
    ensures TotalQty(cart) >= |cart|
  {
    if cart != [] {
      TotalQtyAtLeastRows(cart[..|cart| - 1]);
    }
  }

  /** With positive quantities the page's item count is the header badge's count. */
  lemma {:induction false} TotalQtyIsCartCount(cart: seq<CartLine>)
    requires Positive(cart)
    ensures TotalQty(cart) == CartCount(cart)
  {
    if cart != [] {
      TotalQtyIsCartCount(cart[..|cart| - 1]);
    }
  }

  // ---------------------------------------------------------------- the order message

  const OrderHeader: string := "Hello, I would like to place an order for the following items:\n\n"
  const OrderFooter: string := "\n\nPlease confirm availability and delivery charges."

  /** `${i + 1}. ${name || 'Item'}\n   Qty: ${qty} | Price: ${price || '₹0'}\n`. */
  function ItemLine(i: nat, l: CartLine): string {
    IntToString(i + 1) + ". " + OptOrElse(l.name, "Item") + "\n   Qty: " + IntToString(OrderQty(l.quantity))
    + " | Price: " + OptOrElse(l.price, "\U{20B9}0") + "\n"
  }

  function ItemLines(cart: seq<CartLine>): string {
    if cart == [] then "" else ItemLines(cart[..|cart| - 1]) + ItemLine(|cart| - 1, cart[|cart| - 1])
  }

  /** The estimate in the message: each price times `quantity || 1`. */
  function OrderTotal(cart: seq<CartLine>): real {
    if cart == [] then 0.0 else OrderTotal(cart[..|cart| - 1]) + OrderLineTotal(cart[|cart| - 1])
  }

  function OrderLineTotal(l: CartLine): real {
    Subtotal(ParsePriceOrZero(l.price), OrderQty(l.quantity))
  }

  /** The running message and estimate of `checkout` after one more line. */
  lemma OrderStep(cart: seq<CartLine>, i: nat)
    requires i < |cart|
    ensures ItemLines(cart[..i + 1]) == ItemLines(cart[..i]) + ItemLine(i, cart[i])
    ensures OrderTotal(cart[..i + 1]) == OrderTotal(cart[..i]) + OrderLineTotal(cart[i])
  {
    var next := cart[..i + 1];
    assert next[..i] == cart[..i] && next[i] == cart[i];
  }

  function OrderMessage(cart: seq<CartLine>, fmt: real -> string): string {
    OrderHeader + ItemLines(cart) + "\n*Total Estimate: " + [Rupee] + fmt(OrderTotal(cart)) + "*" + OrderFooter
  }

  /** The link the checkout button opens; nothing happens on an empty cart. */
  function CheckoutUrl(cart: seq<CartLine>, phone: string, fmt: real -> string, enc: string -> string): Option<string> {
    if cart == [] then None else Some(WaMeLink(phone, enc(OrderMessage(cart, fmt))))
  }

  /** The estimate in the message is the total on the page whenever no quantity is negative:
      the two pieces of code default a missing quantity to one in different ways. */
  lemma {:induction false} OrderTotalMatchesPage(cart: seq<CartLine>)
    requires forall k :: 0 <= k < |cart| ==> cart[k].quantity >= 0
    ensures OrderTotal(cart) == TotalPrice(cart)
  {
    if cart != [] {
      SameLineTotal(cart[|cart| - 1]);
      OrderTotalMatchesPage(cart[..|cart| - 1]);
    }
  }

  lemma SameLineTotal(l: CartLine)
    requires l.quantity >= 0
    ensures RowTotal(l) == OrderLineTotal(l)
  {
    assert RowQty(l.quantity) == OrderQty(l.quantity);
  }

  /** A negative quantity makes the two disagree. */
  lemma NegativeQuantityDisagrees()
    ensures OrderTotal([CartLine(None, None, Some("5"), None, -1)]) == -5.0
    ensures TotalPrice([CartLine(None, None, Some("5"), None, -1)]) == 5.0
  {
    var c := [CartLine(None, None, Some("5"), None, -1)];
    assert c[..0] == [];
    assert KeepDigitsAndDot("5") == "5";
    assert ParsePriceOrZero(Some("5")) == 5.0 by {
      assert DigitsValue("5") == 5 by {
        assert "5"[..0] == [];
      }
    }
  }

  /** With an encoding that loses nothing, the link determines the whole message. */
  lemma CheckoutUrlDeterminesMessage(c1: seq<CartLine>, c2: seq<CartLine>, phone: string, fmt: real -> string, enc: string -> string)
    requires forall a, b :: enc(a) == enc(b) ==> a == b
    requires CheckoutUrl(c1, phone, fmt, enc) == CheckoutUrl(c2, phone, fmt, enc)
    ensures c1 == [] <==> c2 == []
    ensures c1 != [] ==> OrderMessage(c1, fmt) == OrderMessage(c2, fmt)
  {
    if c1 != [] {
      WaMeLinkText(phone, enc(OrderMessage(c1, fmt)), enc(OrderMessage(c2, fmt)));
    }
  }

  // ---------------------------------------------------------------- the buttons

  predicate Positive(cart: seq<CartLine>) {
    forall k :: 0 <= k < |cart| ==> cart[k].quantity >= 1
  }

  /** "+": `cart[i].quantity = (cart[i].quantity || 0) + 1`. */
  function Increased(cart: seq<CartLine>, i: nat): seq<CartLine>
    requires i < |cart|
  {
    cart[i := cart[i].(quantity := cart[i].quantity + 1)]
  }

  /** "-": one fewer, and the line is deleted once its quantity is no longer positive. */
  function Decreased(cart: seq<CartLine>, i: nat): seq<CartLine>
    requires i < |cart|
  {
    var q := cart[i].quantity - 1;
    if q <= 0 then cart[..i] + cart[i + 1..] else cart[i := cart[i].(quantity := q)]
  }

  /** The delete button: `cart.splice(i, 1)`, which does nothing past the end. */
  function Removed(cart: seq<CartLine>, i: nat): seq<CartLine> {
    if i < |cart| then cart[..i] + cart[i + 1..] else cart
  }

  /** The buttons keep every quantity positive and change the item count by one line's worth. */
  lemma ButtonsKeepPositive(cart: seq<CartLine>, i: nat)
    requires Positive(cart) && i < |cart|
    ensures Positive(Increased(cart, i)) && CartCount(Increased(cart, i)) == CartCount(cart) + 1
    ensures Positive(Decreased(cart, i)) && CartCount(Decreased(cart, i)) == CartCount(cart) - 1
    ensures Positive(Removed(cart, i)) && CartCount(Removed(cart, i)) == CartCount(cart) - cart[i].quantity
    ensures |Decreased(cart, i)| == if cart[i].quantity == 1 then |cart| - 1 else |cart|
  {
    CartCountUpdate(cart, i, cart[i].(quantity := cart[i].quantity + 1));
    CartCountRemove(cart, i);
    DeletedPositive(cart, i);
    if cart[i].quantity > 1 {
      CartCountUpdate(cart, i, cart[i].(quantity := cart[i].quantity - 1));
    }
  }

  /** Deleting a line keeps every other quantity positive. */
  lemma DeletedPositive(cart: seq<CartLine>, i: nat)
    requires Positive(cart) && i < |cart|
    ensures Positive(cart[..i] + cart[i + 1..])
  {
    var r := cart[..i] + cart[i + 1..];
    forall k | 0 <= k < |r|
      ensures r[k].quantity >= 1
    {
      if k < i {
        assert r[k] == cart[k];
      } else {
        assert r[k] == cart[k + 1];
      }
    }
  }

  // ---------------------------------------------------------------- the page

  class CartPage {
    var cart: seq<CartLine>
    var view: CartView
    const storage: CartStorage
    const shopPhone: string
    const fmt: real -> string

    /** The page shows the cart it holds. */
    predicate Valid()
      reads this
    {
      view == ViewOf(cart, fmt)
    }

    /** Page load: the cart is read from storage and rendered. */
    constructor (storage: CartStorage, settingsPhone: Option<string>, fmt: real -> string)
      ensures this.storage == storage && cart == storage.Cart() && Valid()
      ensures shopPhone == ShopPhone(settingsPhone) && this.fmt == fmt
    {
      this.storage := storage;
      this.shopPhone := ShopPhone(settingsPhone);
      this.fmt := fmt;
      cart := storage.Cart();
      new;
      view := ComputeView();
    }

    /** `renderCart`: one pass over the lines that builds the rows and both totals. */
    method ComputeView() returns (v: CartView)
      ensures v == ViewOf(cart, fmt)
    {
      if |cart| == 0 {
        return EmptyCart;
      }
      var totalQty := 0;
      var totalPrice := 0.0;
      var rows: seq<Row> := [];
      var i := 0;
      while i < |cart|
        invariant 0 <= i <= |cart|
        invariant totalQty == TotalQty(cart[..i])
        invariant totalPrice == TotalPrice(cart[..i])
        invariant rows == Rows(cart[..i])
      {
        var item := cart[i];
        var qty := RowQty(item.quantity);
        totalQty := totalQty + qty;
        totalPrice := totalPrice + RowTotal(item);
        rows := rows + [RowOf(item, i)];
        PrefixStep(cart, i);
        i := i + 1;
      }
      assert cart[..i] == cart;
      v := Filled(rows, totalQty, [Rupee] + fmt(totalPrice));
    }

    method SaveAndRender()
      modifies this, storage
      ensures cart == old(cart) && storage.Cart() == cart && Valid()
    {
      storage.Save(cart);
      view := ComputeView();
    }

    /** Another tab changed the stored cart: reload it and render. */
    method Reload()
      modifies this
      ensures cart == storage.Cart() && Valid()
    {
      cart := storage.Cart();
      view := ComputeView();
    }

    method Increase(index: nat)
      requires index < |cart|
      modifies this, storage
      ensures cart == Increased(old(cart), index) && storage.Cart() == cart && Valid()
    {
      cart := cart[index := cart[index].(quantity := cart[index].quantity + 1)];
      SaveAndRender();
    }

    method Decrease(index: nat)
      requires index < |cart|
      modifies this, storage
      ensures cart == Decreased(old(cart), index) && storage.Cart() == cart && Valid()
    {
      cart := cart[index := cart[index].(quantity := cart[index].quantity - 1)];
      if cart[index].quantity <= 0 {
        cart := cart[..index] + cart[index + 1..];
      }
      SaveAndRender();
    }

    method Remove(index: nat)
      modifies this, storage
      ensures cart == Removed(old(cart), index) && storage.Cart() == cart && Valid()
    {
      if index < |cart| {
        cart := cart[..index] + cart[index + 1..];
      }
      SaveAndRender();
    }

    /** The checkout button: one pass over the lines that writes the message and the estimate. */
    method Checkout(enc: string -> string) returns (url: Option<string>)
      ensures url == CheckoutUrl(cart, shopPhone, fmt, enc)
    {
      if |cart| == 0 {
        return None;
      }
      var message := OrderHeader;
      var grandTotal := 0.0;
      var i := 0;
      assert cart[..0] == [];
      assert OrderHeader + ItemLines(cart[..0]) == OrderHeader;
      while i < |cart|
        invariant 0 <= i <= |cart|
        invariant message == OrderHeader + ItemLines(cart[..i])
        invariant grandTotal == OrderTotal(cart[..i])
      {
        var item := cart[i];
        grandTotal := grandTotal + OrderLineTotal(item);
        OrderStep(cart, i);
        AppendAssoc(OrderHeader, ItemLines(cart[..i]), ItemLine(i, item));
        message := message + ItemLine(i, item);
        i := i + 1;
      }
      assert cart[..i] == cart;
      message := message + "\n*Total Estimate: " + [Rupee] + fmt(grandTotal) + "*";
      message := message + OrderFooter;
      url := Some(WaMeLink(shopPhone, enc(message)));
    }
  }
}
