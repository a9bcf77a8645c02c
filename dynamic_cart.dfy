/** The cart page of the dynamic site. It differs from the static page in small ways: the phone
    number comes from an attribute of the checkout button, quantities are used as stored, "-"
    on a line of one deletes it, and a price that does not parse makes the totals NaN. */
module DynamicCart {
  import opened Basics
  import opened Prices
  import opened CartStore
  import StaticCart

  /** `shopData ? shopData.getAttribute('data-phone') : '919002066361'`: `button` is the
      checkout button, if present, with its attribute, if set; a missing attribute is `null`. */
  function ShopPhone(button: Option<Option<string>>): string {
    if button.None? then "919002066361"
    else if button.value.None? then "null"
    else button.value.value
  }

  /** `${total}` of a number that may be NaN; `fmt` is `toLocaleString()`. */
  function AmountText(total: Option<real>, fmt: real -> string): string {
    if total.None? then "NaN" else fmt(total.value)
  }

  datatype Row = Row(image: string, name: string, price: string, qty: string, index: nat)

  datatype CartView = EmptyCart | Filled(rows: seq<Row>, totalQty: int, totalText: string)

  function RowOf(l: CartLine, index: nat): Row {
    Row(Interpolate(l.image), Interpolate(l.name), Interpolate(l.price), IntToString(l.quantity), index)
  }

  function Rows(cart: seq<CartLine>): (r: seq<Row>)
    ensures |r| == |cart|
  {
    seq(|cart|, k requires 0 <= k < |cart| => RowOf(cart[k], k))
  }

  /** `parsePrice(item.price) * item.quantity`, NaN when the price does not parse. */
  function LineTotal(l: CartLine): Option<real> {
    Times(ParsePriceLoose(l.price), l.quantity)
  }

  /** A product of a number that may be NaN and a quantity. */
  function Times(p: Option<real>, q: int): (r: Option<real>)
    ensures r.None? <==> p.None?
  {
    if p.None? then None else Some(StaticCart.Subtotal(p.value, q))
  }

  /** A sum of two numbers that may be NaN. */
  function Plus(a: Option<real>, b: Option<real>): (r: Option<real>)
    ensures r.None? <==> a.None? || b.None?
  {
    if a.None? || b.None? then None else Some(a.value + b.value)
  }

  /** The running sum of the line totals; NaN once any line is NaN. */
  function Total(cart: seq<CartLine>): Option<real> {
    if cart == [] then Some(0.0) else Plus(Total(cart[..|cart| - 1]), LineTotal(cart[|cart| - 1]))
  }

  /** The price of a line does not parse. */
  predicate PriceFails(l: CartLine) {
    ParsePriceLoose(l.price).None?
  }

  /** The page as `renderCart` leaves it: the item count is the badge's count. */
  function ViewOf(cart: seq<CartLine>, fmt: real -> string): CartView {
    if cart == [] then EmptyCart
    else Filled(Rows(cart), CartCount(cart), [Rupee] + AmountText(Total(cart), fmt))
  }

  /** The total is NaN exactly when some line's price does not parse. */
  lemma {:induction false} TotalNaN(cart: seq<CartLine>)
    ensures Total(cart).None? <==> exists k :: 0 <= k < |cart| && PriceFails(cart[k])
  {
    if cart != [] {
      var init := cart[..|cart| - 1];
      TotalNaN(init);
      TotalStep(cart);
      ExistsSnoc(cart, PriceFails);
      assert forall k :: 0 <= k < |init| ==> init[k] == cart[k];
    }
  }

  /** One step of the running sum: NaN when the sum so far or the last line is NaN. */
  lemma TotalStep(cart: seq<CartLine>)
    requires cart != []
    ensures Total(cart).None? <==> Total(cart[..|cart| - 1]).None? || PriceFails(cart[|cart| - 1])
  {
  }

  /** When every price parses and every quantity is positive, the dynamic page shows the same
      total as the static page. */
  lemma {:induction false} TotalMatchesStatic(cart: seq<CartLine>)
    requires forall k :: 0 <= k < |cart| ==> !PriceFails(cart[k]) && cart[k].quantity >= 1
    ensures Total(cart) == Some(StaticCart.TotalPrice(cart))
  {
    if cart != [] {
      SameLineTotal(cart[|cart| - 1]);
      TotalMatchesStatic(cart[..|cart| - 1]);
    }
  }

  lemma SameLineTotal(l: CartLine)
    requires !PriceFails(l) && l.quantity >= 1
    ensures LineTotal(l) == Some(StaticCart.RowTotal(l))
  {
    assert StaticCart.RowQty(l.quantity) == l.quantity;
  }

  /** The running values of `renderCart` after one more line. */
  lemma PrefixStep(cart: seq<CartLine>, i: nat)
    requires i < |cart|
    ensures CartCount(cart[..i + 1]) == CartCount(cart[..i]) + cart[i].quantity
    ensures Total(cart[..i + 1]) == Plus(Total(cart[..i]), LineTotal(cart[i]))
    ensures Rows(cart[..i + 1]) == Rows(cart[..i]) + [RowOf(cart[i], i)]
  {
    var next := cart[..i + 1];
    assert next[..i] == cart[..i] && next[i] == cart[i];
    RowsStep(cart, i);
  }

  lemma RowsStep(cart: seq<CartLine>, i: nat)
    requires i < |cart|
    ensures Rows(cart[..i + 1]) == Rows(cart[..i]) + [RowOf(cart[i], i)]
  {
    var a := Rows(cart[..i + 1]);
    var b := Rows(cart[..i]) + [RowOf(cart[i], i)];
    assert |a| == |b|;
    forall k | 0 <= k < |a|
      ensures a[k] == b[k]
    {
      if k < i {
        assert b[k] == Rows(cart[..i])[k];
      }
    }
  }

  // ---------------------------------------------------------------- the order message

  /** `${i + 1}. ${item.name}\n   Qty: ${item.quantity} | Price: ${item.price}\n`. */
  function ItemLine(i: nat, l: CartLine): string {
    IntToString(i + 1) + ". " + Interpolate(l.name) + "\n   Qty: " + IntToString(l.quantity)
    + " | Price: " + Interpolate(l.price) + "\n"
  }

  function ItemLines(cart: seq<CartLine>): string {
    if cart == [] then "" else ItemLines(cart[..|cart| - 1]) + ItemLine(|cart| - 1, cart[|cart| - 1])
  }

  /** The running message and estimate of `checkout` after one more line. */
  lemma OrderStep(cart: seq<CartLine>, i: nat)
    requires i < |cart|
    ensures ItemLines(cart[..i + 1]) == ItemLines(cart[..i]) + ItemLine(i, cart[i])
    ensures Total(cart[..i + 1]) == Plus(Total(cart[..i]), LineTotal(cart[i]))
  {
    var next := cart[..i + 1];
    assert next[..i] == cart[..i] && next[i] == cart[i];
  }

  function OrderMessage(cart: seq<CartLine>, fmt: real -> string): string {
    StaticCart.OrderHeader + ItemLines(cart) + "\n*Total Estimate: " + [Rupee] + AmountText(Total(cart), fmt) + "*"
    + StaticCart.OrderFooter
  }

  function CheckoutUrl(cart: seq<CartLine>, phone: string, fmt: real -> string, enc: string -> string): Option<string> {
    if cart == [] then None else Some(WaMeLink(phone, enc(OrderMessage(cart, fmt))))
  }

  /** A line written by the site always has a name, a price and a positive quantity; for such
      lines the two sites write the same line into the order. */
  lemma ItemLineMatchesStatic(i: nat, l: CartLine)
    requires l.name.Some? && l.name.value != "" && l.price.Some? && l.price.value != "" && l.quantity >= 1
    ensures ItemLine(i, l) == StaticCart.ItemLine(i, l)
  {
  }

  // ---------------------------------------------------------------- the buttons

  /** "+": `cart[i].quantity++`. */
  function Increased(cart: seq<CartLine>, i: nat): seq<CartLine>
    requires i < |cart|
  {
    cart[i := cart[i].(quantity := cart[i].quantity + 1)]
  }

  /** "-": one fewer while more than one, else the line is deleted. */
  function Decreased(cart: seq<CartLine>, i: nat): seq<CartLine>
    requires i < |cart|
  {
    if cart[i].quantity > 1 then cart[i := cart[i].(quantity := cart[i].quantity - 1)]
    else cart[..i] + cart[i + 1..]
  }

  /** Although written differently ("quantity > 1" against "quantity - 1 <= 0"), the two sites'
      buttons do the same thing on every cart, so the static page's invariant carries over:
      the buttons keep every quantity positive and change the item count by one. */
  lemma ButtonsMatchStatic(cart: seq<CartLine>, i: nat)
    requires i < |cart|
    ensures Increased(cart, i) == StaticCart.Increased(cart, i)
    ensures Decreased(cart, i) == StaticCart.Decreased(cart, i)
  {
  }

  // ---------------------------------------------------------------- the page

  class CartPage {
    var cart: seq<CartLine>
    var view: CartView
    const storage: CartStorage
    const shopPhone: string
    const fmt: real -> string

    predicate Valid()
      reads this
    {
      view == ViewOf(cart, fmt)
    }

    constructor (storage: CartStorage, button: Option<Option<string>>, fmt: real -> string)
      ensures this.storage == storage && cart == storage.Cart() && Valid()
      ensures shopPhone == ShopPhone(button) && this.fmt == fmt
    {
      this.storage := storage;
      this.shopPhone := ShopPhone(button);
      this.fmt := fmt;
      cart := storage.Cart();
      new;
      view := ComputeView();
    }

    /** `renderCart`: one pass that sums the quantities and the line totals. */
    method ComputeView() returns (v: CartView)
      ensures v == ViewOf(cart, fmt)
    {
      if |cart| == 0 {
        return EmptyCart;
      }
      var totalQty := 0;
      var totalPrice: Option<real> := Some(0.0);
      var rows: seq<Row> := [];
      var i := 0;
      while i < |cart|
        invariant 0 <= i <= |cart|
        invariant totalQty == CartCount(cart[..i])
        invariant totalPrice == Total(cart[..i])
        invariant rows == Rows(cart[..i])
      {
        var item := cart[i];
        totalQty := totalQty + item.quantity;
        var itemPrice := LineTotal(item);
        totalPrice := Plus(totalPrice, itemPrice);
        rows := rows + [RowOf(item, i)];
        PrefixStep(cart, i);
        i := i + 1;
      }
      assert cart[..i] == cart;
      v := Filled(rows, totalQty, [Rupee] + AmountText(totalPrice, fmt));
    }

    method SaveAndRender()
      modifies this, storage
      ensures cart == old(cart) && storage.Cart() == cart && Valid()
    {
      storage.Save(cart);
      view := ComputeView();
    }

    method Increase(index: nat)
      requires index < |cart|
      modifies this, storage
      ensures cart == Increased(old(cart), index) && storage.Cart() == cart && Valid()
    {
      cart := cart[index := cart[index].(quantity := cart[index].quantity + 1)];
      SaveAndRender();
    }

    method Decrease(index: nat)
      requires index < |cart|
      modifies this, storage
      ensures cart == Decreased(old(cart), index) && storage.Cart() == cart && Valid()
    {
      if cart[index].quantity > 1 {
        cart := cart[index := cart[index].(quantity := cart[index].quantity - 1)];
      } else {
        cart := cart[..index] + cart[index + 1..];
      }
      SaveAndRender();
    }

    method Remove(index: nat)
      requires index < |cart|
      modifies this, storage
      ensures cart == old(cart[..index] + cart[index + 1..]) && storage.Cart() == cart && Valid()
    {
      cart := cart[..index] + cart[index + 1..];
      SaveAndRender();
    }

    method Checkout(enc: string -> string) returns (url: Option<string>)
      ensures url == CheckoutUrl(cart, shopPhone, fmt, enc)
    {
      if |cart| == 0 {
        return None;
      }
      var message := StaticCart.OrderHeader;
      var grandTotal: Option<real> := Some(0.0);
      var i := 0;
      assert StaticCart.OrderHeader + ItemLines(cart[..0]) == StaticCart.OrderHeader;
      while i < |cart|
        invariant 0 <= i <= |cart|
        invariant message == StaticCart.OrderHeader + ItemLines(cart[..i])
        invariant grandTotal == Total(cart[..i])
      {
        var item := cart[i];
        var itemTotal := LineTotal(item);
        grandTotal := Plus(grandTotal, itemTotal);
        OrderStep(cart, i);
        AppendAssoc(StaticCart.OrderHeader, ItemLines(cart[..i]), ItemLine(i, item));
        message := message + ItemLine(i, item);
        i := i + 1;
      }
      assert cart[..i] == cart;
      message := message + "\n*Total Estimate: " + [Rupee] + AmountText(grandTotal, fmt) + "*";
      message := message + StaticCart.OrderFooter;
      url := Some(WaMeLink(shopPhone, enc(message)));
    }
  }
}
