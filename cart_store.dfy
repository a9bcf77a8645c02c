/** The shopping cart that every page shares through the browser's local storage under the key
    "swastik_cart", the two ways pages add a product to it, and the item count in the header. */
module CartStore {
  import opened Basics
  import opened Catalog

  /** One stored cart line. Lines written by the static pages copy the whole product; lines
      written by the dynamic pages keep a snapshot of four fields. A line made from a product
      that was not found carries only its quantity. */
  datatype CartLine = CartLine(
    id: Option<Id>,
    name: Option<string>,
    price: Option<string>,
    image: Option<string>,
    quantity: int)

  /** `{...product, quantity: 1}` and `{id, name, price, image, quantity: 1}`. */
  function LineOf(p: Option<Product>): (l: CartLine)
    ensures l.quantity == 1
    ensures p.Some? ==> l.id == Some(p.value.id) && l.price == p.value.price
    ensures p.None? ==> l.id.None? && l.name.None? && l.price.None? && l.image.None?
  {
    if p.None? then CartLine(None, None, None, None, 1)
    else CartLine(Some(p.value.id), Some(p.value.name), p.value.price, Some(p.value.image), 1)
  }

  /** `cart.reduce((sum, item) => sum + item.quantity, 0)`: the number shown on the cart icon. */
  function CartCount(cart: seq<CartLine>): int {
    if cart == [] then 0 else CartCount(cart[..|cart| - 1]) + cart[|cart| - 1].quantity
  }

  lemma {:induction false} CartCountAppend(a: seq<CartLine>, b: seq<CartLine>)
    ensures CartCount(a + b) == CartCount(a) + CartCount(b)
  {
    if b != [] {
      assert (a + b)[..|a + b| - 1] == a + b[..|b| - 1];
      CartCountAppend(a, b[..|b| - 1]);
    } else {
      assert a + b == a;
    }
  }

  /** Replacing one line changes the count by the difference of the two quantities. */
  lemma {:induction false} CartCountUpdate(cart: seq<CartLine>, k: nat, l: CartLine)
    requires k < |cart|
    ensures CartCount(cart[k := l]) == CartCount(cart) - cart[k].quantity + l.quantity
  {
    assert cart == cart[..k] + [cart[k]] + cart[k + 1..];
    assert cart[k := l] == cart[..k] + [l] + cart[k + 1..];
    CartCountAppend(cart[..k] + [cart[k]], cart[k + 1..]);
    CartCountAppend(cart[..k] + [l], cart[k + 1..]);
    CartCountAppend(cart[..k], [cart[k]]);
    CartCountAppend(cart[..k], [l]);
    assert CartCount([l]) == l.quantity by {
      assert [l][..0] == [];
    }
    assert CartCount([cart[k]]) == cart[k].quantity by {
      assert [cart[k]][..0] == [];
    }
  }

  /** Deleting one line (`cart.splice(k, 1)`) removes its quantity from the count. */
  lemma {:induction false} CartCountRemove(cart: seq<CartLine>, k: nat)
    requires k < |cart|
    ensures CartCount(cart[..k] + cart[k + 1..]) == CartCount(cart) - cart[k].quantity
  {
    assert cart == cart[..k] + [cart[k]] + cart[k + 1..];
    CartCountAppend(cart[..k] + [cart[k]], cart[k + 1..]);
    CartCountAppend(cart[..k], [cart[k]]);
    CartCountAppend(cart[..k], cart[k + 1..]);
    assert [cart[k]][..0] == [];
  }

  /** When every quantity is at least one the count is at least the number of lines, so the
      icon shows whenever the cart has a line. */
  lemma {:induction false} CartCountAtLeastLines(cart: seq<CartLine>)
    requires forall k :: 0 <= k < |cart| ==> cart[k].quantity >= 1
    ensures CartCount(cart) >= |cart|
  {
    if cart != [] {
      CartCountAtLeastLines(cart[..|cart| - 1]);
    }
  }

  /** The header badge: the count, shown only when it is positive. */
  datatype Badge = Badge(text: string, shown: bool)

  function CountBadge(cart: seq<CartLine>): (b: Badge)
    ensures b.shown <==> CartCount(cart) > 0
  {
    var total := CartCount(cart);
    Badge(IntToString(total), total > 0)
  }

  // ---------------------------------------------------------------- adding a product

  /** The first line whose id loosely equals `id` (`cart.find(i => i.id == id)`); a line
      without an id never matches. */
  function FirstLoose(cart: seq<CartLine>, id: Id): (r: Option<nat>)
    ensures r.Some? ==> r.value < |cart| && cart[r.value].id.Some? && LooseEq(cart[r.value].id.value, id)
    ensures r.Some? ==> forall k :: 0 <= k < r.value ==> !(cart[k].id.Some? && LooseEq(cart[k].id.value, id))
    ensures r.None? ==> forall k :: 0 <= k < |cart| ==> !(cart[k].id.Some? && LooseEq(cart[k].id.value, id))
  {
    if cart == [] then None
    else if cart[0].id.Some? && LooseEq(cart[0].id.value, id) then Some(0)
    else
      var r := FirstLoose(cart[1..], id);
      if r.None? then None else Some(r.value + 1)
  }

  /** The first line whose id is strictly equal to `id` (`cart.findIndex(item => item.id === id)`). */
  function FirstStrict(cart: seq<CartLine>, id: Id): (r: Option<nat>)
    ensures r.Some? ==> r.value < |cart| && cart[r.value].id == Some(id)
    ensures r.Some? ==> forall k :: 0 <= k < r.value ==> cart[k].id != Some(id)
    ensures r.None? ==> forall k :: 0 <= k < |cart| ==> cart[k].id != Some(id)
  {
    if cart == [] then None
    else if cart[0].id == Some(id) then Some(0)
    else
      var r := FirstStrict(cart[1..], id);
      if r.None? then None else Some(r.value + 1)
  }

  /** One more of the line at `k`, or a new line for the product at the end. */
  function Bumped(cart: seq<CartLine>, at: Option<nat>, p: Option<Product>): seq<CartLine>
    requires at.Some? ==> at.value < |cart|
  {
    if at.Some? then cart[at.value := cart[at.value].(quantity := cart[at.value].quantity + 1)]
    else cart + [LineOf(p)]
  }

  /** The static pages' add: the product is looked up by loose equality, and so is the line. */
  function AddedLoose(cart: seq<CartLine>, products: seq<Product>, id: Id): seq<CartLine> {
    Bumped(cart, FirstLoose(cart, id), FindProduct(products, id))
  }

  /** The dynamic pages' add: the line is looked up by strict equality of ids. */
  function AddedStrict(cart: seq<CartLine>, p: Product): seq<CartLine> {
    Bumped(cart, FirstStrict(cart, p.id), Some(p))
  }

  /** Adding raises the count by exactly one, changes only the matching line or appends one. */
  lemma BumpedEffect(cart: seq<CartLine>, at: Option<nat>, p: Option<Product>)
    requires at.Some? ==> at.value < |cart|
    ensures CartCount(Bumped(cart, at, p)) == CartCount(cart) + 1
    ensures at.Some? ==> (|Bumped(cart, at, p)| == |cart|
                          && Bumped(cart, at, p)[at.value].quantity == cart[at.value].quantity + 1
                          && Bumped(cart, at, p)[at.value].id == cart[at.value].id)
    ensures at.None? ==> Bumped(cart, at, p) == cart + [LineOf(p)]
    ensures forall k :: 0 <= k < |cart| && at != Some(k) ==> Bumped(cart, at, p)[k] == cart[k]
  {
    if at.Some? {
      CartCountUpdate(cart, at.value, cart[at.value].(quantity := cart[at.value].quantity + 1));
    } else {
      CartCountAppend(cart, [LineOf(p)]);
      assert [LineOf(p)][..0] == [];
    }
  }

  /** No two lines of the cart carry the same id. */
  predicate DistinctIds(cart: seq<CartLine>) {
    forall i, j :: 0 <= i < j < |cart| && cart[i].id.Some? ==> cart[i].id != cart[j].id
  }

  /** Both ways of adding keep the ids of the lines distinct. */
  lemma AddKeepsDistinctIds(cart: seq<CartLine>, products: seq<Product>, p: Product)
    requires DistinctIds(cart)
    ensures DistinctIds(AddedStrict(cart, p))
    ensures DistinctIds(AddedLoose(cart, products, p.id))
  {
    BumpedDistinct(cart, FirstStrict(cart, p.id), Some(p));
    var id := p.id;
    var found := FindProduct(products, id);
    var at := FirstLoose(cart, id);
    if at.None? && found.Some? {
      var k := FindLoose(products, id).value;
      assert LooseEq(products[k].id, id);
      forall i | 0 <= i < |cart| && cart[i].id.Some?
        ensures cart[i].id != Some(products[k].id)
      {
        // The found product's id loosely equals `id`, and no line loosely equals `id`.
        assert !LooseEq(cart[i].id.value, id);
      }
    }
    BumpedDistinct(cart, at, found);
  }

  /** Bumping a line keeps the ids distinct, and so does appending a line whose id no line has. */
  lemma BumpedDistinct(cart: seq<CartLine>, at: Option<nat>, p: Option<Product>)
    requires DistinctIds(cart) && (at.Some? ==> at.value < |cart|)
    requires at.None? ==> forall i :: 0 <= i < |cart| && cart[i].id.Some? ==> cart[i].id != LineOf(p).id
    ensures DistinctIds(Bumped(cart, at, p))
  {
    var r := Bumped(cart, at, p);
    assert forall k :: 0 <= k < |cart| ==> r[k].id == cart[k].id;
  }

  // ---------------------------------------------------------------- the stored cart

  /** The browser's local storage entry "swastik_cart". */
  class CartStorage {
    /** The stored lines, or `None` when the key is absent. */
    var saved: Option<seq<CartLine>>

    /** `JSON.parse(localStorage.getItem('swastik_cart')) || []`. */
    function Cart(): seq<CartLine>
      reads this
    {
      saved.GetOr([])
    }

    constructor ()
      ensures saved.None? && Cart() == []
    {
      saved := None;
    }

    /** `localStorage.setItem('swastik_cart', JSON.stringify(cart))`. */
    method Save(cart: seq<CartLine>)
      modifies this
      ensures saved == Some(cart) && Cart() == cart
    {
      saved := Some(cart);
    }

    /** The static listing, search and product pages: `products.find(p => p.id == id)`,
        `cart.find(i => i.id == id)`, then `existing.quantity++` or a pushed copy. */
    method AddLoose(products: seq<Product>, id: Id)
      modifies this
      ensures Cart() == AddedLoose(old(Cart()), products, id)
      ensures CartCount(Cart()) == CartCount(old(Cart())) + 1
    {
      var cart := Cart();
      var product := FindProduct(products, id);
      var existing := FirstLoose(cart, id);
      BumpedEffect(cart, existing, product);
      if existing.Some? {
        var k := existing.value;
        cart := cart[k := cart[k].(quantity := cart[k].quantity + 1)];
      } else {
        cart := cart + [LineOf(product)];
      }
      Save(cart);
    }

    /** The dynamic product page and product card: `cart.findIndex(item => item.id === id)`,
        then `quantity += 1` or a pushed snapshot. */
    method AddStrict(p: Product)
      modifies this
      ensures Cart() == AddedStrict(old(Cart()), p)
      ensures CartCount(Cart()) == CartCount(old(Cart())) + 1
    {
      var cart := Cart();
      var index := FirstStrict(cart, p.id);
      BumpedEffect(cart, index, Some(p));
      if index.Some? {
        var k := index.value;
        cart := cart[k := cart[k].(quantity := cart[k].quantity + 1)];
      } else {
        cart := cart + [LineOf(Some(p))];
      }
      Save(cart);
    }
  }
}
