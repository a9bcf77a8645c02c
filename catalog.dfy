/** The catalogue: products, their identifiers, the text search and the sort orders that the
    listing pages offer. */
module Catalog {
  import opened Basics
  import opened Prices

  // ---------------------------------------------------------------- identifiers

  /** A product id: the static catalogue writes ids as strings ("102"), documents from the
      database may carry numbers, and the pages turn some of them into strings. */
  datatype Id = Text(s: string) | Num(n: int)

  /** `String(id)`, and the text of `${id}` in a URL. */
  function IdString(id: Id): string {
    match id
    case Text(s) => s
    case Num(n) => IntToString(n)
  }

  /** `product.id = String(product.id)`. */
  function AsText(id: Id): (r: Id)
    ensures r.Text? && IdString(r) == IdString(id)
  {
    Text(IdString(id))
  }

  /** Turning an id into a string twice is turning it once. */
  lemma AsTextIdempotent(id: Id)
    ensures AsText(AsText(id)) == AsText(id)
  {
  }

  /** JavaScript loose equality `a == b` between two ids: a string and a number are compared
      after `Number` turns the string into a number. */
  predicate LooseEq(a: Id, b: Id) {
    match (a, b)
    case (Text(x), Text(y)) => x == y
    case (Num(x), Num(y)) => x == y
    case (Text(x), Num(y)) => StringToNumber(x) == Some(y as real)
    case (Num(x), Text(y)) => StringToNumber(y) == Some(x as real)
  }

  /** Loose equality is symmetric and strict equality implies it. */
  lemma LooseEqProperties(a: Id, b: Id)
    ensures LooseEq(a, b) <==> LooseEq(b, a)
    ensures a == b ==> LooseEq(a, b)
  {
  }

  /** A numeric id written into a URL (`product.html?id=${p.id}`) and read back as text still
      loosely equals the id, and a text id is read back as itself. */
  lemma {:induction false} IdUrlRoundTrip(id: Id)
    requires id.Num? ==> id.n >= 0
    ensures LooseEq(id, Text(IdString(id)))
  {
    if id.Num? {
      var s := NatToString(id.n);
      TrimNoSpace(s);
      NatToStringRoundTrip(id.n);
    }
  }

  // ---------------------------------------------------------------- products

  /** A product as the pages read it. Missing attributes are `None`; the three flags are
      booleans when present. */
  datatype Product = Product(
    id: Id,
    name: string,
    category: string,
    price: Option<string>,
    originalPrice: Option<string>,
    image: string,
    images: seq<string>,
    description: Option<string>,
    dimensions: Option<string>,
    material: Option<string>,
    available: Option<bool>,
    bestseller: Option<bool>,
    latestArrival: Option<bool>)

  /** `p.flag` used as a condition: only a present `true` is truthy. */
  predicate Truthy(flag: Option<bool>) {
    flag == Some(true)
  }

  /** `p.available !== false`: a product is for sale unless it is marked unavailable. */
  predicate IsAvailable(p: Product) {
    p.available != Some(false)
  }

  /** `product.id = String(product.id)`, done before a product is handed to a card. */
  function WithTextId(p: Product): (r: Product)
    ensures r.id.Text? && IdString(r.id) == IdString(p.id)
    ensures r.(id := p.id) == p
  {
    p.(id := AsText(p.id))
  }

  function WithTextIds(s: seq<Product>): (r: seq<Product>)
    ensures |r| == |s| && forall k :: 0 <= k < |s| ==> r[k] == WithTextId(s[k])
  {
    if s == [] then [] else [WithTextId(s[0])] + WithTextIds(s[1..])
  }

  /** Products whose ids are already text are left as they are. */
  lemma TextIdsKept(s: seq<Product>)
    requires forall k :: 0 <= k < |s| ==> s[k].id.Text?
    ensures WithTextIds(s) == s
  {
  }

  /** The first product whose id loosely equals `id` (`products.find(p => p.id == id)`). */
  function FindLoose(products: seq<Product>, id: Id): (r: Option<nat>)
    ensures r.Some? ==> r.value < |products| && LooseEq(products[r.value].id, id)
    ensures r.Some? ==> forall k :: 0 <= k < r.value ==> !LooseEq(products[k].id, id)
    ensures r.None? ==> forall k :: 0 <= k < |products| ==> !LooseEq(products[k].id, id)
  {
    if products == [] then None
    else if LooseEq(products[0].id, id) then Some(0)
    else
      var r := FindLoose(products[1..], id);
      if r.None? then None else Some(r.value + 1)
  }

  /** The product `FindLoose` finds, if any. */
  function FindProduct(products: seq<Product>, id: Id): Option<Product> {
    var k := FindLoose(products, id);
    if k.Some? then Some(products[k.value]) else None
  }

  // ---------------------------------------------------------------- text search

  /** A product matches a lower-cased query when its name or its category, lower-cased,
      contains it. */
  predicate MatchesQuery(p: Product, q: string) {
    Contains(ToLower(p.name), q) || Contains(ToLower(p.category), q)
  }

  /** The products that match a query, in catalogue order. */
  function SearchResults(products: seq<Product>, q: string): (r: seq<Product>)
    ensures r == Filter(products, p => MatchesQuery(p, q))
    ensures forall p :: p in r <==> p in products && MatchesQuery(p, q)
    ensures |r| <= |products|
  {
    Filter(products, p => MatchesQuery(p, q))
  }

  /** The empty query is contained in every name: it matches the whole catalogue. */
  lemma {:induction false} EmptyQueryMatchesAll(products: seq<Product>)
    ensures SearchResults(products, "") == products
  {
    forall k | 0 <= k < |products|
      ensures MatchesQuery(products[k], "")
    {
      ContainsWitness(ToLower(products[k].name), "", 0);
    }
    FilterAll(products, p => MatchesQuery(p, ""));
  }

  /** Lower-casing leaves white space alone, so trimming and lower-casing commute: the two
      orders in which the pages normalise a query give the same query. */
  lemma {:induction false} TrimLowerCommute(s: string)
    ensures Trim(ToLower(s)) == ToLower(Trim(s))
  {
    TrimStartLower(s);
    TrimEndLower(TrimStart(s));
  }

  lemma LowerKeepsSpace(c: char)
    ensures IsSpace(Lower(c)) <==> IsSpace(c)
  {
  }

  lemma {:induction false} TrimStartLower(s: string)
    ensures TrimStart(ToLower(s)) == ToLower(TrimStart(s))
  {
    if s != [] {
      LowerKeepsSpace(s[0]);
      assert ToLower(s)[1..] == ToLower(s[1..]);
      TrimStartLower(s[1..]);
    }
  }

  lemma {:induction false} TrimEndLower(s: string)
    ensures TrimEnd(ToLower(s)) == ToLower(TrimEnd(s))
  {
    if s != [] {
      LowerKeepsSpace(s[|s| - 1]);
      assert ToLower(s)[..|s| - 1] == ToLower(s[..|s| - 1]);
      TrimEndLower(s[..|s| - 1]);
    }
  }

  // ---------------------------------------------------------------- sorting

  /** The sort menu: "price_asc", "price_desc", "name_asc"; any other value keeps the order. */
  datatype SortOption = PriceAsc | PriceDesc | NameAsc | Unsorted

  function SortOptionOf(value: string): (r: SortOption)
    ensures r != Unsorted <==> value in {"price_asc", "price_desc", "name_asc"}
  {
    if value == "price_asc" then PriceAsc
    else if value == "price_desc" then PriceDesc
    else if value == "name_asc" then NameAsc
    else Unsorted
  }

  /** Code-unit order on strings, the order `localeCompare` is modelled by. */
  predicate LexLess(a: string, b: string) {
    if a == [] then b != []
    else if b == [] then false
    else if a[0] == b[0] then LexLess(a[1..], b[1..])
    else a[0] < b[0]
  }

  lemma {:induction false} LexLessIrreflexive(a: string)
    ensures !LexLess(a, a)
  {
    if a != [] {
      LexLessIrreflexive(a[1..]);
    }
  }

  /** Two strings that are not below one another are equal. */
  lemma {:induction false} LexLessTotal(a: string, b: string)
    requires !LexLess(a, b) && !LexLess(b, a)
    ensures a == b
  {
    if a != [] && b != [] {
      LexLessTotal(a[1..], b[1..]);
      assert a == [a[0]] + a[1..];
      assert b == [b[0]] + b[1..];
    }
  }

  lemma {:induction false} LexLessTransitive(a: string, b: string, c: string)
    requires LexLess(a, b) && LexLess(b, c)
    ensures LexLess(a, c)
  {
    if a != [] && b != [] && c != [] && a[0] == b[0] == c[0] {
      LexLessTransitive(a[1..], b[1..], c[1..]);
    }
  }

  /** The comparator of the sort menu: `a` is placed strictly before `b`. A price that does not
      parse (NaN) makes the comparator return NaN, which the sort treats as "equal". */
  predicate Before(opt: SortOption, parse: Option<string> -> Option<Amount>, a: Product, b: Product) {
    match opt
    case PriceAsc =>
      parse(a.price).Some? && parse(b.price).Some? && parse(a.price).value < parse(b.price).value
    case PriceDesc =>
      parse(a.price).Some? && parse(b.price).Some? && parse(a.price).value > parse(b.price).value
    case NameAsc => LexLess(a.name, b.name)
    case Unsorted => false
  }

  /** The comparator is a consistent order on `s`: every price parses when prices are compared. */
  predicate Comparable(opt: SortOption, parse: Option<string> -> Option<Amount>, s: seq<Product>) {
    (opt == PriceAsc || opt == PriceDesc) ==> forall p :: p in s ==> parse(p.price).Some?
  }

  /** No element is placed after an element that must come before it. */
  predicate Sorted(opt: SortOption, parse: Option<string> -> Option<Amount>, s: seq<Product>) {
    forall i, j :: 0 <= i < j < |s| ==> !Before(opt, parse, s[j], s[i])
  }

  /** Inserting `x` in front of the first element that does not come strictly before it. */
  function Insert(opt: SortOption, parse: Option<string> -> Option<Amount>, x: Product, s: seq<Product>): (r: seq<Product>)
    ensures |r| == |s| + 1
  {
    if s == [] then [x]
    else if Before(opt, parse, s[0], x) then [s[0]] + Insert(opt, parse, x, s[1..])
    else [x] + s
  }

  /** Insertion adds exactly `x`: the result is a permutation of `[x] + s`. */
  lemma {:induction false} InsertPermutes(opt: SortOption, parse: Option<string> -> Option<Amount>, x: Product, s: seq<Product>)
    ensures multiset(Insert(opt, parse, x, s)) == multiset(s) + multiset{x}
  {
    if s != [] && Before(opt, parse, s[0], x) {
      InsertPermutes(opt, parse, x, s[1..]);
      assert s == [s[0]] + s[1..];
    }
  }

  /** `Array.prototype.sort` with the menu's comparator: a stable sort, written as insertion
      sort. */
  function SortBy(opt: SortOption, parse: Option<string> -> Option<Amount>, s: seq<Product>): (r: seq<Product>)
    ensures multiset(r) == multiset(s)
    ensures |r| == |s|
  {
    if s == [] then []
    else
      var r := SortBy(opt, parse, s[1..]);
      InsertPermutes(opt, parse, s[0], r);
      assert s == [s[0]] + s[1..];
      Insert(opt, parse, s[0], r)
  }

  /** `Before` is asymmetric, and "not before" is transitive, on products whose prices parse
      when prices are compared. */
  lemma BeforeOrder(opt: SortOption, parse: Option<string> -> Option<Amount>, a: Product, b: Product, c: Product)
    requires opt == PriceAsc || opt == PriceDesc ==>
               parse(a.price).Some? && parse(b.price).Some? && parse(c.price).Some?
    ensures Before(opt, parse, a, b) ==> !Before(opt, parse, b, a)
    ensures !Before(opt, parse, a, b) && !Before(opt, parse, b, c) ==> !Before(opt, parse, a, c)
  {
    if opt == NameAsc {
      if LexLess(a.name, b.name) && LexLess(b.name, a.name) {
        LexLessTransitive(a.name, b.name, a.name);
        LexLessIrreflexive(a.name);
      }
      if !LexLess(a.name, b.name) && !LexLess(b.name, c.name) && LexLess(a.name, c.name) {
        if LexLess(b.name, a.name) {
          LexLessTransitive(b.name, a.name, c.name);
        } else {
          LexLessTotal(a.name, b.name);
        }
      }
    }
  }

  /** Inserting into a sorted sequence keeps it sorted. */
  lemma {:induction false} InsertSorted(opt: SortOption, parse: Option<string> -> Option<Amount>, x: Product, s: seq<Product>)
    requires Comparable(opt, parse, [x] + s) && Sorted(opt, parse, s)
    ensures Sorted(opt, parse, Insert(opt, parse, x, s))
  {
    if s != [] {
      if Before(opt, parse, s[0], x) {
        assert forall p :: p in [x] + s[1..] ==> p in [x] + s;
        InsertSorted(opt, parse, x, s[1..]);
        HeadStaysFirst(opt, parse, x, s);
        ConsSorted(opt, parse, s[0], Insert(opt, parse, x, s[1..]));
      } else {
        InsertInFrontSorted(opt, parse, x, s);
      }
    }
  }

  /** `x` placed in front of a sorted sequence whose head does not come before it. */
  lemma InsertInFrontSorted(opt: SortOption, parse: Option<string> -> Option<Amount>, x: Product, s: seq<Product>)
    requires s != [] && Comparable(opt, parse, [x] + s) && Sorted(opt, parse, s)
    requires !Before(opt, parse, s[0], x)
    ensures Sorted(opt, parse, [x] + s)
  {
    var r := [x] + s;
    forall i, j | 0 <= i < j < |r|
      ensures !Before(opt, parse, r[j], r[i])
    {
      if i == 0 && j > 1 {
        assert r[j] in r && s[0] in r && x in r;
        BeforeOrder(opt, parse, r[j], s[0], x);
      } else if i > 0 {
        assert r[i] == s[i - 1] && r[j] == s[j - 1];
      }
    }
  }

  /** A head that no element of a sorted tail comes before keeps the sequence sorted. */
  lemma ConsSorted(opt: SortOption, parse: Option<string> -> Option<Amount>, h: Product, t: seq<Product>)
    requires Sorted(opt, parse, t) && forall y :: y in t ==> !Before(opt, parse, y, h)
    ensures Sorted(opt, parse, [h] + t)
  {
    var r := [h] + t;
    forall i, j | 0 <= i < j < |r|
      ensures !Before(opt, parse, r[j], r[i])
    {
      if i == 0 {
        assert r[j] == t[j - 1] && t[j - 1] in t;
      } else {
        assert r[i] == t[i - 1] && r[j] == t[j - 1];
      }
    }
  }

  /** No element of the insertion into the tail comes before the head. */
  lemma HeadStaysFirst(opt: SortOption, parse: Option<string> -> Option<Amount>, x: Product, s: seq<Product>)
    requires s != [] && Comparable(opt, parse, [x] + s) && Sorted(opt, parse, s)
    requires Before(opt, parse, s[0], x)
    ensures forall y :: y in Insert(opt, parse, x, s[1..]) ==> !Before(opt, parse, y, s[0])
  {
    var t := s[1..];
    InsertPermutes(opt, parse, x, t);
    forall y | y in Insert(opt, parse, x, t)
      ensures !Before(opt, parse, y, s[0])
    {
      assert y in multiset(Insert(opt, parse, x, t));
      if y == x {
        assert s[0] in [x] + s && x in [x] + s;
        BeforeOrder(opt, parse, s[0], x, x);
      } else {
        assert y in multiset(t);
        var k :| 0 <= k < |t| && t[k] == y;
        assert s[k + 1] == y;
      }
    }
  }

  /** The sort returns the same products, ordered by the comparator whenever the comparator is
      a consistent order on them. */
  lemma {:induction false} SortBySorted(opt: SortOption, parse: Option<string> -> Option<Amount>, s: seq<Product>)
    requires Comparable(opt, parse, s)
    ensures Sorted(opt, parse, SortBy(opt, parse, s))
    ensures multiset(SortBy(opt, parse, s)) == multiset(s)
  {
    if s != [] {
      SortBySorted(opt, parse, s[1..]);
      var r := SortBy(opt, parse, s[1..]);
      assert Comparable(opt, parse, [s[0]] + r) by {
        forall p | p in [s[0]] + r
          ensures p in s
        {
          if p != s[0] {
            assert p in multiset(s[1..]);
          }
        }
      }
      InsertSorted(opt, parse, s[0], r);
      assert SortBy(opt, parse, s) == Insert(opt, parse, s[0], r);
    }
  }

  /** Neither product is placed before the other: the comparator calls them equal. */
  predicate Tied(opt: SortOption, parse: Option<string> -> Option<Amount>, a: Product, b: Product) {
    !Before(opt, parse, a, b) && !Before(opt, parse, b, a)
  }

  /** Products tied with a common one are not placed before one another. */
  lemma TiedNotBefore(opt: SortOption, parse: Option<string> -> Option<Amount>, x: Product, y: Product, z: Product)
    requires opt == PriceAsc || opt == PriceDesc ==>
               parse(x.price).Some? && parse(y.price).Some? && parse(z.price).Some?
    requires Tied(opt, parse, x, z) && Tied(opt, parse, y, z)
    ensures !Before(opt, parse, y, x)
  {
    BeforeOrder(opt, parse, y, z, x);
  }

  /** Inserting `x` keeps the order of `[x] + s` among the products `keep` selects, provided
      no product `x` is moved past is selected when `x` is. */
  lemma {:induction false} InsertStable(opt: SortOption, parse: Option<string> -> Option<Amount>, x: Product,
                                        s: seq<Product>, keep: Product -> bool)
    requires keep(x) ==> forall k :: 0 <= k < |s| && Before(opt, parse, s[k], x) ==> !keep(s[k])
    ensures Filter(Insert(opt, parse, x, s), keep) == Filter([x] + s, keep)
  {
    if s != [] && Before(opt, parse, s[0], x) {
      var t := s[1..];
      TailSeparated(opt, parse, x, s, keep);
      InsertStable(opt, parse, x, t, keep);
      var h0 := if keep(s[0]) then [s[0]] else [];
      var hx := if keep(x) then [x] else [];
      InsertPast(opt, parse, x, s, keep);
      FilterCons(x, t, keep);
      FilterCons(x, s, keep);
      FilterCons(s[0], t, keep);
      assert [s[0]] + t == s;
      SwapHeads(h0, hx, Filter(t, keep));
      Assemble(Filter(Insert(opt, parse, x, s), keep), Filter(Insert(opt, parse, x, t), keep),
               Filter([x] + s, keep), Filter(s, keep), h0, hx, Filter(t, keep));
    }
  }

  lemma Assemble<T>(a: seq<T>, b: seq<T>, c: seq<T>, d: seq<T>, h0: seq<T>, hx: seq<T>, f: seq<T>)
    requires a == h0 + b && b == hx + f && c == hx + d && d == h0 + f
    requires h0 + (hx + f) == hx + (h0 + f)
    ensures a == c
  {
  }

  lemma TailSeparated(opt: SortOption, parse: Option<string> -> Option<Amount>, x: Product,
                      s: seq<Product>, keep: Product -> bool)
    requires s != []
    requires keep(x) ==> forall k :: 0 <= k < |s| && Before(opt, parse, s[k], x) ==> !keep(s[k])
    ensures keep(x) ==> forall k :: 0 <= k < |s| - 1 && Before(opt, parse, s[1..][k], x) ==> !keep(s[1..][k])
  {
    assert forall k :: 0 <= k < |s| - 1 ==> s[1..][k] == s[k + 1];
  }

  /** When `x` moves past the head, the head is filtered first. */
  lemma InsertPast(opt: SortOption, parse: Option<string> -> Option<Amount>, x: Product,
                   s: seq<Product>, keep: Product -> bool)
    requires s != [] && Before(opt, parse, s[0], x)
    ensures Filter(Insert(opt, parse, x, s), keep)
            == (if keep(s[0]) then [s[0]] else []) + Filter(Insert(opt, parse, x, s[1..]), keep)
  {
    assert Insert(opt, parse, x, s) == [s[0]] + Insert(opt, parse, x, s[1..]);
    FilterCons(s[0], Insert(opt, parse, x, s[1..]), keep);
  }

  lemma SwapHeads<T>(h0: seq<T>, hx: seq<T>, f: seq<T>)
    requires h0 == [] || hx == []
    ensures h0 + (hx + f) == hx + (h0 + f)
  {
  }

  /** The sort is stable: the products the comparator calls equal to `z` keep their order. */
  lemma {:induction false} SortByStable(opt: SortOption, parse: Option<string> -> Option<Amount>, s: seq<Product>, z: Product)
    requires Comparable(opt, parse, [z] + s)
    ensures Filter(SortBy(opt, parse, s), (y: Product) => Tied(opt, parse, y, z))
            == Filter(s, (y: Product) => Tied(opt, parse, y, z))
  {
    var keep := (y: Product) => Tied(opt, parse, y, z);
    if s != [] {
      var t := s[1..];
      assert Comparable(opt, parse, [z] + t) by {
        assert forall p :: p in [z] + t ==> p in [z] + s;
      }
      SortByStable(opt, parse, t, z);
      var r := SortBy(opt, parse, t);
      TiedSeparated(opt, parse, s, z, r);
      InsertStable(opt, parse, s[0], r, keep);
      FilterCons(s[0], r, keep);
      FilterCons(s[0], t, keep);
      assert [s[0]] + t == s;
    }
  }

  /** No product of the sorted tail placed before the head is tied with `z` when the head is. */
  lemma TiedSeparated(opt: SortOption, parse: Option<string> -> Option<Amount>, s: seq<Product>, z: Product, r: seq<Product>)
    requires s != [] && Comparable(opt, parse, [z] + s) && multiset(r) == multiset(s[1..])
    ensures Tied(opt, parse, s[0], z) ==>
              forall k :: 0 <= k < |r| && Before(opt, parse, r[k], s[0]) ==> !Tied(opt, parse, r[k], z)
  {
    forall k | 0 <= k < |r| && Before(opt, parse, r[k], s[0]) && Tied(opt, parse, s[0], z)
      ensures !Tied(opt, parse, r[k], z)
    {
      assert r[k] in multiset(s[1..]);
      assert r[k] in [z] + s && s[0] in [z] + s && z in [z] + s;
      if Tied(opt, parse, r[k], z) {
        TiedNotBefore(opt, parse, s[0], r[k], z);
      }
    }
  }

  /** Without a sort option the catalogue order is kept. */
  lemma {:induction false} UnsortedKeepsOrder(parse: Option<string> -> Option<Amount>, s: seq<Product>)
    ensures SortBy(Unsorted, parse, s) == s
  {
    if s != [] {
      UnsortedKeepsOrder(parse, s[1..]);
      assert s == [s[0]] + s[1..];
    }
  }
}
