/** The home page of the dynamic site, apart from its carousel: the best-seller strip, one
    best seller per category, fetched from `/api/bestsellers`. */
module DynamicHome {
  import opened Basics
  import opened Catalog

  /** Names every plain JavaScript object inherits: `obj[name]` is already truthy for them, so a
      category with such a name is never recorded. */
  predicate Inherited(name: string) {
    name in {"constructor", "__proto__", "toString", "toLocaleString", "valueOf", "hasOwnProperty",
             "isPrototypeOf", "propertyIsEnumerable", "__defineGetter__", "__defineSetter__",
             "__lookupGetter__", "__lookupSetter__"}
  }

  /** A product whose category can be recorded: a non-empty category that is not inherited. */
  predicate Recordable(p: Product) {
    p.category != "" && !Inherited(p.category)
  }

  predicate HasCategory(s: seq<Product>, c: string) {
    exists k :: 0 <= k < |s| && s[k].category == c
  }

  /** The recorded products in the order their categories were first seen: a product is kept
      when its category is recordable and not yet taken. */
  function FirstPerCategory(s: seq<Product>): seq<Product> {
    if s == [] then []
    else
      var prev := FirstPerCategory(s[..|s| - 1]);
      var p := s[|s| - 1];
      if Recordable(p) && !HasCategory(prev, p.category) then prev + [p] else prev
  }

  /** One product per category: the categories are distinct, every product kept is a
      recordable product of the list, and every recordable category of the list is kept. */
  lemma {:induction false} FirstPerCategoryProperties(s: seq<Product>)
    ensures var r := FirstPerCategory(s);
            (forall i, j :: 0 <= i < j < |r| ==> r[i].category != r[j].category)
            && (forall k :: 0 <= k < |r| ==> r[k] in s && Recordable(r[k]))
            && (forall k :: 0 <= k < |s| && Recordable(s[k]) ==> HasCategory(r, s[k].category))
  {
    if s != [] {
      var init := s[..|s| - 1];
      FirstPerCategoryProperties(init);
      var r := FirstPerCategory(s);
      var prev := FirstPerCategory(init);
      forall k | 0 <= k < |s| && Recordable(s[k])
        ensures HasCategory(r, s[k].category)
      {
        if k < |s| - 1 {
          assert s[k] == init[k];
          var j :| 0 <= j < |prev| && prev[j].category == s[k].category;
          assert r[j] == prev[j];
        } else if !HasCategory(prev, s[k].category) {
          assert r[|r| - 1] == s[k];
        } else {
          var j :| 0 <= j < |prev| && prev[j].category == s[k].category;
          assert r[j] == prev[j];
        }
      }
      forall k | 0 <= k < |r|
        ensures r[k] in s
      {
        if k < |prev| {
          assert r[k] == prev[k] && prev[k] in init;
        }
      }
    }
  }

  /** Every product kept comes before any other product of its category. */
  lemma {:induction false} FirstPerCategoryFirst(s: seq<Product>, k: nat)
    requires k < |FirstPerCategory(s)|
    ensures exists i :: 0 <= i < |s| && s[i] == FirstPerCategory(s)[k]
                        && forall j :: 0 <= j < i ==> s[j].category != s[i].category
  {
    var init := s[..|s| - 1];
    var prev := FirstPerCategory(init);
    FirstPerCategoryStep(s);
    if k < |prev| {
      FirstPerCategoryFirst(init, k);
      var i :| 0 <= i < |init| && init[i] == prev[k] && forall j :: 0 <= j < i ==> init[j].category != init[i].category;
      assert FirstPerCategory(s)[k] == prev[k];
      assert forall j :: 0 <= j <= i ==> s[j] == init[j];
    } else {
      assert FirstPerCategory(s)[k] == s[|s| - 1];
      LastKeptIsFirst(s);
    }
  }

  /** One step of the grouping: the last product is kept or not. */
  lemma FirstPerCategoryStep(s: seq<Product>)
    requires s != []
    ensures var prev := FirstPerCategory(s[..|s| - 1]);
            var p := s[|s| - 1];
            FirstPerCategory(s) == if Recordable(p) && !HasCategory(prev, p.category) then prev + [p] else prev
  {
  }

  /** A last product that is kept has no earlier product of its category. */
  lemma LastKeptIsFirst(s: seq<Product>)
    requires s != []
    requires Recordable(s[|s| - 1]) && !HasCategory(FirstPerCategory(s[..|s| - 1]), s[|s| - 1].category)
    ensures forall j :: 0 <= j < |s| - 1 ==> s[j].category != s[|s| - 1].category
  {
    var init := s[..|s| - 1];
    FirstPerCategoryProperties(init);
    forall j | 0 <= j < |s| - 1
      ensures s[j].category != s[|s| - 1].category
    {
      assert init[j] == s[j];
    }
  }

  /** The grouping loop over a plain object, then `Object.values` in insertion order. */
  method OnePerCategory(products: seq<Product>) returns (unique: seq<Product>)
    ensures unique == FirstPerCategory(products)
  {
    var dict: map<string, Product> := map[];
    var keys: seq<string> := [];
    var i := 0;
    while i < |products|
      invariant 0 <= i <= |products|
      invariant forall c :: c in dict <==> c in keys
      invariant |keys| == |FirstPerCategory(products[..i])|
      invariant forall k :: 0 <= k < |keys| ==>
                  keys[k] in dict && dict[keys[k]] == FirstPerCategory(products[..i])[k]
                  && keys[k] == FirstPerCategory(products[..i])[k].category
    {
      var p := products[i];
      assert products[..i + 1][..i] == products[..i];
      assert products[..i + 1][i] == p;
      ghost var prev := FirstPerCategory(products[..i]);
      assert p.category in keys <==> HasCategory(prev, p.category) by {
        if HasCategory(prev, p.category) {
          var k :| 0 <= k < |prev| && prev[k].category == p.category;
          assert keys[k] == p.category;
        }
      }
      if p.category != "" && !(Inherited(p.category) || p.category in dict) {
        dict := dict[p.category := p];
        keys := keys + [p.category];
      }
      i := i + 1;
    }
    assert products[..i] == products;
    unique := [];
    var j := 0;
    while j < |keys|
      invariant 0 <= j <= |keys|
      invariant unique == FirstPerCategory(products)[..j]
    {
      assert FirstPerCategory(products)[..j + 1] == FirstPerCategory(products)[..j] + [dict[keys[j]]];
      unique := unique + [dict[keys[j]]];
      j := j + 1;
    }
  }

  /** What the strip shows. */
  datatype Strip = LoadFailed | NoBestsellers | Cards(products: seq<Product>)

  /** The strip for the server's answer: a failure leaves the connection message, an empty list
      says "No bestsellers found.", and when no category can be recorded the first five
      products are shown instead. Cards receive the ids as text. */
  function StripOf(response: Option<seq<Product>>): (s: Strip)
    ensures response.None? <==> s == LoadFailed
    ensures s == NoBestsellers <==> response == Some([])
    ensures s.Cards? ==> 1 <= |s.products| && forall k :: 0 <= k < |s.products| ==> s.products[k].id.Text?
    ensures s.Cards? && FirstPerCategory(response.value) != [] ==> s.products == WithTextIds(FirstPerCategory(response.value))
    ensures s.Cards? && FirstPerCategory(response.value) == [] ==> s.products == WithTextIds(Take(response.value, 5))
  {
    if response.None? then LoadFailed
    else if response.value == [] then NoBestsellers
    else
      var unique := FirstPerCategory(response.value);
      if unique == [] then Cards(WithTextIds(Take(response.value, 5))) else Cards(WithTextIds(unique))
  }

  /** The fallback applies exactly when no product of the answer has a recordable category. */
  lemma FallbackWhenNoCategory(products: seq<Product>)
    ensures FirstPerCategory(products) == [] <==> forall k :: 0 <= k < |products| ==> !Recordable(products[k])
  {
    FirstPerCategoryProperties(products);
  }

  /** The page computes the strip with the grouping loop. */
  method LoadStrip(response: Option<seq<Product>>) returns (s: Strip)
    ensures s == StripOf(response)
  {
    if response.None? {
      s := LoadFailed;
    } else if |response.value| == 0 {
      s := NoBestsellers;
    } else {
      var unique := OnePerCategory(response.value);
      if |unique| == 0 {
        s := Cards(WithTextIds(Take(response.value, 5)));
      } else {
        s := Cards(WithTextIds(unique));
      }
    }
  }
}
