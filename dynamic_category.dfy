/** The category page of the dynamic site: the products of a category, or the best sellers,
    fetched from `/api/products`, sorted on the page, with the query string of the address
    kept in step with the two drop-downs. */
module DynamicCategory {
  import opened Basics
  import opened Prices
  import opened Catalog

  /** `updateTitle`. */
  function Title(category: string, productType: string): (r: string)
    ensures productType == "bestsellers" ==> r == "Top Selling Products"
    ensures productType != "bestsellers" && category == "" ==> r == "All Products"
    ensures productType != "bestsellers" && category != "" ==>
              |r| == |category| && r[0] == Upper(category[0]) && r[1..] == category[1..]
  {
    if productType == "bestsellers" then "Top Selling Products"
    else if category != "" then Capitalize(category)
    else "All Products"
  }

  /** The parameter `name` of the address: set to `value` when `keep` holds, removed otherwise. */
  function SetOrDelete(params: map<string, string>, name: string, value: string, keep: bool): map<string, string> {
    if keep then params[name := value] else params - {name}
  }

  /** `updateURL`: the three parameters of the page follow the drop-downs (a "default" sort is
      left out of the address); every other parameter stays as it was. */
  function UpdatedUrl(params: map<string, string>, category: string, sort: string, productType: string): (r: map<string, string>)
    ensures "category" in r <==> category != ""
    ensures "category" in r ==> r["category"] == category
    ensures "sort" in r <==> sort != "" && sort != "default"
    ensures "sort" in r ==> r["sort"] == sort
    ensures "type" in r <==> productType != ""
    ensures "type" in r ==> r["type"] == productType
    ensures forall k :: k != "category" && k != "sort" && k != "type" ==>
              (k in r <==> k in params) && (k in r ==> r[k] == params[k])
  {
    var withCategory := SetOrDelete(params, "category", category, category != "");
    var withSort := SetOrDelete(withCategory, "sort", sort, sort != "" && sort != "default");
    SetOrDelete(withSort, "type", productType, productType != "")
  }

  /** The request for the products: `type` first, then `category`, and a query string only when
      one of them is set. */
  function ApiUrl(category: string, productType: string, enc: string -> string): (r: string)
    ensures category == "" && productType == "" ==> r == "/api/products"
    ensures productType != "" && category == "" ==> r == "/api/products?type=" + enc(productType)
    ensures productType != "" && category != "" ==>
              r == "/api/products?type=" + enc(productType) + "&category=" + enc(category)
    ensures productType == "" && category != "" ==> r == "/api/products?category=" + enc(category)
  {
    var typeParam := if productType != "" then ["type=" + enc(productType)] else [];
    var params := typeParam + if category != "" then ["category=" + enc(category)] else [];
    if |params| == 0 then "/api/products"
    else if |params| == 1 then "/api/products?" + params[0]
    else "/api/products?" + params[0] + "&" + params[1]
  }

  /** The `parsePrice` of this page: a missing price is 0, text is read by `parseFloat` after
      keeping digits and dots. */
  function PriceOf(p: Option<string>): Option<Amount> {
    ParsePriceTyped(p)
  }

  /** What the grid shows. */
  datatype Grid = Loading | LoadError | NoProducts | Cards(products: seq<Product>)

  /** `renderProducts`: the products sorted by the chosen option ("default" keeps the server's
      order), each handed to a card with its id as text. */
  function Render(products: seq<Product>, sort: string): (g: Grid)
    ensures g == NoProducts <==> products == []
    ensures products != [] ==> g == Cards(WithTextIds(SortBy(SortOptionOf(sort), PriceOf, products)))
    ensures g.Cards? ==> |g.products| == |products|
                         && g.products == WithTextIds(SortBy(SortOptionOf(sort), PriceOf, products))
  {
    var sorted := SortBy(SortOptionOf(sort), PriceOf, products);
    if |sorted| == 0 then NoProducts else Cards(WithTextIds(sorted))
  }

  /** Any sort value other than the three orders keeps the server's order. */
  lemma RenderDefaultKeepsOrder(products: seq<Product>, sort: string)
    requires sort !in {"price_asc", "price_desc", "name_asc"} && products != []
    ensures Render(products, sort) == Cards(WithTextIds(products))
  {
    UnsortedKeepsOrder(PriceOf, products);
  }

  /** When every price can be read, the cards come out sorted as chosen and are the products of
      the response. */
  lemma RenderSorted(products: seq<Product>, sort: string)
    requires Comparable(SortOptionOf(sort), PriceOf, products)
    ensures Sorted(SortOptionOf(sort), PriceOf, SortBy(SortOptionOf(sort), PriceOf, products))
    ensures multiset(SortBy(SortOptionOf(sort), PriceOf, products)) == multiset(products)
  {
    SortBySorted(SortOptionOf(sort), PriceOf, products);
  }

  /** The page, its two drop-downs and the address. */
  class CategoryPage {
    var allProducts: seq<Product>
    var grid: Grid
    var title: string
    var url: map<string, string>
    var categoryValue: string
    var sortValue: string
    /** The `type` parameter the page was opened with; it never changes. */
    const productType: string

    /** The page opened with the parameters `params`: `category` defaults to "", `sort` to
        "default", `type` to "". The first request goes out at once. */
    constructor (params: map<string, string>)
      ensures categoryValue == (if "category" in params then params["category"] else "")
      ensures sortValue == (if "sort" in params then OrElse(params["sort"], "default") else "default")
      ensures productType == (if "type" in params then params["type"] else "")
      ensures title == Title(categoryValue, productType)
      ensures allProducts == [] && grid == Loading && url == params
    {
      categoryValue := if "category" in params then params["category"] else "";
      sortValue := if "sort" in params then OrElse(params["sort"], "default") else "default";
      productType := if "type" in params then params["type"] else "";
      url := params;
      allProducts := [];
      grid := Loading;
      new;
      title := Title(categoryValue, productType);
    }

    /** The request of the page as it stands. */
    function Request(enc: string -> string): string
      reads this
    {
      ApiUrl(categoryValue, productType, enc)
    }

    /** A new category: the `type` is dropped from the address, the title and the request. */
    method CategoryChange(newCategory: string, enc: string -> string) returns (request: string)
      modifies this
      ensures categoryValue == newCategory && sortValue == old(sortValue)
      ensures url == UpdatedUrl(old(url), newCategory, old(sortValue), "")
      ensures title == Title(newCategory, "") && grid == Loading && allProducts == old(allProducts)
      ensures request == ApiUrl(newCategory, "", enc)
    {
      categoryValue := newCategory;
      url := UpdatedUrl(url, newCategory, sortValue, "");
      title := Title(newCategory, "");
      grid := Loading;
      request := ApiUrl(newCategory, "", enc);
    }

    /** A new sort order: the products already loaded are sorted again; the address keeps the
        `type` the page was opened with, even after a category change dropped it. */
    method SortChange(newSort: string)
      modifies this
      ensures sortValue == newSort && categoryValue == old(categoryValue) && allProducts == old(allProducts)
      ensures url == UpdatedUrl(old(url), old(categoryValue), newSort, productType)
      ensures grid == Render(allProducts, newSort) && title == old(title)
    {
      sortValue := newSort;
      url := UpdatedUrl(url, categoryValue, newSort, productType);
      grid := Render(allProducts, newSort);
    }

    /** A response arrives for a request made with the sort `requestSort`: the products replace
        the loaded ones and are rendered; a failure shows the error and keeps them. */
    method FetchDone(requestSort: string, response: Option<seq<Product>>)
      modifies this
      ensures response.Some? ==> allProducts == response.value && grid == Render(response.value, requestSort)
      ensures response.None? ==> allProducts == old(allProducts) && grid == LoadError
      ensures url == old(url) && title == old(title) && categoryValue == old(categoryValue) && sortValue == old(sortValue)
    {
      if response.Some? {
        allProducts := response.value;
        grid := Render(allProducts, requestSort);
      } else {
        grid := LoadError;
      }
    }
  }
}
