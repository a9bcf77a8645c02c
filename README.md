# Swastik storefront: a Dafny model

Swastik is the online catalogue of a furniture shop. It comes in two versions:

- **The static site** (`Swastik_Static`): pages read a product list compiled into the scripts.
- **The dynamic site** (`Swastik_Dynamic`): a small Flask server reads products and shop settings from a document store and answers JSON requests.

Neither site takes payment. A customer browses products and collects them in a cart kept in the browser's local storage. An order or inquiry is then sent as a prefilled WhatsApp message to the shop's number.

This project models the logic of both sites:

- **Catalogue:** product identifiers compared with JavaScript's loose and strict equality, text search and the three sort orders.
- **Prices:** the half-dozen price parsers the pages use, and the discount badge computed from the M.R.P. and the current price.
- **Cart:** the shared cart, its item count, the two ways pages add a product, and the two cart pages with their buttons and order message.
- **Pages:**
  - the listing, search, product and home pages of the static site;
  - the category, product, home and navigation scripts of the dynamic site;
  - the two card components;
  - the slide shows.
- **Contact:** the contact forms and the WhatsApp links.
- **Server:** the selection rules of the server's JSON endpoints, its shop settings, its login rule and the image choices of its admin forms.

Modules follow the source files:

- `Basics`, `Prices`, `Catalog` and `CartStore` hold the vocabulary shared by every page.
- `Carousel` holds the slide shows.
- There is one module per page script and one for the server.

How the code is shaped follows the code it models:

- **Pure computations are functions.** This covers parsing, filtering, sorting and the text of links and messages. What they promise is stated in their contracts and in lemmas.
- **Code that changes state step by step is imperative Dafny:**
  - **Classes:** the stored cart, the cart pages, the category page, the suggestion box and the two "Add to Cart" buttons.
  - **Arrays:** the slides and dots of a carousel, with an "active" flag on each.
  - **Loops:** the render and checkout passes of the cart pages, the grouping loop of the dynamic home page and the server's filter loops. Each is proved against the function that specifies it.

Some inputs come from outside the model and are passed in as parameters:

- `toLocaleString` (`fmt`) and `encodeURIComponent` (`enc`).
- The responses of the server and of the document store.
- The stored cart.
- The URL parameters.

A JavaScript `NaN` is `None`, and prices are exact decimals (`real`).

## Model

| member | source | states |
|---|---|---|
| Basics.Capitalize | Swastik_Dynamic/static/js/category.js:62 | the first character is upper-cased, the rest is kept, the length is unchanged |
| Basics.Trim | Swastik_Static/js/common.js:85 | the result is no longer than the input and neither starts nor ends with white space |
| Basics.TrimNoSpace | Swastik_Static/js/common.js:85 | a text without surrounding white space is its own trim |
| Basics.TrimStartDropsSpace | Swastik_Static/js/common.js:85 | every character dropped from the front is white space |
| Basics.TrimEndDropsSpace | Swastik_Static/js/common.js:85 | every character dropped from the back is white space |
| Basics.TrimIsSlice | Swastik_Static/js/common.js:85 | the trim is a slice `s[i..j]` of the input with only white space before `i` and after `j` |
| Basics.IndexOfFrom | Swastik_Dynamic/app.py:86 | `find`/`indexOf`: -1 exactly when the pattern does not occur from `from` on, else the first position where it occurs |
| Basics.NatToStringRoundTrip | Swastik_Static/js/search.js:113 | reading the decimal text `String(n)` of a natural number gives `n` back |
| Basics.WaMeLinkText | Swastik_Static/js/products.js:205 | two WhatsApp links to one number are equal only when their texts are equal |
| Basics.TakeFilterFirstKept | Swastik_Static/js/product.js:159-161 | `filter(keep).slice(0, n)` is at most `n` long and is the kept elements of the prefix that ends at the `n`-th kept element, or of the whole list when fewer are kept |
| Basics.FirstKeptUnique | Swastik_Static/js/product.js:159-161 | that description fixes the result: two lists meeting it are equal |
| Carousel.JsRemainder | Swastik_Static/js/home.js:20 | JavaScript `%`: a remainder in `[0, b)` for a non-negative dividend and in `(-b, 0]` for a negative one |
| Carousel.ModularIndex | Swastik_Static/js/home.js:20 | `(index + total) % total` is a valid slide index for every index from `-total` on |
| Carousel.ModularIndexValues | Swastik_Static/js/home.js:20 | the modular rule keeps an index in range and moves an index one round below or above back by one round |
| Carousel.WrapIndex | Swastik_Dynamic/static/js/home.js:34-36 | the wrap rule always gives a valid index and keeps an index in range |
| Carousel.WrapAgreesWithModular | Swastik_Dynamic/static/js/home.js:34-36 | the wrap rule and the modular rule agree on every index from -1 to `total` |
| Carousel.WrapDiffersFurtherOut | Swastik_Static/js/home.js:20 | two past the end, the wrap rule gives the first slide and the modular rule the second |
| Carousel.SwipeStep | Swastik_Static/js/home.js:59-66 | a swipe asks for "next" exactly when it moves more than 50 px left, "previous" exactly when it moves more than 50 px right, nothing otherwise |
| Carousel.SlideDeck.constructor | Swastik_Static/js/home.js:11-13 | the markup starts with the first slide and first dot active |
| Carousel.SlideDeck.Activate | Swastik_Dynamic/static/js/home.js:28-40 | after the loops that clear every slide and dot, exactly slide `k` and dot `k` are active |
| Carousel.SlideDeck.ShowModular | Swastik_Static/js/home.js:16-24 | `showSlide` makes the modular index the only active slide |
| Carousel.SlideDeck.ShowWrapped | Swastik_Static/js/product.js:246-261 | `showSlide`/`showProductSlide` make the wrapped index the only active slide |
| Carousel.SlideDeck.NextModular | Swastik_Static/js/home.js:26 | "next" moves to the following slide, from the last to the first |
| Carousel.SlideDeck.PrevModular | Swastik_Static/js/home.js:27 | "previous" moves to the preceding slide, from the first to the last |
| Carousel.SlideDeck.NextWrapped | Swastik_Dynamic/static/js/home.js:43-45 | "next" moves to the following slide, from the last to the first |
| Carousel.SlideDeck.PrevWrapped | Swastik_Dynamic/static/js/home.js:47-49 | "previous" moves to the preceding slide, from the first to the last |
| Carousel.SlideDeck.SwipeModular | Swastik_Static/js/home.js:59-66 | a swipe moves by exactly the step the swipe asks for, wrapping at the ends |
| Carousel.SlideDeck.SwipeWrapped | Swastik_Dynamic/static/js/home.js:86-95 | a swipe moves by exactly the step the swipe asks for, wrapping at the ends |
| Carousel.SlideDeck.SwipeGallery | Swastik_Static/js/product.js:279-286 | a swipe on the gallery moves by exactly the step the swipe asks for, wrapping at the ends |
| Prices.KeepDigitsAndDot | Swastik_Dynamic/static/js/product-card.js:16 | the result holds only digits and dots and is no longer than the input |
| Prices.RemoveChars | Swastik_Static/js/products.js:51 | no character of the deleted class remains |
| Prices.DigitsIn | Swastik_Static/js/products.js:51 | the result is all digits |
| Prices.CharFiltersMembers | Swastik_Static/js/products.js:51 | a character is in each filter's result exactly when it is in the input and is a digit or dot, outside the deleted class, or a digit |
| Prices.CharFiltersSingle | Swastik_Dynamic/static/js/product-card.js:16 | on one character each filter keeps it exactly when it passes the filter's test, and otherwise gives the empty text |
| Prices.KeepDigitsAndDotAppend | Swastik_Dynamic/static/js/product-card.js:16 | filtering two texts put together is filtering each, so the characters kept stay in input order |
| Prices.RemoveCharsAppend | Swastik_Static/js/products.js:51 | deleting from two texts put together is deleting from each, so the characters kept stay in input order |
| Prices.DigitsInAppend | Swastik_Static/js/products.js:51 | keeping the digits of two texts put together is keeping the digits of each, in order |
| Prices.ParseFloat | Swastik_Dynamic/static/js/product-card.js:16 | `parseFloat` is NaN exactly on an empty text or one starting with a dot not followed by a digit, and reads a text of digits as its value |
| Prices.DecimalLiteral | Swastik_Static/js/products.js:51 | a whole `digits[.digits]` literal is read as a number, and only such a text |
| Prices.StringToNumber | Swastik_Static/js/products.js:51 | `Number`: blank text is 0, a parsed text is digits and dots once trimmed, digits are read as their value |
| Prices.ParseFloatOnRupeePrice | Swastik_Dynamic/static/js/product-card.js:14-17 | the `parseFloat` parsers read a well-formed "₹18,500" as its value 18500 |
| Prices.NumberOnRupeePrice | Swastik_Static/js/products.js:49-52 | the listing's `Number` parser reads a well-formed price as its value |
| Prices.MisencodedOnRupeePrice | Swastik_Static/js/product.js:18-21 | the product page's parser reads every well-formed price as NaN |
| Prices.JsRound | Swastik_Static/js/products.js:118 | `Math.round` lands within half a unit of its argument |
| Prices.PercentOff | Swastik_Static/js/products.js:114-120 | the badge's percentage lies between 0 and 100 |
| Prices.DiscountOf | Swastik_Static/js/products.js:114-120 | a deal is shown exactly when both prices parse and the M.R.P. is above the price, with a percentage from 0 to 100 |
| Prices.PercentOffZero | Swastik_Static/js/products.js:118 | the badge reads 0% exactly when the saving is under half a percent |
| Prices.PercentOffHundred | Swastik_Static/js/products.js:118 | the badge reads 100% exactly when the price is at most half a percent of the M.R.P. |
| Prices.PercentOffMonotone | Swastik_Static/js/products.js:118 | a lower price never shows a smaller percentage |
| Prices.TableDeal | Swastik_Static/js/categories/tables.js:6-7 | the catalogue's table (₹22,000 / ₹18,500) shows 16% off on the listing |
| Prices.TablePrices | Swastik_Static/js/categories/tables.js:6-7 | the two prices of that product are well formed and worth 22000 and 18500 |
| Catalog.AsText | Swastik_Dynamic/static/js/home.js:148 | `String(id)` gives a text id with the same text |
| Catalog.AsTextIdempotent | Swastik_Dynamic/static/js/category.js:137 | converting an id to text twice is converting it once |
| Catalog.LooseEqProperties | Swastik_Static/js/products.js:216-217 | loose `==` between ids is symmetric and implied by strict equality |
| Catalog.IdUrlRoundTrip | Swastik_Static/js/product.js:11 | a non-negative id written into `product.html?id=` and read back as text loosely equals the id |
| Catalog.WithTextId | Swastik_Dynamic/static/js/home.js:148 | only the id changes, into a text id with the same text |
| Catalog.WithTextIds | Swastik_Dynamic/static/js/category.js:135-140 | every product of the list gets its id as text, order and length kept |
| Catalog.FindLoose | Swastik_Static/js/products.js:216 | `find` with `==`: the first product whose id loosely equals the id, or none exactly when no product's does |
| Catalog.SearchResults | Swastik_Static/js/common.js:172-175 | the catalogue filtered in its own order by the query: a product is a result exactly when it is in the catalogue and its lower-cased name or category contains the query |
| Catalog.EmptyQueryMatchesAll | Swastik_Static/js/products.js:39-44 | a query that trims to nothing (a `q` of spaces) matches the whole catalogue, in order |
| Catalog.TrimLowerCommute | Swastik_Static/js/search.js:6 | trimming then lower-casing equals lower-casing then trimming |
| Catalog.SortOptionOf | Swastik_Static/js/products.js:80-86 | exactly "price_asc", "price_desc" and "name_asc" choose an order |
| Catalog.LexLessIrreflexive | Swastik_Static/js/products.js:85 | the name order puts no name before itself |
| Catalog.LexLessTotal | Swastik_Static/js/products.js:85 | two names neither before the other are equal |
| Catalog.LexLessTransitive | Swastik_Static/js/products.js:85 | the name order is transitive |
| Catalog.Insert | Swastik_Static/js/products.js:80-86 | insertion makes the list one longer |
| Catalog.InsertPermutes | Swastik_Static/js/products.js:80-86 | insertion adds exactly the one product: the result is a permutation of the product and the list |
| Catalog.SortBy | Swastik_Static/js/products.js:80-86 | the sort returns a permutation of its input |
| Catalog.BeforeOrder | Swastik_Dynamic/static/js/category.js:120-126 | the comparator is asymmetric and its negation transitive when the compared prices parse |
| Catalog.InsertSorted | Swastik_Static/js/products.js:80-86 | inserting into a sorted list keeps it sorted |
| Catalog.SortBySorted | Swastik_Static/js/products.js:80-86 | whenever every compared price parses, the sort returns the same products ordered by the comparator |
| Catalog.InsertStable | Swastik_Static/js/products.js:80-86 | inserting a product that no kept product is ordered after leaves the kept products in the order of the product followed by the list |
| Catalog.SortByStable | Swastik_Static/js/products.js:80-86 | whenever every compared price parses, the products the comparator ties with a given one keep their input order, as the stable `Array.prototype.sort` keeps them |
| Catalog.UnsortedKeepsOrder | Swastik_Static/js/products.js:80-86 | without a sort option the order is kept |
| CartStore.LineOf | Swastik_Static/js/products.js:216-222 | a new line has quantity 1 and the product's id and price (the dynamic snapshot at Swastik_Dynamic/static/js/product.js:177-183 agrees); a product not found gives a line with no fields |
| CartStore.CartCountAppend | Swastik_Static/js/common.js:111-137 | the item count of two carts put together is the sum of their counts |
| CartStore.CartCountUpdate | Swastik_Static/js/cart.js:117-123 | replacing one line changes the count by the difference of the quantities |
| CartStore.CartCountRemove | Swastik_Static/js/cart.js:128-133 | deleting a line removes its quantity from the count |
| CartStore.CartCountAtLeastLines | Swastik_Static/js/common.js:111-137 | with positive quantities the count is at least the number of lines |
| CartStore.CountBadge | Swastik_Dynamic/static/js/nav.js:86-100 | the badge shows exactly when the count is positive |
| CartStore.FirstLoose | Swastik_Static/js/products.js:217 | the first line whose id loosely equals the id, or none exactly when no line's does |
| CartStore.FirstStrict | Swastik_Dynamic/static/js/product-card.js:403-419 | the first line whose id is strictly equal to the id, or none exactly when no line's is |
| CartStore.BumpedEffect | Swastik_Static/js/products.js:214-225 | adding raises the count by one, raises only the matching line's quantity or appends a line, and leaves other lines alone |
| CartStore.AddKeepsDistinctIds | Swastik_Dynamic/static/js/product.js:170-196 | both ways of adding keep the cart's ids distinct |
| CartStore.BumpedDistinct | Swastik_Static/js/products.js:214-225 | bumping a line or appending a line with a new id keeps ids distinct |
| CartStore.CartStorage.constructor | Swastik_Static/js/cart.js:28-30 | an absent key reads as the empty cart |
| CartStore.CartStorage.Save | Swastik_Static/js/cart.js:137-146 | the stored cart becomes the given one |
| CartStore.CartStorage.AddLoose | Swastik_Static/js/products.js:214-225 | the stored cart becomes the loose add of the old one, one more item |
| CartStore.CartStorage.AddStrict | Swastik_Dynamic/static/js/product-card.js:403-419 | the stored cart becomes the strict add of the old one, one more item |
| StaticCart.TotalQtyAtLeastRows | Swastik_Static/js/cart.js:61 | every row counts at least one item |
| StaticCart.TotalQtyIsCartCount | Swastik_Static/js/cart.js:57-66 | with positive quantities the page's item count is the header badge's count |
| StaticCart.OrderTotalMatchesPage | Swastik_Static/js/cart.js:158 | the order's estimate equals the page's total whenever no quantity is negative |
| StaticCart.SameLineTotal | Swastik_Static/js/cart.js:61 | for a non-negative quantity a line's total on the page and in the order agree |
| StaticCart.NegativeQuantityDisagrees | Swastik_Static/js/cart.js:158 | a line of quantity -1 at "5" counts 5 on the page and -5 in the order |
| StaticCart.CheckoutUrlDeterminesMessage | Swastik_Static/js/cart.js:149-178 | with a lossless encoding the link determines whether the cart is empty and the whole message |
| StaticCart.ButtonsKeepPositive | Swastik_Static/js/cart.js:109-133 | "+", "-" and delete keep every quantity positive and change the count by one, one, and the line's quantity |
| StaticCart.CartPage.constructor | Swastik_Static/js/cart.js:11-35 | the page loads the stored cart and shows it |
| StaticCart.CartPage.ComputeView | Swastik_Static/js/cart.js:43-105 | the render loop's rows, item count and total are those of the cart |
| StaticCart.CartPage.SaveAndRender | Swastik_Static/js/cart.js:137-146 | the cart is stored and shown |
| StaticCart.CartPage.Reload | Swastik_Static/js/cart.js:38-41 | another tab's change is loaded and shown |
| StaticCart.CartPage.Increase | Swastik_Static/js/cart.js:117-118 | "+" raises the line by one, stores and shows the cart |
| StaticCart.CartPage.Decrease | Swastik_Static/js/cart.js:119-123 | "-" lowers the line, deleting it once it is no longer positive, stores and shows the cart |
| StaticCart.CartPage.Remove | Swastik_Static/js/cart.js:128-133 | delete removes the line (nothing past the end), stores and shows the cart |
| StaticCart.CartPage.Checkout | Swastik_Static/js/cart.js:149-178 | the message loop builds the order message and estimate of the cart; nothing on an empty cart |
| DynamicCart.Times | Swastik_Dynamic/static/js/cart.js:33 | a product is NaN exactly when the price is |
| DynamicCart.Plus | Swastik_Dynamic/static/js/cart.js:34 | a sum is NaN exactly when a term is |
| DynamicCart.TotalNaN | Swastik_Dynamic/static/js/cart.js:31-34 | the total is NaN exactly when some line's price does not parse |
| DynamicCart.TotalMatchesStatic | Swastik_Dynamic/static/js/cart.js:31-34 | with parseable prices and positive quantities the total equals the static page's |
| DynamicCart.SameLineTotal | Swastik_Dynamic/static/js/cart.js:33 | per line, the same total as the static page |
| DynamicCart.ItemLineMatchesStatic | Swastik_Dynamic/static/js/cart.js:115 | for a line with name, price and positive quantity the order line equals the static page's |
| DynamicCart.ButtonsMatchStatic | Swastik_Dynamic/static/js/cart.js:76-89 | "+" and "-" do what the static page's do on every cart |
| DynamicCart.CartPage.constructor | Swastik_Dynamic/static/js/cart.js:1-15 | the page loads the stored cart, shows it and takes the phone from the button's attribute |
| DynamicCart.CartPage.ComputeView | Swastik_Dynamic/static/js/cart.js:17-63 | the render loop's rows, count and (possibly NaN) total are those of the cart |
| DynamicCart.CartPage.SaveAndRender | Swastik_Dynamic/static/js/cart.js:98-102 | the cart is stored and shown |
| DynamicCart.CartPage.Increase | Swastik_Dynamic/static/js/cart.js:76-79 | "+" raises the line by one, stores and shows the cart |
| DynamicCart.CartPage.Decrease | Swastik_Dynamic/static/js/cart.js:81-89 | "-" lowers a line above one and deletes a line of one |
| DynamicCart.CartPage.Remove | Swastik_Dynamic/static/js/cart.js:91-94 | delete removes the line, stores and shows the cart |
| DynamicCart.CartPage.Checkout | Swastik_Dynamic/static/js/cart.js:105-123 | the message loop builds the order message and estimate of the cart; nothing on an empty cart |
| Contact.ContactUrl | Swastik_Static/js/contact.js:22-37 | a link exactly when all three fields are filled, carrying the inquiry text |
| Contact.SitesAgree | Swastik_Dynamic/static/js/contact.js:14-27 | both sites open the same link unless the static settings name another number |
| Contact.MessageReadBack | Swastik_Static/js/contact.js:30-33 | with name and phone fixed, the message is determined by the text |
| Contact.FieldsAmbiguous | Swastik_Dynamic/static/js/contact.js:21-24 | a name holding the phone label gives the same text as a different submission |
| Contact.InquiryTextShape | Swastik_Static/js/contact.js:30-33 | the inquiry text is the heading, then each field behind its label |
| DynamicCategory.Title | Swastik_Dynamic/static/js/category.js:56-66 | "Top Selling Products" for best sellers, else the capitalised category, else "All Products" |
| DynamicCategory.UpdatedUrl | Swastik_Dynamic/static/js/category.js:68-81 | each of the three parameters is set exactly when its value is non-empty (sort also not "default"); others are kept |
| DynamicCategory.ApiUrl | Swastik_Dynamic/static/js/category.js:84-92 | the request carries `type` then `category`, each only when set |
| DynamicCategory.Render | Swastik_Dynamic/static/js/category.js:117-141 | "no products" exactly for an empty answer; for any other answer the cards are the answer sorted by the chosen option, with text ids |
| DynamicCategory.RenderDefaultKeepsOrder | Swastik_Dynamic/static/js/category.js:119-126 | any other sort value keeps the server's order |
| DynamicCategory.RenderSorted | Swastik_Dynamic/static/js/category.js:117-126 | with parseable prices the cards are the answer's products, sorted as chosen |
| DynamicCategory.CategoryPage.constructor | Swastik_Dynamic/static/js/category.js:20-28 | the drop-downs start from the URL parameters with their defaults |
| DynamicCategory.CategoryPage.CategoryChange | Swastik_Dynamic/static/js/category.js:33-42 | a new category drops `type` from the address and the request |
| DynamicCategory.CategoryPage.SortChange | Swastik_Dynamic/static/js/category.js:44-52 | a new sort re-renders the loaded products and writes the page's initial `type` back |
| DynamicCategory.CategoryPage.FetchDone | Swastik_Dynamic/static/js/category.js:93-110 | an answer replaces and renders the products; a failure shows the error |
| DynamicHome.FirstPerCategoryProperties | Swastik_Dynamic/static/js/home.js:129-137 | the strip has distinct categories, only recordable products of the answer, and every recordable category |
| DynamicHome.FirstPerCategoryFirst | Swastik_Dynamic/static/js/home.js:129-137 | each product kept is the first of its category in the answer |
| DynamicHome.OnePerCategory | Swastik_Dynamic/static/js/home.js:129-137 | the grouping loop over a plain object computes one product per category in first-seen order |
| DynamicHome.StripOf | Swastik_Dynamic/static/js/home.js:111-160 | an error, "no bestsellers" exactly for an empty answer, or the grouped products (or the first five) with text ids |
| DynamicHome.FallbackWhenNoCategory | Swastik_Dynamic/static/js/home.js:139-144 | the fallback applies exactly when no product's category can be recorded |
| DynamicHome.LoadStrip | Swastik_Dynamic/static/js/home.js:111-160 | the page builds exactly that strip |
| DynamicNav.SuggestionRequestDeterminesQuery | Swastik_Dynamic/static/js/nav.js:56 | with an injective encoding the request names its query |
| DynamicNav.TrimmedAskable | Swastik_Dynamic/static/js/nav.js:41-46 | a trimmed text of two characters or more has no surrounding space |
| DynamicNav.SuggestionBox.constructor | Swastik_Dynamic/static/js/nav.js:31 | the box starts hidden, empty, with no timer |
| DynamicNav.SuggestionBox.Input | Swastik_Dynamic/static/js/nav.js:40-53 | a short query clears and hides the box; a longer one restarts the timer with the trimmed query |
| DynamicNav.SuggestionBox.TimerFires | Swastik_Dynamic/static/js/nav.js:53-56 | a request for the pending query, and only when one is pending |
| DynamicNav.SuggestionBox.Response | Swastik_Dynamic/static/js/nav.js:58-78 | results fill and show the box; an empty list only hides it; a failure changes nothing |
| DynamicNav.SuggestionBox.ClickOutside | Swastik_Dynamic/static/js/nav.js:34-38 | a click outside hides the box |
| DynamicProductPage.DetailOf | Swastik_Dynamic/static/js/product.js:44-120 | the product's name; texts fall back to fixed ones; an unavailable product shows no price or deal and disables both buttons; the deal is the card's, shown with the original and current price texts as stored |
| DynamicProductPage.PageOf | Swastik_Dynamic/static/js/product.js:14-37 | the three messages for a missing id, a missing product and a failed request; else the details |
| DynamicProductPage.BuyLinkNamesProduct | Swastik_Dynamic/static/js/product.js:91 | the link depends only on name and price text and always goes to the shop's number |
| DynamicProductPage.FirstRelated | Swastik_Dynamic/static/js/product.js:210-212 | the first four answered products for sale other than this one, as `filter(...).slice(0, 4)` gives them; empty exactly when none qualifies |
| DynamicProductPage.RelatedOf | Swastik_Dynamic/static/js/product.js:199-224 | not shown exactly without a category or on failure; "no related" exactly when no product qualifies; else those first four, one to four, each a for-sale product other than this one from the answer with its id as text |
| DynamicProductPage.CartButton.constructor | Swastik_Dynamic/static/js/product.js:115-127 | the button starts reading "Add to Cart", without the "added" class and with no timer running |
| DynamicProductPage.CartButton.Click | Swastik_Dynamic/static/js/product.js:170-196 | a product for sale is added by strict id, one more item; the label shown at that moment goes to a new timer, and "Added" is shown with the class; otherwise nothing happens |
| DynamicProductPage.CartButton.TimerEnds | Swastik_Dynamic/static/js/product.js:193-196 | the oldest timer writes back the label its click read and removes the class |
| DynamicProductPage.OneClickRestores | Swastik_Dynamic/static/js/product.js:189-196 | after one click and its timer the button reads "Add to Cart" again, without the class |
| DynamicProductPage.DoubleClickKeepsAdded | Swastik_Dynamic/static/js/product.js:189-196 | after two clicks within two seconds and both timers the button reads "Added" for good, without the class |
| ProductCards.InsertTransform | Swastik_Dynamic/static/js/product-card.js:20-27 | an optimizable URL gets the segment after its first "/upload/"; any other URL is unchanged |
| ProductCards.BestsellerImageIdempotent | Swastik_Dynamic/static/js/bestseller-card.js:18-26 | the best-seller rewrite applied twice is applied once |
| ProductCards.CardImageNotIdempotent | Swastik_Dynamic/static/js/product-card.js:20-27 | the product card's rewrite leaves a URL it would rewrite again, so twice inserts the segment twice |
| ProductCards.AutoMarkInserted | Swastik_Dynamic/static/js/bestseller-card.js:22 | the best-seller segment puts "/f_auto" into the URL |
| ProductCards.CardImageStaysOptimizable | Swastik_Dynamic/static/js/product-card.js:23 | the product card's segment leaves neither "/f_auto" nor "/w_" in a URL without them |
| ProductCards.AvailableDeal | Swastik_Dynamic/static/js/product-card.js:69-90 | a deal exactly for a product for sale with a non-empty M.R.P. above the price, both parsed |
| ProductCards.BestsellerDeal | Swastik_Dynamic/static/js/bestseller-card.js:31-47 | a deal exactly for a non-empty M.R.P. above the price, availability ignored |
| ProductCards.DealsAgreeWhenAvailable | Swastik_Dynamic/static/js/bestseller-card.js:31-47 | the two cards agree on products for sale; an unavailable one is a deal only on the best-seller card |
| ProductCards.DealsOnRupeePrices | Swastik_Dynamic/static/js/product-card.js:69-90 | on well-formed prices a deal exactly when the M.R.P.'s value is above the price's |
| ProductCards.ProductCardOf | Swastik_Dynamic/static/js/product-card.js:29-90 | the optimized image; overlay, "Currently Unavailable" and "Out of Stock" exactly for unavailable products; the best-seller badge exactly for best sellers; the deal badge and the discounted price block exactly with the card's deal, showing its percentage and the loosely parsed price and M.R.P.; else the loosely parsed price |
| ProductCards.BestsellerCardOf | Swastik_Dynamic/static/js/bestseller-card.js:28-47 | the image goes through the best-seller optimisation; the price is shown as stored, with the best-seller deal |
| ProductCards.ClickCart | Swastik_Dynamic/static/js/product-card.js:371-400 | a product for sale is added by strict id; otherwise the cart is unchanged |
| Server.ShopSettings | Swastik_Dynamic/app.py:51-67 | stored settings override the defaults key by key; unreadable settings leave the defaults |
| Server.SettingsKeepDefaultKeys | Swastik_Dynamic/app.py:55-66 | the four default keys are always present |
| Server.LoginRequired | Swastik_Dynamic/app.py:70-76 | the handler runs exactly when the session is logged in |
| Server.FormAvailability | Swastik_Dynamic/app.py:179-180 | a product saved from the form is for sale exactly when "available" was ticked, and a best seller exactly when "bestseller" was |
| Server.LastSegment | Swastik_Dynamic/app.py:90 | the text after the last "/", holding none |
| Server.BeforeDot | Swastik_Dynamic/app.py:91 | the text before the first ".", holding none |
| Server.PublicIdFromUrl | Swastik_Dynamic/app.py:79-94 | an id exactly for a Cloudinary URL, without "/" or "." |
| Server.PublicIdRoundTrip | Swastik_Dynamic/app.py:79-94 | `<folder>/<id>.<ext>` gives back `id` |
| Server.DestroyTarget | Swastik_Dynamic/app.py:262-266 | an image is destroyed exactly when it is present and has a non-empty public id |
| Server.AddImage | Swastik_Dynamic/app.py:166-175 | a chosen file's upload wins; otherwise the typed URL |
| Server.EditImage | Swastik_Dynamic/app.py:208-226 | a chosen file wins and destroys the current image's public id, if it has one; else a typed URL, else the current image; only a file upload destroys an image |
| Server.TypedUrlIgnoredAsWritten | Swastik_Dynamic/app.py:208-226 | with an empty file field a new typed URL is ignored as written and stored as intended |
| Server.EditAgreesOutsideEmptyField | Swastik_Dynamic/app.py:208-226 | both versions agree unless the file field is sent empty |
| Server.SearchAnswerProperties | Swastik_Dynamic/app.py:367-383 | results are documents whose name contains the query; with a positive limit the first `limit` of them in store order, without one all of them in store order |
| Server.EmptySearchMatchesAll | Swastik_Dynamic/app.py:375-380 | the empty query returns every document |
| Server.SearchProducts | Swastik_Dynamic/app.py:367-383 | the handler's loop computes that answer |
| Server.BestsellerQuery | Swastik_Dynamic/app.py:319 | the first fifty best sellers in store order (all of them when there are fewer) |
| Server.BestsellerAnswer | Swastik_Dynamic/app.py:307-332 | the fifty filtered in their order to those not marked unavailable, so at most fifty best sellers for sale |
| Server.BestsellerAnswerComplete | Swastik_Dynamic/app.py:319-330 | with at most fifty best sellers in the store every best seller for sale is answered |
| Server.GetBestsellers | Swastik_Dynamic/app.py:320-330 | the handler's loop computes that answer |
| Server.ProductsAnswer | Swastik_Dynamic/app.py:334-365 | best sellers for `type=bestsellers`, else the category's products, else all; each in store order |
| Server.StripShowsAvailableBestsellers | Swastik_Dynamic/static/js/home.js:111-151 | the home strip only shows best sellers for sale |
| StaticCommon.SearchTarget | Swastik_Static/js/common.js:81-91 | a target exactly for a non-blank input, carrying the trimmed query |
| StaticCommon.SearchTargetDeterminesQuery | Swastik_Static/js/common.js:88 | with an injective encoding the target names the trimmed query |
| StaticCommon.SuggestionsFor | Swastik_Static/js/common.js:162-191 | hidden exactly for a blank input; "no matches" exactly when nothing matches; else one to five matching products |
| StaticCommon.SuggestionsPrefixSearch | Swastik_Static/js/common.js:172-175 | the suggestions are the first cards the search page shows for the same text |
| StaticCommon.SuggestionsAreFirstResults | Swastik_Static/js/common.js:172-175 | the suggestions are the first five search results |
| StaticCommon.SearchPageShowsResults | Swastik_Static/js/search.js:32-53 | for a text with matches the search page has one card per result |
| StaticCommon.InquiryLinkAsWrittenHasQuote | Swastik_Static/js/common.js:34 | as written the link's text is the message plus a quote, never the message |
| StaticCommon.InquiryLinkCarriesMessage | Swastik_Static/js/common.js:29-35 | as intended the link's text decodes to the message |
| StaticHome.HomeBestsellers | Swastik_Static/js/home.js:76-81 | exactly the products marked best seller, in catalogue order |
| StaticHome.HomeDeal | Swastik_Static/js/home.js:85-100 | for a product with a price (the page stops before one without), a deal exactly for a non-empty M.R.P. above the price, both parsed |
| StaticHome.StripCardOf | Swastik_Static/js/home.js:85-107 | every strip card carries the "Limited Time Deal" ribbon and the strip's deal |
| StaticHome.HomeDealAgreesWithListing | Swastik_Static/js/home.js:85-100 | on well-formed prices the strip's deal is the listing's |
| StaticHome.HomeLatest | Swastik_Static/js/home.js:156-165 | at most eight, empty only for an empty catalogue |
| StaticHome.HomeLatestIsListingPrefix | Swastik_Static/js/home.js:156-165 | the first eight of the listing's "latest" view |
| StaticHome.HomePage | Swastik_Static/js/home.js:76-189 | "No bestsellers found." exactly without best sellers; else one strip card per best seller in order up to the first one without a price, where the script stops; the latest arrivals exactly when it did not stop |
| StaticHome.PricelessFirstBestseller | Swastik_Static/js/home.js:83-85 | a best seller without a price first in the catalogue leaves the strip without cards and the latest arrivals unfilled |
| StaticProducts.SearchFiltered | Swastik_Static/js/products.js:37-46 | all products without a query; else exactly the matching ones in catalogue order |
| StaticProducts.Latest | Swastik_Static/js/products.js:66-72 | exactly the marked products in their order, or, with none, the last ten newest first |
| StaticProducts.ListingTitle | Swastik_Static/js/products.js:56-77 | the capitalised category, else "Best Sellers" or "Latest Arrivals", else "All Products" |
| StaticProducts.SelectedMembers | Swastik_Static/js/products.js:37-77 | each product shown is a catalogue product passing every filter in force |
| StaticProducts.ListingSorted | Swastik_Static/js/products.js:80-86 | the listing is a permutation of the selection, sorted when prices compare |
| StaticProducts.FilterProducts | Swastik_Static/js/products.js:19-94 | the heading, "no products" exactly for an empty selection, else the sorted selection |
| StaticProducts.NarrowProducts | Swastik_Static/js/products.js:37-77 | the narrowing steps give the heading and the selection |
| StaticProducts.ListingDeal | Swastik_Static/js/products.js:114-120 | a deal exactly when both prices parse and the M.R.P. is above the price |
| StaticProducts.NoOriginalNoDeal | Swastik_Static/js/products.js:115 | no M.R.P., no deal |
| StaticProducts.ListingBadge | Swastik_Static/js/products.js:123-129 | a deal first, then best seller, then new, the last two only outside special views |
| StaticProducts.InquiryUrlPhone | Swastik_Static/js/products.js:204 | the inquiry goes to the configured phone, else the shop's number |
| StaticProductPage.LookupProduct | Swastik_Static/js/product.js:11-17 | the first catalogue product loosely equal to the id, or none exactly when no product is |
| StaticProductPage.AsWrittenNeverDeal | Swastik_Static/js/product.js:18-28 | as written no deal is shown for a well-formed price |
| StaticProductPage.DetailDealOnRupeePrices | Swastik_Static/js/product.js:23-48 | as intended a deal exactly when the M.R.P. is above the price, with the rounded percentage |
| StaticProductPage.TableOnDetailPage | Swastik_Static/js/product.js:23-48 | the dining table shows 16% as intended and no deal as written |
| StaticProductPage.GalleryImages | Swastik_Static/js/product.js:53 | the images, or the single image when there are none |
| StaticProductPage.HasGalleryControls | Swastik_Static/js/product.js:64-75 | controls exactly for more than one image |
| StaticProductPage.AbsentFlagOutOfStock | Swastik_Static/js/product.js:114-115 | a product without the flag is "Out of Stock" here though for sale elsewhere |
| StaticProductPage.Related | Swastik_Static/js/product.js:159-161 | the first fifteen catalogue products of the same category other than this one, as `filter(...).slice(0, 15)` gives them |
| StaticProductPage.RelatedComplete | Swastik_Static/js/product.js:159-161 | every related product is kept while there are at most fifteen |
| StaticProductPage.GridClasses | Swastik_Static/js/product.js:163-170 | "category-grid" first; "count-1" to "count-4" exactly for one to four products, "count-plus" exactly above four, "desktop-overflow" exactly above nine, and no other class |
| StaticProductPage.PageOf | Swastik_Static/js/product.js:11-185 | "not found" exactly when the lookup fails; else the looked-up product with its deal as intended, its gallery and controls, its availability, its related products, their mini-card deals as intended and the grid classes for their number |
| StaticProductPage.AddToCartButton.constructor | Swastik_Static/js/product.js:295 | the button starts ready |
| StaticProductPage.AddToCartButton.Click | Swastik_Static/js/product.js:291-312 | ignored unless ready; else a loose add and the animation |
| StaticProductPage.AddToCartButton.AnimationEnds | Swastik_Static/js/product.js:323-332 | the button shows "Added" |
| StaticProductPage.AddToCartButton.ResetEnds | Swastik_Static/js/product.js:335-338 | the button is ready again |
| StaticSearch.SearchQuery | Swastik_Static/js/search.js:6 | the trimmed, lower-cased parameter, empty exactly when it is blank |
| StaticSearch.SearchCardOf | Swastik_Static/js/search.js:57-107 | the listing's badge and deal; buttons exactly for products for sale |
| StaticSearch.SearchCards | Swastik_Static/js/search.js:55 | one card per result, in order |
| StaticSearch.SearchPage | Swastik_Static/js/search.js:18-53 | a prompt exactly for an empty query, "no products" exactly when nothing matches, else one card per result and the count |
| StaticSearch.AsWrittenShowsNoCards | Swastik_Static/js/search.js:57-58 | as written a search with results shows its count and no card |
| StaticSearch.MatchLostAsWritten | Swastik_Static/js/search.js:57-58 | a matching product gets a card as intended and none as written |
| StaticSearch.SameResultsAsListing | Swastik_Static/js/search.js:6 | the search page's results are the listing's for the same `q` |
| StaticSearch.SearchInquiryNamesProduct | Swastik_Static/js/search.js:145-146 | with a lossless encoding the inquiry link names its product |

## Left out

- HTML, the DOM and styling:
  - the markup of cards and pages beyond the values they show;
  - image modals;
  - the mobile menu;
  - the best-seller strip's scrolling.
- Timers and their timing:
  - the carousel's and gallery's automatic advance;
  - the 300 ms debounce of the suggestions and the button animations (1.2 s, 2 s), which are modelled only as events.
- Network and storage I/O:
  - `fetch`, the document store, Cloudinary uploads and deletions;
  - `localStorage`, modelled as one stored value;
  - cross-tab `storage` events, apart from the static cart's reload.
- Floating point: prices are exact decimals. Rounding of sums and `toLocaleString` formatting are out, and the formatter is a parameter.
- `encodeURIComponent`: a parameter. Injectivity is assumed where a lemma needs it.
- JavaScript text handling:
  - `localeCompare` is modelled as code-unit order;
  - case mapping is ASCII only;
  - number parsing does not cover signs, exponents, hexadecimal or `Infinity`, none of which appears in a price.
- `getPrice`'s branch for a numeric price: prices are always text in the model.
- `Object.values` order: integer-like category names come first in JavaScript. The model keeps insertion order for every name.
- Sorting is modelled on values, not in place on the array.
- Basics.Trim: its own contract gives only the shape of the result. That the result is the slice of the input between its leading and trailing white space is stated by the lemma Basics.TrimIsSlice.
- Prices.KeepDigitsAndDot, Prices.RemoveChars, Prices.DigitsIn: their own contracts say only what the result holds. Which characters are kept, and that they stay in input order, is stated by Prices.CharFiltersMembers, Prices.CharFiltersSingle and the three append lemmas.
- Catalog.SortBy: when a compared price does not parse, the source's comparator returns NaN and the order `Array.prototype.sort` produces depends on the engine. The model fixes the order its insertion sort gives; sortedness and stability are proved only when every compared price parses.
- StaticProductPage.PageOf: the detail deal and the related mini-cards' "% OFF" tags are stated as intended. As written the page's price parser gives NaN for every well-formed price, so neither shows (the first finding below).
- DynamicProductPage.CartButton: the label's icon markup is left out; labels are the texts "Add to Cart" and "Added".
- Document-store order:
  - the store's result order is taken as given;
  - the fifty-document cut is modelled on the order received.
- Server pieces:
  - admin routes other than the image choice, the form flags and the image deletion rule;
  - the login POST and its credentials;
  - the settings POST;
  - `/api/product/<id>`, which is only a lookup;
  - the seeder.
- `URLSearchParams` with repeated keys: only the first value is modelled.
- A stored cart that is not valid JSON is not modelled; the model treats the stored value as a parsed cart.
- Contact forms: `form.reset()` and the map embed.
- DynamicCategory.Render: the `String(id)` coercion writes back into the loaded products in the source. The model coerces only the rendered copy.
- Dynamic home dots: `parseInt` of a dot's index that is not a number is not modelled. Dots pass an integer.
- StaticSearch.SearchCardOf: search.js's `typeof` branch of the add-to-cart handler is not modelled separately. It adds by loose id like the listing.

## Findings

| source | as written | input that shows it | evidently intended | confidence | as-written member | corrected member |
|---|---|---|---|---|---|---|
| Swastik_Static/js/product.js:18-21 | the price parser's character class holds a mis-encoded rupee sign, so "₹" stays and `Number` gives NaN | a product with M.R.P. "₹22,000" and price "₹18,500" | remove "₹" and "," as the listing does; 16% off | not executed | StaticProductPage.AsWrittenNeverDeal | StaticProductPage.DetailDealOnRupeePrices |
| Swastik_Dynamic/app.py:208-226 | the `elif` for a typed URL hangs off the test for the file field, which the browser always sends | an edit with an empty file field and a new image URL | store the typed URL when no file is chosen | not executed | Server.TypedUrlIgnoredAsWritten | Server.EditImage |
| Swastik_Static/js/common.js:34 | the WhatsApp link's template ends in a stray `"` | any page load; the chat text ends with a quote | the link carries the encoded message only | not executed | StaticCommon.InquiryLinkAsWrittenHasQuote | StaticCommon.InquiryLinkCarriesMessage |
| Swastik_Static/js/search.js:57-58 | the card loop calls `parsePrice`, which this module neither defines nor imports (the shared script's helper is local to its own module) | `search.html?q=table` | cards priced with the listing's parser | not executed | StaticSearch.MatchLostAsWritten | StaticSearch.SearchPage |
