/** The two card components of the dynamic site: the product card of the listing pages and the
    best-seller card of the home page. Both rewrite Cloudinary image URLs and show a discount. */
module ProductCards {
  import opened Basics
  import opened Prices
  import opened Catalog
  import opened CartStore

  // ---------------------------------------------------------------- Cloudinary image URLs

  /** The transformation the product card inserts after "/upload/". */
  const CardTransform := "c_pad,b_white,f_auto,q_auto,w_500/"

  /** The transformation the best-seller card inserts after "/upload/". */
  const BestsellerTransform := "f_auto,q_auto,w_600/"

  /** A Cloudinary upload URL that carries neither "/f_auto" nor "/w_". */
  predicate Optimizable(url: string) {
    Contains(url, "cloudinary.com") && Contains(url, "/upload/") && !Contains(url, "/f_auto") && !Contains(url, "/w_")
  }

  /** `url.replace('/upload/', '/upload/' + transform)` for an optimizable URL, else the URL. */
  function InsertTransform(url: string, transform: string): (r: string)
    ensures !Optimizable(url) ==> r == url
    ensures Optimizable(url) ==>
              var k := IndexOf(url, "/upload/");
              OccursAt(url, "/upload/", k) && r == url[..k] + ("/upload/" + transform) + url[k + 8..]
  {
    if Optimizable(url) then ReplaceFirst(url, "/upload/", "/upload/" + transform) else url
  }

  /** The product card's `getOptimizedImage`. */
  function OptimizeCardImage(url: string): string {
    InsertTransform(url, CardTransform)
  }

  /** The best-seller card's `getOptimizedImage`. */
  function OptimizeBestsellerImage(url: string): string {
    InsertTransform(url, BestsellerTransform)
  }

  /** The best-seller card's rewrite puts "/f_auto" into the URL, so a second rewrite changes
      nothing. */
  lemma BestsellerImageIdempotent(url: string)
    ensures OptimizeBestsellerImage(OptimizeBestsellerImage(url)) == OptimizeBestsellerImage(url)
  {
    if Optimizable(url) {
      var k := IndexOf(url, "/upload/");
      var out := OptimizeBestsellerImage(url);
      assert out == url[..k] + ("/upload/" + BestsellerTransform) + url[k + 8..];
      assert BestsellerTransform[..6] == "f_auto";
      AutoMarkInserted(url, k, BestsellerTransform);
      assert !Optimizable(out);
    }
  }

  /** A segment that starts with "f_auto", inserted after "/upload/", puts "/f_auto" into the URL. */
  lemma AutoMarkInserted(s: string, k: int, t: string)
    requires OccursAt(s, "/upload/", k) && |t| >= 6 && t[..6] == "f_auto"
    ensures Contains(s[..k] + ("/upload/" + t) + s[k + 8..], "/f_auto")
  {
    var mid := "/upload/" + t;
    var out := s[..k] + mid + s[k + 8..];
    forall i | 0 <= i < 7
      ensures out[k + 7 + i] == "/f_auto"[i]
    {
      assert out[k + 7 + i] == mid[7 + i];
    }
    assert out[k + 7..k + 14] == "/f_auto";
    ContainsWitness(out, "/f_auto", k + 7);
  }

  /** No "/" in `s` is followed by "f" or "w": the URL carries no transformation. */
  predicate NoTransformMark(s: string) {
    forall j :: 0 <= j < |s| - 1 && s[j] == '/' ==> s[j + 1] != 'f' && s[j + 1] != 'w'
  }

  lemma NoMarkLacksMarks(s: string)
    ensures NoTransformMark(s) ==> !Contains(s, "/f_auto") && !Contains(s, "/w_")
  {
    if Contains(s, "/f_auto") {
      var i := IndexOf(s, "/f_auto");
      assert s[i..i + 7][0] == s[i] && s[i..i + 7][1] == s[i + 1];
    }
    if Contains(s, "/w_") {
      var j := IndexOf(s, "/w_");
      assert s[j..j + 3][0] == s[j] && s[j..j + 3][1] == s[j + 1];
    }
  }

  /** A word without "/" longer than "upload" that occurs in `s` survives the insertion. */
  lemma WordSurvives(s: string, k: int, mid: string, w: string)
    requires OccursAt(s, "/upload/", k) && Contains(s, w) && '/' !in w && |w| > 6
    ensures Contains(s[..k] + mid + s[k + 8..], w)
  {
    var out := s[..k] + mid + s[k + 8..];
    var m := IndexOf(s, w);
    assert s[k] == s[k..k + 8][0] && s[k + 7] == s[k..k + 8][7];
    forall p | m <= p < m + |w|
      ensures s[p] != '/'
    {
      assert s[p] == s[m..m + |w|][p - m];
    }
    if m + |w| <= k {
      assert out[m..m + |w|] == s[m..m + |w|];
      ContainsWitness(out, w, m);
    } else {
      assert m >= k + 8;
      var n := m - 8 + |mid|;
      assert out[n..n + |w|] == s[m..m + |w|];
      ContainsWitness(out, w, n);
    }
  }

  /** Inserting a segment without marks, after a "/upload/" of a URL without marks, leaves a URL
      without marks. */
  lemma MarksStayAbsent(s: string, k: int, t: string)
    requires OccursAt(s, "/upload/", k) && NoTransformMark(s)
    requires NoTransformMark("/upload/" + t) && t != [] && t[|t| - 1] == '/'
    ensures NoTransformMark(s[..k] + ("/upload/" + t) + s[k + 8..])
  {
    var mid := "/upload/" + t;
    var out := s[..k] + mid + s[k + 8..];
    assert s[k + 7] == s[k..k + 8][7];
    forall j | 0 <= j < |out| - 1 && out[j] == '/'
      ensures out[j + 1] != 'f' && out[j + 1] != 'w'
    {
      if j + 1 < k {
        assert out[j] == s[j] && out[j + 1] == s[j + 1];
      } else if j + 1 == k {
        assert out[j + 1] == mid[0];
      } else if j < k + |mid| - 1 {
        assert out[j] == mid[j - k] && out[j + 1] == mid[j + 1 - k];
      } else if j == k + |mid| - 1 {
        assert out[j + 1] == s[k + 8];
      } else {
        assert out[j] == s[j - |mid| + 8] && out[j + 1] == s[j + 1 - |mid| + 8];
      }
    }
  }

  /** The inserted segment starts with "/upload/" where the old one stood. */
  lemma UploadStays(s: string, k: int, t: string)
    requires OccursAt(s, "/upload/", k)
    ensures OccursAt(s[..k] + ("/upload/" + t) + s[k + 8..], "/upload/", k)
  {
    var mid := "/upload/" + t;
    var out := s[..k] + mid + s[k + 8..];
    forall i | 0 <= i < 8
      ensures out[k + i] == "/upload/"[i]
    {
      assert out[k + i] == mid[i];
    }
    assert out[k..k + 8] == "/upload/";
  }

  /** The product card's segment has "/" only before "upload" and at its ends. */
  lemma CardSegmentUnmarked()
    ensures NoTransformMark("/upload/" + CardTransform)
  {
    var mid := "/upload/" + CardTransform;
    forall j | 0 <= j < |mid| - 1 && mid[j] == '/'
      ensures mid[j + 1] != 'f' && mid[j + 1] != 'w'
    {
      assert j == 0 || j == 7;
    }
  }

  /** The product card's rewrite does not put "/f_auto" or "/w_" into a URL without marks (its
      segment reads ",f_auto" and ",w_500"), so a second rewrite inserts the segment again. */
  lemma CardImageNotIdempotent(url: string)
    requires Contains(url, "cloudinary.com") && Contains(url, "/upload/") && NoTransformMark(url)
    ensures Optimizable(OptimizeCardImage(url))
    ensures |OptimizeCardImage(OptimizeCardImage(url))| == |url| + 2 * |CardTransform|
  {
    var out := OptimizeCardImage(url);
    CardImageStaysOptimizable(url);
    assert |out| == |url| + |CardTransform|;
    assert |OptimizeCardImage(out)| == |out| + |CardTransform|;
  }

  /** The marks-free URL is rewritten, and the result can be rewritten again. */
  lemma CardImageStaysOptimizable(url: string)
    requires Contains(url, "cloudinary.com") && Contains(url, "/upload/") && NoTransformMark(url)
    ensures Optimizable(OptimizeCardImage(url))
  {
    NoMarkLacksMarks(url);
    assert Optimizable(url);
    var k := IndexOf(url, "/upload/");
    var mid := "/upload/" + CardTransform;
    var out := url[..k] + mid + url[k + 8..];
    assert OptimizeCardImage(url) == out;
    CardSegmentUnmarked();
    MarksStayAbsent(url, k, CardTransform);
    NoMarkLacksMarks(out);
    WordSurvives(url, k, mid, "cloudinary.com");
    UploadStays(url, k, CardTransform);
    ContainsWitness(out, "/upload/", k);
    assert Contains(out, "cloudinary.com") && Contains(out, "/upload/");
    assert !Contains(out, "/f_auto") && !Contains(out, "/w_");
  }

  // ---------------------------------------------------------------- discounts

  /** The discount rule of the product card and the dynamic product page: only for a product for
      sale with a non-empty original price above the current one, both read by `parseFloat`
      after removing everything but digits and ".". */
  function AvailableDeal(p: Product): (d: Deal)
    ensures d.Deal? ==> IsAvailable(p) && OptOrElse(p.originalPrice, "") != ""
    ensures d.Deal? <==> IsAvailable(p) && OptOrElse(p.originalPrice, "") != ""
                         && ParsePriceLoose(p.originalPrice).Some? && ParsePriceLoose(p.price).Some?
                         && ParsePriceLoose(p.originalPrice).value > ParsePriceLoose(p.price).value
  {
    if IsAvailable(p) && OptOrElse(p.originalPrice, "") != "" then
      DiscountOf(ParsePriceLoose(p.originalPrice), ParsePriceLoose(p.price))
    else NoDeal
  }

  /** The best-seller card's rule: the same without the availability test. */
  function BestsellerDeal(p: Product): (d: Deal)
    ensures d.Deal? <==> OptOrElse(p.originalPrice, "") != ""
                         && ParsePriceLoose(p.originalPrice).Some? && ParsePriceLoose(p.price).Some?
                         && ParsePriceLoose(p.originalPrice).value > ParsePriceLoose(p.price).value
  {
    if OptOrElse(p.originalPrice, "") != "" then DiscountOf(ParsePriceLoose(p.originalPrice), ParsePriceLoose(p.price))
    else NoDeal
  }

  /** The two cards agree on every product for sale; an unavailable product is a deal only on the
      best-seller card. */
  lemma DealsAgreeWhenAvailable(p: Product)
    ensures IsAvailable(p) ==> AvailableDeal(p) == BestsellerDeal(p)
    ensures !IsAvailable(p) ==> AvailableDeal(p) == NoDeal
  {
  }

  /** With well-formed prices both cards show a deal exactly when the M.R.P. is above the price. */
  lemma DealsOnRupeePrices(p: Product)
    requires p.price.Some? && RupeePrice(p.price.value)
    requires p.originalPrice.Some? && RupeePrice(p.originalPrice.value)
    ensures BestsellerDeal(p).Deal? <==> RupeeValue(p.originalPrice.value) > RupeeValue(p.price.value)
    ensures AvailableDeal(p).Deal? <==> IsAvailable(p) && RupeeValue(p.originalPrice.value) > RupeeValue(p.price.value)
  {
    ParseFloatOnRupeePrice(p.price.value);
    ParseFloatOnRupeePrice(p.originalPrice.value);
  }

  // ---------------------------------------------------------------- the cards

  /** The price area of a product card. */
  datatype CardPrice =
    | CurrentlyUnavailable
    | Plain(amount: Option<real>)
    | Discounted(percent: int, current: real, original: real)

  datatype ProductCardView = ProductCardView(
    image: string, price: CardPrice, dealBadge: bool, bestsellerBadge: bool, overlay: bool, cartButton: string)

  /** The product card: unavailable products say so, show the "Out of Stock" overlay and button
      and never a deal; a product for sale shows its parsed price, or the percentage with the
      parsed price and M.R.P. when it is a deal. */
  function ProductCardOf(p: Product): (v: ProductCardView)
    ensures v.image == OptimizeCardImage(p.image)
    ensures v.overlay <==> !IsAvailable(p)
    ensures v.bestsellerBadge <==> Truthy(p.bestseller)
    ensures v.price == CurrentlyUnavailable <==> !IsAvailable(p)
    ensures v.dealBadge <==> AvailableDeal(p).Deal?
    ensures v.price.Discounted? <==> AvailableDeal(p).Deal?
    ensures v.price.Discounted? ==> v.price.percent == AvailableDeal(p).percent
                                    && Some(v.price.current) == ParsePriceLoose(p.price)
                                    && Some(v.price.original) == ParsePriceLoose(p.originalPrice)
    ensures v.price.Discounted? ==> v.dealBadge && 0 <= v.price.percent <= 100 && v.price.current < v.price.original
    ensures v.price.Plain? ==> v.price.amount == ParsePriceLoose(p.price)
    ensures v.cartButton == (if IsAvailable(p) then "Add to Cart" else "Out of Stock")
  {
    var deal := AvailableDeal(p);
    var price :=
      if !IsAvailable(p) then CurrentlyUnavailable
      else if deal.Deal? then Discounted(deal.percent, ParsePriceLoose(p.price).value, ParsePriceLoose(p.originalPrice).value)
      else Plain(ParsePriceLoose(p.price));
    ProductCardView(OptimizeCardImage(p.image), price, deal.Deal?, Truthy(p.bestseller), !IsAvailable(p),
                    if IsAvailable(p) then "Add to Cart" else "Out of Stock")
  }

  datatype BestsellerCardView = BestsellerCardView(image: string, priceText: string, deal: Deal)

  /** The best-seller card shows the price text as stored. */
  function BestsellerCardOf(p: Product): (v: BestsellerCardView)
    ensures v.image == OptimizeBestsellerImage(p.image)
    ensures v.priceText == Interpolate(p.price) && v.deal == BestsellerDeal(p)
  {
    BestsellerCardView(OptimizeBestsellerImage(p.image), Interpolate(p.price), BestsellerDeal(p))
  }

  /** The card's cart button: for a product for sale, `addToCart` by strict id; otherwise the
      click is swallowed. */
  method ClickCart(storage: CartStorage, p: Product)
    modifies storage
    ensures IsAvailable(p) ==> storage.Cart() == AddedStrict(old(storage.Cart()), p)
                               && CartCount(storage.Cart()) == CartCount(old(storage.Cart())) + 1
    ensures !IsAvailable(p) ==> storage.Cart() == old(storage.Cart())
  {
    if IsAvailable(p) {
      storage.AddStrict(p);
    }
  }
}
