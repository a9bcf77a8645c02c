/** The Flask server of the dynamic site: the selection rules of its JSON endpoints, the shop
    settings every template receives, the login rule of the admin pages, and the image choices
    of the admin forms. Documents are products whose id is the document's id, as text. */
module Server {
  import opened Basics
  import opened Catalog
  import DynamicHome

  // ---------------------------------------------------------------- shop settings

  /** The settings every template starts from. */
  const DefaultSettings: map<string, Option<string>> := map[
    "phone" := Some("+91 90020 66361"),
    "email" := Some("info@swastikfurnitures.com"),
    "address" := Some("Eastern Bypass, Siliguri, West Bengal"),
    "map_url" := Some("https://www.google.com/maps/search/?api=1&query=Eastern+Bypass,+Siliguri,+West+Bengal")]

  /** `inject_shop_settings`: the stored document, when it can be read, overrides the defaults
      key by key (a stored null overrides too); otherwise the defaults stand. */
  function ShopSettings(stored: Option<map<string, Option<string>>>): (r: map<string, Option<string>>)
    ensures stored.None? ==> r == DefaultSettings
    ensures stored.Some? ==> forall k :: (k in r <==> k in DefaultSettings || k in stored.value)
    ensures stored.Some? ==> forall k :: k in stored.value ==> k in r && r[k] == stored.value[k]
    ensures stored.Some? ==> forall k :: k in DefaultSettings && k !in stored.value ==> k in r && r[k] == DefaultSettings[k]
  {
    if stored.None? then DefaultSettings else DefaultSettings + stored.value
  }

  /** The four default keys are always present. */
  lemma SettingsKeepDefaultKeys(stored: Option<map<string, Option<string>>>)
    ensures forall k :: k in DefaultSettings ==> k in ShopSettings(stored)
  {
  }

  // ---------------------------------------------------------------- admin access

  datatype Access = RedirectToLogin | Proceed

  /** `login_required`: the handler runs only when the session holds "logged_in". */
  function LoginRequired(session: set<string>): (a: Access)
    ensures a == Proceed <==> "logged_in" in session
  {
    if "logged_in" !in session then RedirectToLogin else Proceed
  }

  /** The two check boxes of the product form: a flag is true exactly when its key was sent. */
  function FormFlags(form: set<string>): (bool, bool) {
    ("bestseller" in form, "available" in form)
  }

  /** The two flags of a product saved from the admin form: each is stored as a boolean, true
      exactly when its checkbox was sent. */
  function FromForm(p: Product, form: set<string>): Product {
    p.(bestseller := Some(FormFlags(form).0), available := Some(FormFlags(form).1))
  }

  /** A product saved from the form reads back as for sale exactly when "available" was ticked,
      and as a best seller exactly when "bestseller" was. */
  lemma FormAvailability(p: Product, form: set<string>)
    ensures IsAvailable(FromForm(p, form)) <==> "available" in form
    ensures Truthy(FromForm(p, form).bestseller) <==> "bestseller" in form
  {
  }

  // ---------------------------------------------------------------- Cloudinary public ids

  /** `s.split('/')[-1]`: the text after the last "/", or all of it. */
  function LastSegment(s: string): (r: string)
    ensures '/' !in r && |r| <= |s| && r == s[|s| - |r|..]
    ensures |r| < |s| ==> s[|s| - |r| - 1] == '/'
  {
    if s == [] || s[|s| - 1] == '/' then [] else LastSegment(s[..|s| - 1]) + [s[|s| - 1]]
  }

  /** `s.split('.')[0]`: the text before the first ".", or all of it. */
  function BeforeDot(s: string): (r: string)
    ensures '.' !in r && |r| <= |s| && r == s[..|r|]
    ensures |r| < |s| ==> s[|r|] == '.'
  {
    if s == [] || s[0] == '.' then [] else [s[0]] + BeforeDot(s[1..])
  }

  /** `get_public_id_from_url`. */
  function PublicIdFromUrl(url: string): (r: Option<string>)
    ensures r.None? <==> !Contains(url, "cloudinary.com")
    ensures r.Some? ==> '/' !in r.value && '.' !in r.value
  {
    if !Contains(url, "cloudinary.com") then None else Some(BeforeDot(LastSegment(url)))
  }

  /** An upload URL `<folder>/<id>.<extension>` gives back its id. */
  lemma {:induction false} PublicIdRoundTrip(folder: string, id: string, ext: string)
    requires Contains(folder, "cloudinary.com")
    requires '/' !in id && '.' !in id && '/' !in ext
    ensures PublicIdFromUrl(folder + "/" + id + "." + ext) == Some(id)
  {
    var url := folder + "/" + id + "." + ext;
    var file := id + "." + ext;
    assert url == (folder + "/") + file;
    assert url[..|folder|] == folder;
    var k := IndexOf(folder, "cloudinary.com");
    assert url[k..k + 14] == folder[k..k + 14];
    ContainsWitness(url, "cloudinary.com", k);
    SegmentAfterSlash(folder, file);
    assert file[..|id|] == id && file[|id|] == '.';
    DotPrefix(file, |id|);
  }

  lemma {:induction false} SegmentAfterSlash(before: string, file: string)
    requires '/' !in file
    ensures LastSegment(before + "/" + file) == file
  {
    var s := before + "/" + file;
    if file == [] {
      assert s[|s| - 1] == '/';
    } else {
      assert s[..|s| - 1] == before + "/" + file[..|file| - 1];
      SegmentAfterSlash(before, file[..|file| - 1]);
    }
  }

  lemma {:induction false} DotPrefix(s: string, n: nat)
    requires n < |s| && s[n] == '.' && '.' !in s[..n]
    ensures BeforeDot(s) == s[..n]
  {
    if n > 0 {
      assert s[0] in s[..n];
      assert s[1..][..n - 1] == s[1..n];
      assert forall c :: c in s[1..n] ==> c in s[..n];
      DotPrefix(s[1..], n - 1);
    }
  }

  /** The image to destroy when a product's image goes away: only a present URL with a
      non-empty public id. */
  function DestroyTarget(imageUrl: Option<string>): (r: Option<string>)
    ensures r.Some? ==> imageUrl.Some? && PublicIdFromUrl(imageUrl.value) == Some(r.value) && r.value != ""
    ensures imageUrl.Some? && PublicIdFromUrl(imageUrl.value).Some? && PublicIdFromUrl(imageUrl.value).value != "" ==> r.Some?
  {
    if imageUrl.None? || imageUrl.value == "" then None
    else
      var id := PublicIdFromUrl(imageUrl.value);
      if id.Some? && id.value != "" then id else None
  }

  // ---------------------------------------------------------------- admin image choice

  /** The file field of a form: absent, or present with a file name ("" when no file was
      chosen; a browser sends the field either way). */
  type FileField = Option<string>

  /** `admin_add_product`: a chosen file is uploaded and its URL used; otherwise, or when the
      upload gives no URL, the typed URL. */
  function AddImage(file: FileField, formUrl: Option<string>, uploaded: string): (r: Option<string>)
    ensures file.Some? && file.value != "" && uploaded != "" ==> r == Some(uploaded)
    ensures !(file.Some? && file.value != "") ==> r == formUrl
  {
    var imageUrl := if file.Some? && file.value != "" then uploaded else "";
    if imageUrl == "" then formUrl else Some(imageUrl)
  }

  /** The outcome of an edit: the image to store and the old image destroyed, if any. */
  datatype ImageEdit = ImageEdit(image: string, destroyed: Option<string>)

  /** `admin_edit_product` as written: the `elif` belongs to the test for the file field, so once
      the field is sent (always, from the browser form) a typed URL is never read. */
  function EditImageAsWritten(current: string, file: FileField, formUrl: Option<string>, uploaded: string): ImageEdit {
    if file.Some? then
      if file.value != "" then ImageEdit(uploaded, DestroyTarget(if current == "" then None else Some(current)))
      else ImageEdit(current, None)
    else if OptOrElse(formUrl, "") != "" && formUrl.value != current then ImageEdit(formUrl.value, None)
    else ImageEdit(current, None)
  }

  /** The edit as intended: a chosen file wins (and the old image is destroyed first); else a
      typed URL that differs from the current one; else the current image. */
  function EditImage(current: string, file: FileField, formUrl: Option<string>, uploaded: string): (r: ImageEdit)
    ensures file.Some? && file.value != "" ==> r.image == uploaded
    ensures file.Some? && file.value != "" ==> r.destroyed == DestroyTarget(if current == "" then None else Some(current))
    ensures !(file.Some? && file.value != "") && OptOrElse(formUrl, "") != "" ==> r.image == formUrl.value && r.destroyed.None?
    ensures !(file.Some? && file.value != "") && OptOrElse(formUrl, "") == "" ==> r == ImageEdit(current, None)
    ensures r.destroyed.Some? ==> file.Some? && file.value != "" && current != ""
  {
    if file.Some? && file.value != "" then ImageEdit(uploaded, DestroyTarget(if current == "" then None else Some(current)))
    else if OptOrElse(formUrl, "") != "" && formUrl.value != current then ImageEdit(formUrl.value, None)
    else ImageEdit(current, None)
  }

  /** As written, an empty file field hides a new typed URL; as intended the URL is stored. */
  lemma TypedUrlIgnoredAsWritten(current: string, url: string, uploaded: string)
    requires url != "" && url != current
    ensures EditImageAsWritten(current, Some(""), Some(url), uploaded).image == current
    ensures EditImage(current, Some(""), Some(url), uploaded).image == url
  {
  }

  /** The two agree whenever a file is chosen or no file field is sent. */
  lemma EditAgreesOutsideEmptyField(current: string, file: FileField, formUrl: Option<string>, uploaded: string)
    requires file != Some("")
    ensures EditImageAsWritten(current, file, formUrl, uploaded) == EditImage(current, file, formUrl, uploaded)
  {
  }

  // ---------------------------------------------------------------- JSON endpoints

  predicate NameMatches(p: Product, q: string) {
    Contains(ToLower(p.name), ToLower(q))
  }

  /** `/api/search`: the products whose lower-cased name contains the lower-cased query (the
      category is not searched), cut to `limit` when it is a positive number. */
  function SearchAnswer(docs: seq<Product>, q: string, limit: Option<int>): seq<Product> {
    var matches := Filter(docs, (p: Product) => NameMatches(p, q));
    if limit.Some? && limit.value > 0 then Take(matches, limit.value) else matches
  }

  /** The answer holds only matching documents; with a positive limit it is the first `limit`
      matches in store order, and without one every match is in it. */
  lemma SearchAnswerProperties(docs: seq<Product>, q: string, limit: Option<int>)
    ensures forall p :: p in SearchAnswer(docs, q, limit) ==> p in docs && NameMatches(p, q)
    ensures limit.Some? && limit.value > 0 ==> |SearchAnswer(docs, q, limit)| <= limit.value
    ensures limit.Some? && limit.value > 0 ==>
              FirstKept(docs, (p: Product) => NameMatches(p, q), limit.value, SearchAnswer(docs, q, limit))
    ensures !(limit.Some? && limit.value > 0) ==>
              forall p :: p in docs && NameMatches(p, q) ==> p in SearchAnswer(docs, q, limit)
    ensures !(limit.Some? && limit.value > 0) ==>
              FirstKept(docs, (p: Product) => NameMatches(p, q), |docs|, SearchAnswer(docs, q, limit))
  {
    var matches := Filter(docs, (p: Product) => NameMatches(p, q));
    if limit.Some? && limit.value > 0 {
      TakeFilterFirstKept(docs, (p: Product) => NameMatches(p, q), limit.value);
    } else {
      assert docs[..|docs|] == docs;
    }
    forall p | p in SearchAnswer(docs, q, limit)
      ensures p in matches
    {
      if limit.Some? && limit.value > 0 {
        var t := Take(matches, limit.value);
        var k :| 0 <= k < |t| && t[k] == p;
        assert matches[k] == p;
      }
    }
  }

  /** An empty query matches every document. */
  lemma EmptySearchMatchesAll(docs: seq<Product>)
    ensures SearchAnswer(docs, "", None) == docs
  {
    forall k | 0 <= k < |docs|
      ensures NameMatches(docs[k], "")
    {
      ContainsWitness(ToLower(docs[k].name), "", 0);
    }
    FilterAll(docs, (p: Product) => NameMatches(p, ""));
  }

  /** The handler's loop. */
  method SearchProducts(docs: seq<Product>, q: string, limit: Option<int>) returns (list: seq<Product>)
    ensures list == SearchAnswer(docs, q, limit)
  {
    var query := ToLower(q);
    list := [];
    var i := 0;
    while i < |docs|
      invariant 0 <= i <= |docs|
      invariant list == Filter(docs[..i], (p: Product) => NameMatches(p, q))
    {
      FilterPrefixStep(docs, i, (p: Product) => NameMatches(p, q));
      if Contains(ToLower(docs[i].name), query) {
        list := list + [docs[i]];
      }
      i := i + 1;
    }
    assert docs[..i] == docs;
    if limit.Some? && limit.value > 0 {
      list := Take(list, limit.value);
    }
  }

  /** The query of `/api/bestsellers`: the first fifty documents whose `bestseller` is true, in
      store order. */
  function BestsellerQuery(docs: seq<Product>): (r: seq<Product>)
    ensures |r| <= 50
    ensures FirstKept(docs, (p: Product) => Truthy(p.bestseller), 50, r)
    ensures forall p :: p in r ==> p in docs && Truthy(p.bestseller)
  {
    var all := Filter(docs, (p: Product) => Truthy(p.bestseller));
    TakeFilterFirstKept(docs, (p: Product) => Truthy(p.bestseller), 50);
    var r := Take(all, 50);
    assert forall p :: p in r ==> p in all;
    r
  }

  /** `/api/bestsellers`: of those fifty, every product not marked unavailable, and only those. */
  function BestsellerAnswer(docs: seq<Product>): (r: seq<Product>)
    ensures |r| <= 50
    ensures r == Filter(BestsellerQuery(docs), IsAvailable)
    ensures forall p :: p in r <==> p in BestsellerQuery(docs) && IsAvailable(p)
    ensures forall p :: p in r ==> p in docs && Truthy(p.bestseller) && IsAvailable(p)
  {
    Filter(BestsellerQuery(docs), IsAvailable)
  }

  /** With at most fifty best sellers in the store, every best seller for sale is answered. */
  lemma BestsellerAnswerComplete(docs: seq<Product>, p: Product)
    requires |Filter(docs, (x: Product) => Truthy(x.bestseller))| <= 50
    requires p in docs && Truthy(p.bestseller) && IsAvailable(p)
    ensures p in BestsellerAnswer(docs)
  {
  }

  /** The handler's loop over the query. */
  method GetBestsellers(docs: seq<Product>) returns (list: seq<Product>)
    ensures list == BestsellerAnswer(docs)
  {
    var queried := BestsellerQuery(docs);
    list := [];
    var i := 0;
    while i < |queried|
      invariant 0 <= i <= |queried|
      invariant list == Filter(queried[..i], IsAvailable)
    {
      FilterPrefixStep(queried, i, IsAvailable);
      if queried[i].available != Some(false) {
        list := list + [queried[i]];
      }
      i := i + 1;
    }
    assert queried[..i] == queried;
  }

  /** `/api/products`: the best sellers when `type` is "bestsellers", whatever the category; else
      the products of a given category; else all. Unavailable products are kept. */
  function ProductsAnswer(docs: seq<Product>, category: Option<string>, productType: Option<string>): (r: seq<Product>)
    ensures productType == Some("bestsellers") ==> r == Filter(docs, (p: Product) => Truthy(p.bestseller))
    ensures productType == Some("bestsellers") ==> forall p :: p in r <==> p in docs && Truthy(p.bestseller)
    ensures productType != Some("bestsellers") && OptOrElse(category, "") != "" ==>
              r == Filter(docs, (p: Product) => p.category == category.value)
    ensures productType != Some("bestsellers") && OptOrElse(category, "") != "" ==>
              forall p :: p in r <==> p in docs && p.category == category.value
    ensures productType != Some("bestsellers") && OptOrElse(category, "") == "" ==> r == docs
  {
    if productType == Some("bestsellers") then Filter(docs, (p: Product) => Truthy(p.bestseller))
    else if OptOrElse(category, "") != "" then Filter(docs, (p: Product) => p.category == category.value)
    else docs
  }

  /** The home strip built from `/api/bestsellers` only shows best sellers that are for sale. */
  lemma StripShowsAvailableBestsellers(docs: seq<Product>)
    requires forall k :: 0 <= k < |docs| ==> docs[k].id.Text?
    ensures var strip := DynamicHome.StripOf(Some(BestsellerAnswer(docs)));
            strip.Cards? ==> forall k :: 0 <= k < |strip.products| ==>
                               strip.products[k] in docs && Truthy(strip.products[k].bestseller) && IsAvailable(strip.products[k])
  {
    var answer := BestsellerAnswer(docs);
    DynamicHome.FirstPerCategoryProperties(answer);
    if answer != [] {
      var unique := DynamicHome.FirstPerCategory(answer);
      var shown := if unique != [] then unique else Take(answer, 5);
      assert forall k :: 0 <= k < |shown| ==> shown[k] in answer;
      assert forall k :: 0 <= k < |shown| ==> shown[k] in docs && shown[k].id.Text?;
      TextIdsKept(shown);
    }
  }
}
