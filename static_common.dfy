/** The script every page of the static site loads: the header's search form, the live
    suggestions under the search box, the WhatsApp links and the cart count. */
module StaticCommon {
  import opened Basics
  import opened Catalog
  import StaticSearch

  /** `handleSearch`: the trimmed text of the search box, if any, opens the listing page with
      it as the `q` parameter; `enc` is `encodeURIComponent`. */
  function SearchTarget(input: string, enc: string -> string): (r: Option<string>)
    ensures r.None? <==> Trim(input) == ""
    ensures r.Some? ==> r.value == "products.html?q=" + enc(Trim(input))
  {
    var query := Trim(input);
    if |query| > 0 then Some("products.html?q=" + enc(query)) else None
  }

  /** With an injective encoding, two inputs open the same page only when they trim to the same
      query. */
  lemma SearchTargetDeterminesQuery(a: string, b: string, enc: string -> string)
    requires forall x, y :: enc(x) == enc(y) ==> x == y
    requires SearchTarget(a, enc).Some? && SearchTarget(a, enc) == SearchTarget(b, enc)
    ensures Trim(a) == Trim(b)
  {
    var n := |"products.html?q="|;
    assert enc(Trim(a)) == SearchTarget(a, enc).value[n..];
    assert enc(Trim(b)) == SearchTarget(b, enc).value[n..];
  }

  /** The suggestion box: hidden for an empty query, "No matches found", or the first five
      matches. */
  datatype Suggestions = Hidden | NoMatches | Matches(products: seq<Product>)

  function SuggestionsFor(products: seq<Product>, input: string): (r: Suggestions)
    ensures r == Hidden <==> Trim(input) == ""
    ensures r.Matches? ==> 1 <= |r.products| <= 5
                           && forall k :: 0 <= k < |r.products| ==>
                                r.products[k] in products && MatchesQuery(r.products[k], ToLower(Trim(input)))
    ensures r == NoMatches <==> Trim(input) != "" && forall p :: p in products ==> !MatchesQuery(p, ToLower(Trim(input)))
  {
    var query := ToLower(Trim(input));
    if |query| < 1 then Hidden
    else
      var matches := Take(SearchResults(products, query), 5);
      if |matches| > 0 then
        assert forall k :: 0 <= k < |matches| ==> matches[k] in SearchResults(products, query);
        assert matches[0] in SearchResults(products, query);
        Matches(matches)
      else
        assert SearchResults(products, query) == [];
        NoMatches
  }

  /** The suggestions are the first five results the search page shows for the same text. */
  lemma SuggestionsPrefixSearch(products: seq<Product>, input: string)
    requires SuggestionsFor(products, input).Matches?
    ensures var cards := StaticSearch.SearchPage(products, Some(input)).cards;
            var shown := SuggestionsFor(products, input).products;
            |shown| <= |cards| && forall k :: 0 <= k < |shown| ==> cards[k] == StaticSearch.SearchCardOf(shown[k])
  {
    var results := SearchResults(products, ToLower(Trim(input)));
    var shown := SuggestionsFor(products, input).products;
    SuggestionsAreFirstResults(products, input);
    SearchPageShowsResults(products, input);
    var cards := StaticSearch.SearchPage(products, Some(input)).cards;
    forall k | 0 <= k < |shown|
      ensures cards[k] == StaticSearch.SearchCardOf(shown[k])
    {
      assert shown[k] == results[k];
    }
  }

  lemma SuggestionsAreFirstResults(products: seq<Product>, input: string)
    requires SuggestionsFor(products, input).Matches?
    ensures SuggestionsFor(products, input).products == Take(SearchResults(products, ToLower(Trim(input))), 5)
  {
  }

  /** For a text with matches, the search page lists a card per result. */
  lemma SearchPageShowsResults(products: seq<Product>, input: string)
    requires SuggestionsFor(products, input).Matches?
    ensures var page := StaticSearch.SearchPage(products, Some(input));
            var results := SearchResults(products, ToLower(Trim(input)));
            page.Results? && |page.cards| == |results|
            && forall k :: 0 <= k < |results| ==> page.cards[k] == StaticSearch.SearchCardOf(results[k])
  {
    var query := ToLower(Trim(input));
    var shown := SuggestionsFor(products, input).products;
    assert input != "";
    assert StaticSearch.SearchQuery(Some(input)) == query;
    assert shown[0] in products && MatchesQuery(shown[0], query);
  }

  // ---------------------------------------------------------------- WhatsApp links

  /** The message of the header's WhatsApp links. */
  const InquiryMessage := "*New Inquiry from Website*\n" + "\nMessage: Hello I Would Like To Inquire About Your Products!"

  /** The links as written: the template ends in a stray double quote, which the link carries
      into the chat after the encoded message. */
  function InquiryLinkAsWritten(phone: string, enc: string -> string): string {
    WaMeLink(phone, enc(InquiryMessage)) + "\""
  }

  /** The links as intended. */
  function InquiryLink(phone: string, enc: string -> string): string {
    WaMeLink(phone, enc(InquiryMessage))
  }

  /** As written the link's text is the encoded message followed by a quote, never the encoded
      message alone. */
  lemma InquiryLinkAsWrittenHasQuote(phone: string, enc: string -> string)
    ensures InquiryLinkAsWritten(phone, enc) == WaMeLink(phone, enc(InquiryMessage) + "\"")
    ensures InquiryLinkAsWritten(phone, enc) != InquiryLink(phone, enc)
  {
    AppendAssoc("https://wa.me/" + phone + "?text=", enc(InquiryMessage), "\"");
    assert |InquiryLinkAsWritten(phone, enc)| == |InquiryLink(phone, enc)| + 1;
  }

  /** As intended the link's text is exactly the encoded message, so a decoder recovers it. */
  lemma InquiryLinkCarriesMessage(phone: string, enc: string -> string, dec: string -> string)
    requires dec(enc(InquiryMessage)) == InquiryMessage
    ensures var text := InquiryLink(phone, enc)[|"https://wa.me/" + phone + "?text="|..];
            dec(text) == InquiryMessage
  {
    var n := |"https://wa.me/" + phone + "?text="|;
    assert InquiryLink(phone, enc)[n..] == enc(InquiryMessage);
  }
}
