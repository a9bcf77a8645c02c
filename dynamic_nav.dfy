/** The navigation script of the dynamic site: live search suggestions fetched from the server,
    debounced, for queries of at least two characters. */
module DynamicNav {
  import opened Basics
  import opened Catalog

  /** The request for suggestions: at most five products matching the query. */
  function SuggestionRequest(query: string, enc: string -> string): string {
    "/api/search?q=" + enc(query) + "&limit=5"
  }

  /** With an injective encoding the request names its query. */
  lemma SuggestionRequestDeterminesQuery(a: string, b: string, enc: string -> string)
    requires forall x, y :: enc(x) == enc(y) ==> x == y
    requires SuggestionRequest(a, enc) == SuggestionRequest(b, enc)
    ensures a == b
  {
    var n := |"/api/search?q="|;
    var ra := SuggestionRequest(a, enc);
    var rb := SuggestionRequest(b, enc);
    assert |enc(a)| == |enc(b)|;
    assert enc(a) == ra[n..|ra| - |"&limit=5"|];
    assert enc(b) == rb[n..|rb| - |"&limit=5"|];
  }

  /** A query worth asking the server about: at least two characters, no surrounding space. */
  predicate Askable(query: string) {
    |query| >= 2 && !IsSpace(query[0]) && !IsSpace(query[|query| - 1])
  }

  /** A trimmed query of two characters or more is worth asking about. */
  lemma TrimmedAskable(value: string)
    ensures |Trim(value)| >= 2 ==> Askable(Trim(value))
  {
  }

  /** The suggestion box under one search input, with the debounce timer it may have pending. */
  class SuggestionBox {
    var shown: bool
    var items: seq<Product>
    /** The query whose 300 ms timer is running, if any. */
    var pending: Option<string>

    predicate Valid()
      reads this
    {
      (pending.Some? ==> Askable(pending.value)) && (shown ==> items != [])
    }

    constructor ()
      ensures Valid() && !shown && items == [] && pending.None?
    {
      shown := false;
      items := [];
      pending := None;
    }

    /** Typing: the running timer is cleared; a short query empties and hides the box, a longer
        one starts a new timer. */
    method Input(value: string)
      requires Valid()
      modifies this
      ensures Valid()
      ensures |Trim(value)| < 2 ==> pending.None? && items == [] && !shown
      ensures |Trim(value)| >= 2 ==> pending == Some(Trim(value)) && items == old(items) && shown == old(shown)
    {
      var query := Trim(value);
      TrimmedAskable(value);
      pending := None;
      if |query| < 2 {
        items := [];
        shown := false;
      } else {
        pending := Some(query);
      }
    }

    /** The timer fires: the request for the pending query goes out. */
    method TimerFires(enc: string -> string) returns (request: Option<string>)
      requires Valid()
      modifies this
      ensures Valid() && pending.None? && items == old(items) && shown == old(shown)
      ensures request.Some? <==> old(pending).Some?
      ensures request.Some? ==> request.value == SuggestionRequest(old(pending).value, enc) && Askable(old(pending).value)
    {
      if pending.Some? {
        request := Some(SuggestionRequest(pending.value, enc));
      } else {
        request := None;
      }
      pending := None;
    }

    /** The response arrives: a failed request changes nothing; an empty list only hides the box
        and leaves its old content. */
    method Response(result: Option<seq<Product>>)
      requires Valid()
      modifies this
      ensures Valid() && pending == old(pending)
      ensures result.None? ==> shown == old(shown) && items == old(items)
      ensures result.Some? && result.value != [] ==> shown && items == result.value
      ensures result.Some? && result.value == [] ==> !shown && items == old(items)
    {
      if result.Some? {
        if |result.value| > 0 {
          items := result.value;
          shown := true;
        } else {
          shown := false;
        }
      }
    }

    /** A click outside the form hides the box. */
    method ClickOutside()
      requires Valid()
      modifies this
      ensures Valid() && !shown && items == old(items) && pending == old(pending)
    {
      shown := false;
    }
  }
}
