/** Price text and the deal badge. Prices are stored as display strings such as "₹18,500";
    every page turns them into numbers with its own small parser before comparing the
    current price with the original (M.R.P.) price. Numbers are exact non-negative reals;
    a JavaScript NaN is `None`. */
module Prices {
  import opened Basics

  /** A parsed price: the parsers accept no sign, so a price is never negative. */
  type Amount = r: real | r >= 0.0

  const Rupee: char := '\U{20B9}'

  predicate IsPriceChar(c: char) {
    IsDigit(c) || c == '.'
  }

  predicate PriceChars(s: string) {
    forall i :: 0 <= i < |s| ==> IsPriceChar(s[i])
  }

  /** `s.replace(/[^0-9.]/g, '')`: keeps the digits and dots, in order. */
  function KeepDigitsAndDot(s: string): (r: string)
    ensures PriceChars(r) && |r| <= |s|
  {
    if s == [] then []
    else (if IsPriceChar(s[0]) then [s[0]] else []) + KeepDigitsAndDot(s[1..])
  }

  /** `s.replace(/[...]/g, '')` with a character class: deletes every character of `drop`. */
  function RemoveChars(s: string, drop: set<char>): (r: string)
    ensures forall i :: 0 <= i < |r| ==> r[i] !in drop
    ensures |r| <= |s|
  {
    if s == [] then []
    else (if s[0] in drop then [] else [s[0]]) + RemoveChars(s[1..], drop)
  }

  /** The digits of `s`, in order. */
  function DigitsIn(s: string): (r: string)
    ensures AllDigits(r) && |r| <= |s|
  {
    if s == [] then []
    else (if IsDigit(s[0]) then [s[0]] else []) + DigitsIn(s[1..])
  }

  /** The three filters work character by character: a text is filtered piece by piece, and a
      single character is kept exactly when it belongs to the kept class (CharFiltersSingle).
      Together these fix every result: each kept character stays, in its order. */
  lemma {:induction false} KeepDigitsAndDotAppend(a: string, b: string)
    ensures KeepDigitsAndDot(a + b) == KeepDigitsAndDot(a) + KeepDigitsAndDot(b)
  {
    if a == [] {
      assert a + b == b;
    } else {
      var c := a[0];
      var h := if IsPriceChar(c) then [c] else [];
      assert (a + b)[0] == c && (a + b)[1..] == a[1..] + b;
      KeepDigitsAndDotAppend(a[1..], b);
      assert KeepDigitsAndDot(a + b) == h + KeepDigitsAndDot(a[1..] + b);
      assert KeepDigitsAndDot(a) == h + KeepDigitsAndDot(a[1..]);
      AppendAssoc(h, KeepDigitsAndDot(a[1..]), KeepDigitsAndDot(b));
    }
  }

  lemma {:induction false} RemoveCharsAppend(a: string, b: string, drop: set<char>)
    ensures RemoveChars(a + b, drop) == RemoveChars(a, drop) + RemoveChars(b, drop)
  {
    if a == [] {
      assert a + b == b;
    } else {
      var c := a[0];
      var h := if c in drop then [] else [c];
      assert (a + b)[0] == c && (a + b)[1..] == a[1..] + b;
      RemoveCharsAppend(a[1..], b, drop);
      assert RemoveChars(a + b, drop) == h + RemoveChars(a[1..] + b, drop);
      assert RemoveChars(a, drop) == h + RemoveChars(a[1..], drop);
      AppendAssoc(h, RemoveChars(a[1..], drop), RemoveChars(b, drop));
    }
  }

  lemma {:induction false} DigitsInAppend(a: string, b: string)
    ensures DigitsIn(a + b) == DigitsIn(a) + DigitsIn(b)
  {
    if a == [] {
      assert a + b == b;
    } else {
      var c := a[0];
      var h := if IsDigit(c) then [c] else [];
      assert (a + b)[0] == c && (a + b)[1..] == a[1..] + b;
      DigitsInAppend(a[1..], b);
      assert DigitsIn(a + b) == h + DigitsIn(a[1..] + b);
      assert DigitsIn(a) == h + DigitsIn(a[1..]);
      AppendAssoc(h, DigitsIn(a[1..]), DigitsIn(b));
    }
  }

  lemma CharFiltersSingle(c: char, drop: set<char>)
    ensures KeepDigitsAndDot([c]) == (if IsPriceChar(c) then [c] else [])
    ensures RemoveChars([c], drop) == (if c in drop then [] else [c])
    ensures DigitsIn([c]) == (if IsDigit(c) then [c] else [])
  {
    assert [c][1..] == [];
  }

  /** Every character of the kept class survives, and no other. */
  lemma {:induction false} CharFiltersMembers(s: string, drop: set<char>)
    ensures forall c :: c in KeepDigitsAndDot(s) <==> c in s && IsPriceChar(c)
    ensures forall c :: c in RemoveChars(s, drop) <==> c in s && c !in drop
    ensures forall c :: c in DigitsIn(s) <==> c in s && IsDigit(c)
  {
    if s != [] {
      CharFiltersMembers(s[1..], drop);
      assert s == [s[0]] + s[1..];
    }
  }

  /** Without a dot, keeping digits and dots keeps the digits. */
  lemma {:induction false} KeepDigitsAndDotNoDot(s: string)
    requires '.' !in s
    ensures KeepDigitsAndDot(s) == DigitsIn(s)
  {
    if s != [] {
      assert s[0] in s;
      assert forall c :: c in s[1..] ==> c in s;
      KeepDigitsAndDotNoDot(s[1..]);
    }
  }

  /** Deleting the characters of `drop` keeps exactly the digits when those are the others. */
  lemma {:induction false} RemoveCharsKeepsDigits(s: string, drop: set<char>)
    requires forall k :: 0 <= k < |s| ==> (s[k] !in drop <==> IsDigit(s[k]))
    ensures RemoveChars(s, drop) == DigitsIn(s)
  {
    if s != [] {
      RemoveCharsKeepsDigits(s[1..], drop);
    }
  }

  /** The longest run of digits at the start of `s`. */
  function DigitPrefix(s: string): (r: string)
    ensures AllDigits(r) && |r| <= |s| && r == s[..|r|]
    ensures |r| == |s| || !IsDigit(s[|r|])
  {
    if s != [] && IsDigit(s[0]) then [s[0]] + DigitPrefix(s[1..]) else []
  }

  function Pow10(n: nat): (r: nat)
    ensures r >= 1
  {
    if n == 0 then 1 else 10 * Pow10(n - 1)
  }

  /** The value of the decimal `ip.fp`. */
  function DecimalValue(ip: string, fp: string): Amount
    requires AllDigits(ip) && AllDigits(fp)
  {
    DigitsValue(ip) as real + DigitsValue(fp) as real / Pow10(|fp|) as real
  }

  /** JavaScript `parseFloat` on a string of digits and dots (the only strings the storefront
      passes to it): the longest prefix of the form `digits[.digits]` with at least one digit. */
  function ParseFloat(s: string): (r: Option<Amount>)
    requires PriceChars(s)
    ensures r.None? <==> s == [] || (s[0] == '.' && (|s| == 1 || !IsDigit(s[1])))
    ensures AllDigits(s) && s != [] ==> r == Some(DigitsValue(s) as real)
  {
    var ip := DigitPrefix(s);
    var rest := s[|ip|..];
    var fp := if rest != [] && rest[0] == '.' then DigitPrefix(rest[1..]) else [];
    assert AllDigits(s) ==> ip == s;
    if ip == [] && fp == [] then None else Some(DecimalValue(ip, fp))
  }

  /** The value of a whole `digits[.digits]` literal with at least one digit, else NaN. */
  function DecimalLiteral(t: string): (r: Option<Amount>)
    ensures r.Some? ==> PriceChars(t)
    ensures AllDigits(t) && t != [] ==> r == Some(DigitsValue(t) as real)
  {
    var ip := DigitPrefix(t);
    if |ip| == |t| then
      if ip == [] then None else assert ip == t; Some(DigitsValue(ip) as real)
    else if t[|ip|] != '.' then None
    else
      var fp := DigitPrefix(t[|ip| + 1..]);
      if |ip| + 1 + |fp| == |t| && (ip != [] || fp != []) then
        DecimalShape(t, ip, fp);
        Some(DecimalValue(ip, fp))
      else None
  }

  lemma DecimalShape(t: string, ip: string, fp: string)
    requires AllDigits(ip) && AllDigits(fp) && |ip| + 1 + |fp| == |t|
    requires ip == t[..|ip|] && t[|ip|] == '.' && fp == t[|ip| + 1..][..|fp|]
    ensures PriceChars(t)
  {
    forall i | 0 <= i < |t|
      ensures IsPriceChar(t[i])
    {
      if i < |ip| {
        assert t[i] == ip[i];
      } else if i > |ip| {
        assert t[i] == fp[i - |ip| - 1];
      }
    }
  }

  /** JavaScript `Number(s)` on an unsigned decimal: surrounding white space is ignored, the
      empty string is 0, and anything but a whole `digits[.digits]` literal is NaN. */
  function StringToNumber(s: string): (r: Option<Amount>)
    ensures Trim(s) == [] ==> r == Some(0.0)
    ensures r.Some? ==> PriceChars(Trim(s))
    ensures AllDigits(Trim(s)) ==> r == Some(DigitsValue(Trim(s)) as real)
  {
    var t := Trim(s);
    if t == [] then Some(0.0) else DecimalLiteral(t)
  }

  // ---------------------------------------------------------------- the pages' parsers

  /** `parseFloat(s.replace(/[^0-9.]/g, ''))`. */
  function ParseFloatFiltered(s: string): Option<Amount> {
    ParseFloat(KeepDigitsAndDot(s))
  }

  /** `if (!p) return 0; return parseFloat(p.toString().replace(/[^0-9.]/g, ''))`:
      the parser of the dynamic cart, product page and cards. NaN survives. */
  function ParsePriceLoose(p: Option<string>): Option<Amount> {
    if p.None? || p.value == "" then Some(0.0) else ParseFloatFiltered(p.value)
  }

  /** The same parser with NaN replaced by 0: the static cart's `getPrice` and the
      `parsePrice` helper of the static pages' common script. */
  function ParsePriceOrZero(p: Option<string>): Amount {
    ParsePriceLoose(p).GetOr(0.0)
  }

  /** `if (typeof p !== 'string') return 0; return parseFloat(p.replace(/[^0-9.]/g, ''))`:
      the category page's parser, which turns the empty string into NaN. */
  function ParsePriceTyped(p: Option<string>): Option<Amount> {
    if p.None? then Some(0.0) else ParseFloatFiltered(p.value)
  }

  /** `if (!p) return 0; return Number(p.replace(/[₹,]/g, ""))`: the static listing's parser. */
  function ParsePriceRupee(p: Option<string>): Option<Amount> {
    if p.None? || p.value == "" then Some(0.0)
    else StringToNumber(RemoveChars(p.value, {Rupee, ','}))
  }

  /** The characters that the UTF-8 bytes of "₹" become when they are read as Windows-1252. */
  const MisencodedRupee: set<char> := {'\U{00E2}', '\U{201A}', '\U{00B9}'}

  /** The static product page's parser, whose character class holds the mis-encoded rupee
      sign instead of "₹": the rupee sign stays in the string and `Number` gives NaN. */
  function ParsePriceMisencoded(p: Option<string>): Option<Amount> {
    if p.None? || p.value == "" then Some(0.0)
    else StringToNumber(RemoveChars(p.value, MisencodedRupee + {','}))
  }

  // ---------------------------------------------------------------- well-formed price text

  /** A price as the catalogue writes it: "₹" and then digits with optional grouping commas. */
  predicate RupeePrice(s: string) {
    |s| >= 2 && s[0] == Rupee && IsDigit(s[1])
    && forall i :: 1 <= i < |s| ==> IsDigit(s[i]) || s[i] == ','
  }

  /** The number a well-formed price stands for: its digits read in order. */
  function RupeeValue(s: string): nat
    requires RupeePrice(s)
  {
    DigitsValue(DigitsIn(s))
  }

  lemma RupeeDigits(s: string)
    requires RupeePrice(s)
    ensures DigitsIn(s) == DigitsIn(s[1..]) && DigitsIn(s) != []
    ensures '.' !in s
  {
    assert s == [s[0]] + s[1..];
    var t := s[1..];
    assert t == [t[0]] + t[1..];
    assert forall i :: 0 <= i < |s| ==> s[i] != '.';
  }

  /** The parsers built on `parseFloat` read a well-formed price as its value. */
  lemma ParseFloatOnRupeePrice(s: string)
    requires RupeePrice(s)
    ensures ParsePriceLoose(Some(s)) == Some(RupeeValue(s) as real)
    ensures ParsePriceTyped(Some(s)) == Some(RupeeValue(s) as real)
    ensures ParsePriceOrZero(Some(s)) == RupeeValue(s) as real
  {
    RupeeDigits(s);
    KeepDigitsAndDotNoDot(s);
  }

  /** The static listing's `Number` parser reads a well-formed price as its value. */
  lemma NumberOnRupeePrice(s: string)
    requires RupeePrice(s)
    ensures ParsePriceRupee(Some(s)) == Some(RupeeValue(s) as real)
  {
    RupeeDigits(s);
    RemoveCharsKeepsDigits(s, {Rupee, ','});
    TrimNoSpace(DigitsIn(s));
  }

  /** The static product page's parser reads every well-formed price as NaN. */
  lemma MisencodedOnRupeePrice(s: string)
    requires RupeePrice(s)
    ensures ParsePriceMisencoded(Some(s)) == None
  {
    var m := RemoveChars(s, MisencodedRupee + {','});
    MisencodedKeepsRupee(s);
    RupeeLedIsNaN(m);
  }

  /** Removing the mis-encoded characters and commas leaves "₹" in front and a digit at the end. */
  lemma MisencodedKeepsRupee(s: string)
    requires RupeePrice(s)
    ensures var m := RemoveChars(s, MisencodedRupee + {','});
            m != [] && m[0] == Rupee && IsDigit(m[|m| - 1])
  {
    var drop := MisencodedRupee + {','};
    RupeeDigits(s);
    assert Rupee !in drop;
    assert RemoveChars(s, drop) == [Rupee] + RemoveChars(s[1..], drop);
    RemoveCharsKeepsDigits(s[1..], drop);
  }

  /** `Number` of a text that starts with "₹" and does not end in white space is NaN. */
  lemma RupeeLedIsNaN(m: string)
    requires m != [] && m[0] == Rupee && !IsSpace(m[|m| - 1])
    ensures StringToNumber(m) == None
  {
    TrimNoSpace(m);
    assert DigitPrefix(m) == [];
  }

  // ---------------------------------------------------------------- the deal badge

  /** Whether a product is shown as a deal, and the percentage on its badge. */
  datatype Deal = NoDeal | Deal(percent: int)

  /** `Math.round`: the nearest integer, halves rounded up. */
  function JsRound(x: real): (r: int)
    ensures x - 0.5 < r as real <= x + 0.5
  {
    (x + 0.5).Floor
  }

  /** `Math.round(((original - current) / original) * 100)`. */
  function PercentOff(original: Amount, current: Amount): (r: int)
    requires current < original
    ensures 0 <= r <= 100
  {
    var x := (original - current) / original * 100.0;
    assert 0.0 < x <= 100.0 by {
      assert (original - current) / original <= 1.0;
    }
    JsRound(x)
  }

  /** `if (originalPrice > currentPrice)`: a comparison with NaN is false. */
  function DiscountOf(original: Option<Amount>, current: Option<Amount>): (d: Deal)
    ensures d.Deal? <==> original.Some? && current.Some? && original.value > current.value
    ensures d.Deal? ==> 0 <= d.percent <= 100
  {
    if original.Some? && current.Some? && original.value > current.value then
      Deal(PercentOff(original.value, current.value))
    else NoDeal
  }

  /** Comparing a ratio with `k` is comparing its numerator with `k` times the denominator. */
  lemma RatioBelow(a: real, o: real, k: real)
    requires o > 0.0
    ensures a / o < k <==> a < k * o
    ensures a / o <= k <==> a <= k * o
  {
    assert (a / o) * o == a;
  }

  lemma RoundToZero(x: real)
    requires x >= 0.0
    ensures JsRound(x) == 0 <==> x < 0.5
  {
  }

  lemma RoundToHundred(x: real)
    requires x <= 100.0
    ensures JsRound(x) == 100 <==> x >= 99.5
  {
  }

  /** The badge reads "-0%" exactly when the saving is under half a percent. */
  lemma PercentOffZero(original: Amount, current: Amount)
    requires current < original
    ensures PercentOff(original, current) == 0 <==> 200.0 * (original - current) < original
  {
    var q := (original - current) / original;
    RatioBelow(original - current, original, 0.005);
    RatioBelow(original - current, original, 0.0);
    RoundToZero(q * 100.0);
  }

  /** The badge reads "-100%" exactly when the price is at most half a percent of the M.R.P. */
  lemma PercentOffHundred(original: Amount, current: Amount)
    requires current < original
    ensures PercentOff(original, current) == 100 <==> 200.0 * current <= original
  {
    var q := (original - current) / original;
    RatioBelow(original - current, original, 0.995);
    RatioBelow(original - current, original, 1.0);
    RoundToHundred(q * 100.0);
  }

  /** A lower price never shows a smaller percentage. */
  lemma PercentOffMonotone(original: Amount, cheaper: Amount, dearer: Amount)
    requires cheaper <= dearer < original
    ensures PercentOff(original, dearer) <= PercentOff(original, cheaper)
  {
    var x1 := (original - cheaper) / original * 100.0;
    var x2 := (original - dearer) / original * 100.0;
    assert x1 * original == (original - cheaper) * 100.0;
    assert x2 * original == (original - dearer) * 100.0;
    assert x2 <= x1;
  }

  /** The dining table of the catalogue: M.R.P. "₹22,000", price "₹18,500", 16% off. */
  lemma TableDeal()
    ensures DiscountOf(ParsePriceRupee(Some("\U{20B9}22,000")), ParsePriceRupee(Some("\U{20B9}18,500"))) == Deal(16)
  {
    TablePrices();
    NumberOnRupeePrice("\U{20B9}22,000");
    NumberOnRupeePrice("\U{20B9}18,500");
    assert PercentOff(22000.0, 18500.0) == 16;
  }

  lemma TablePrices()
    ensures RupeePrice("\U{20B9}22,000") && RupeeValue("\U{20B9}22,000") == 22000
    ensures RupeePrice("\U{20B9}18,500") && RupeeValue("\U{20B9}18,500") == 18500
  {
    TableShapes();
    MrpDigits();
    DealDigits();
    MrpValue();
    DealValue();
  }

  lemma MrpValue()
    ensures AllDigits("22000") && DigitsValue("22000") == 22000
  {
    assert "22000"[..4] == "2200" && "2200"[..3] == "220" && "220"[..2] == "22" && "22"[..1] == "2";
    assert "2"[..0] == "";
  }

  lemma DealValue()
    ensures AllDigits("18500") && DigitsValue("18500") == 18500
  {
    assert "18500"[..4] == "1850" && "1850"[..3] == "185" && "185"[..2] == "18" && "18"[..1] == "1";
    assert "1"[..0] == "";
  }

  lemma MrpDigits()
    ensures DigitsIn("\U{20B9}22,000") == "22000"
  {
    assert "\U{20B9}22,000"[1..] == "22,000" && "22,000"[1..] == "2,000" && "2,000"[1..] == ",000";
    assert ",000"[1..] == "000" && "000"[1..] == "00" && "00"[1..] == "0" && "0"[1..] == "";
    assert DigitsIn("000") == "000";
  }

  lemma DealDigits()
    ensures DigitsIn("\U{20B9}18,500") == "18500"
  {
    assert "\U{20B9}18,500"[1..] == "18,500" && "18,500"[1..] == "8,500" && "8,500"[1..] == ",500";
    assert ",500"[1..] == "500" && "500"[1..] == "00" && "00"[1..] == "0" && "0"[1..] == "";
    assert DigitsIn("500") == "500";
  }

  lemma TableShapes()
    ensures RupeePrice("\U{20B9}22,000") && RupeePrice("\U{20B9}18,500")
  {
  }

}
