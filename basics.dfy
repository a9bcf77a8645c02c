/** Shared vocabulary: optional values, JavaScript string helpers and sequence helpers
    (Array.prototype.filter, slice, reverse) used by every page of the storefront. */
module Basics {

  /** A value that may be absent: `undefined`/`null` in JavaScript, `None` in Python,
      and NaN where a number is expected. */
  datatype Option<+T> = None | Some(value: T) {
    function GetOr(default: T): T {
      if Some? then value else default
    }
  }

  /** JavaScript `s || fallback` on a string: the empty string is falsy. */
  function OrElse(s: string, fallback: string): string {
    if s == "" then fallback else s
  }

  /** JavaScript `v || fallback` on a possibly absent string. */
  function OptOrElse(v: Option<string>, fallback: string): string {
    if v.None? then fallback else OrElse(v.value, fallback)
  }

  /** A template literal `${v}` of a possibly absent string. */
  function Interpolate(v: Option<string>): string {
    if v.None? then "undefined" else v.value
  }

  // ---------------------------------------------------------------- characters

  predicate IsDigit(c: char) {
    '0' <= c <= '9'
  }

  predicate AllDigits(s: string) {
    forall i :: 0 <= i < |s| ==> IsDigit(s[i])
  }

  /** The white space and line terminators that String.prototype.trim removes. */
  predicate IsSpace(c: char) {
    c == ' ' || c == '\t' || c == '\n' || c == '\r' || c == '\U{000B}' || c == '\U{000C}'
    || c == '\U{00A0}' || c == '\U{FEFF}' || c == '\U{1680}' || ('\U{2000}' <= c <= '\U{200A}')
    || c == '\U{2028}' || c == '\U{2029}' || c == '\U{202F}' || c == '\U{205F}' || c == '\U{3000}'
  }

  /** Lower-casing of one character (ASCII letters only). */
  function Lower(c: char): char {
    if 'A' <= c <= 'Z' then (c as int + 32) as char else c
  }

  /** String.prototype.toLowerCase (ASCII letters only). */
  function ToLower(s: string): (r: string)
    ensures |r| == |s|
  {
    seq(|s|, i requires 0 <= i < |s| => Lower(s[i]))
  }

  /** Upper-casing of one character (ASCII letters only). */
  function Upper(c: char): char {
    if 'a' <= c <= 'z' then (c as int - 32) as char else c
  }

  /** `s.charAt(0).toUpperCase() + s.slice(1)`. */
  function Capitalize(s: string): (r: string)
    ensures |r| == |s| && (s != [] ==> r[0] == Upper(s[0]) && r[1..] == s[1..])
  {
    if s == [] then [] else [Upper(s[0])] + s[1..]
  }

  /** Drops the leading white space, and nothing else. */
  function TrimStart(s: string): (r: string)
    ensures |r| <= |s| && r == s[|s| - |r|..]
    ensures r == [] || !IsSpace(r[0])
  {
    if s != [] && IsSpace(s[0]) then TrimStart(s[1..]) else s
  }

  /** Drops the trailing white space, and nothing else. */
  function TrimEnd(s: string): (r: string)
    ensures |r| <= |s| && r == s[..|r|]
    ensures r == [] || !IsSpace(r[|r| - 1])
  {
    if s != [] && IsSpace(s[|s| - 1]) then TrimEnd(s[..|s| - 1]) else s
  }

  /** String.prototype.trim. */
  function Trim(s: string): (r: string)
    ensures |r| <= |s|
    ensures r == [] || (!IsSpace(r[0]) && !IsSpace(r[|r| - 1]))
  {
    TrimEnd(TrimStart(s))
  }

  /** Every character of `u` is white space. */
  predicate AllSpace(u: string) {
    forall k :: 0 <= k < |u| ==> IsSpace(u[k])
  }

  /** Everything `TrimStart` drops is white space. */
  lemma {:induction false} TrimStartDropsSpace(s: string)
    ensures AllSpace(s[..|s| - |TrimStart(s)|])
  {
    if s != [] && IsSpace(s[0]) {
      TrimStartDropsSpace(s[1..]);
      var d := |s| - |TrimStart(s)|;
      assert s[..d] == [s[0]] + s[1..][..d - 1];
    }
  }

  /** Everything `TrimEnd` drops is white space. */
  lemma {:induction false} TrimEndDropsSpace(s: string)
    ensures AllSpace(s[|TrimEnd(s)|..])
  {
    if s != [] && IsSpace(s[|s| - 1]) {
      TrimEndDropsSpace(s[..|s| - 1]);
      var e := |TrimEnd(s)|;
      assert s[e..] == s[..|s| - 1][e..] + [s[|s| - 1]];
    }
  }

  /** The trim is the slice of `s` from its first to its last character that is not white
      space: `s[i..j]`, with only white space before `i` and after `j`. */
  lemma TrimIsSlice(s: string) returns (i: nat, j: nat)
    ensures i <= j <= |s| && Trim(s) == s[i..j]
    ensures AllSpace(s[..i]) && AllSpace(s[j..])
  {
    var t := TrimStart(s);
    var r := TrimEnd(t);
    TrimStartDropsSpace(s);
    TrimEndDropsSpace(t);
    i := |s| - |t|;
    SpaceAround(s, i, t, r);
    j := i + |r|;
    assert Trim(s) == r;
  }

  /** A prefix `r` of a suffix `t == s[i..]` is the slice of `s` at `i`; what `t` has after `r`
      is what `s` has after that slice. */
  lemma SpaceAround(s: string, i: nat, t: string, r: string)
    requires i <= |s| && t == s[i..] && |r| <= |t| && r == t[..|r|]
    requires AllSpace(s[..i]) && AllSpace(t[|r|..])
    ensures i + |r| <= |s| && r == s[i..i + |r|]
    ensures AllSpace(s[..i]) && AllSpace(s[i + |r|..])
  {
    assert s[i + |r|..] == t[|r|..];
  }

  /** A string that neither starts nor ends with white space is its own trim. */
  lemma TrimNoSpace(s: string)
    requires s != [] && !IsSpace(s[0]) && !IsSpace(s[|s| - 1])
    ensures Trim(s) == s
  {
  }

  // ---------------------------------------------------------------- substrings

  /** `pat` occurs in `s` starting at position `k`. */
  predicate OccursAt(s: string, pat: string, k: int) {
    0 <= k && k + |pat| <= |s| && s[k..k + |pat|] == pat
  }

  /** The first occurrence of `pat` in `s` at or after `from`, or -1. */
  function IndexOfFrom(s: string, pat: string, from: nat): (r: int)
    decreases |s| - from
    ensures r == -1 || (from <= r && OccursAt(s, pat, r))
    ensures r == -1 ==> forall k :: from <= k ==> !OccursAt(s, pat, k)
    ensures r >= 0 ==> forall k :: from <= k < r ==> !OccursAt(s, pat, k)
  {
    if from + |pat| > |s| then -1
    else if s[from..from + |pat|] == pat then from
    else IndexOfFrom(s, pat, from + 1)
  }

  /** String.prototype.indexOf, and Python's `str.find`. */
  function IndexOf(s: string, pat: string): int {
    IndexOfFrom(s, pat, 0)
  }

  /** String.prototype.includes, and Python's `pat in s`. */
  predicate Contains(s: string, pat: string) {
    IndexOf(s, pat) >= 0
  }

  lemma ContainsWitness(s: string, pat: string, k: int)
    requires OccursAt(s, pat, k)
    ensures Contains(s, pat)
  {
  }

  lemma NotContains(s: string, pat: string, k: int)
    requires !Contains(s, pat)
    ensures !OccursAt(s, pat, k)
  {
  }

  /** String.prototype.replace with a string pattern: only the first occurrence is replaced. */
  function ReplaceFirst(s: string, pat: string, rep: string): string {
    var k := IndexOf(s, pat);
    if k < 0 then s else s[..k] + rep + s[k + |pat|..]
  }

  // ---------------------------------------------------------------- numbers as text

  function DigitValue(c: char): nat
    requires IsDigit(c)
  {
    c as int - '0' as int
  }

  function DigitChar(d: nat): (c: char)
    requires d < 10
    ensures IsDigit(c) && DigitValue(c) == d
  {
    ('0' as int + d) as char
  }

  /** The value of a string of decimal digits (the empty string is worth 0). */
  function DigitsValue(s: string): nat
    requires AllDigits(s)
  {
    if s == [] then 0 else DigitsValue(s[..|s| - 1]) * 10 + DigitValue(s[|s| - 1])
  }

  /** Decimal text of a natural number, as `String(n)` writes it. */
  function NatToString(n: nat): (r: string)
    ensures AllDigits(r) && |r| >= 1
  {
    if n < 10 then [DigitChar(n)] else NatToString(n / 10) + [DigitChar(n % 10)]
  }

  /** Decimal text of an integer, as `String(i)` and `${i}` write it. */
  function IntToString(i: int): string {
    if i < 0 then "-" + NatToString(-i) else NatToString(i)
  }

  lemma {:induction false} NatToStringRoundTrip(n: nat)
    ensures DigitsValue(NatToString(n)) == n
  {
    if n >= 10 {
      NatToStringRoundTrip(n / 10);
      var s := NatToString(n / 10) + [DigitChar(n % 10)];
      assert s[..|s| - 1] == NatToString(n / 10);
    }
  }

  // ---------------------------------------------------------------- links

  /** A WhatsApp click-to-chat link: `https://wa.me/${phone}?text=${text}`. */
  function WaMeLink(phone: string, text: string): string {
    "https://wa.me/" + phone + "?text=" + text
  }

  /** Two links to the same number are equal only when they carry the same text. */
  lemma WaMeLinkText(phone: string, t1: string, t2: string)
    requires WaMeLink(phone, t1) == WaMeLink(phone, t2)
    ensures t1 == t2
  {
    var n := |"https://wa.me/" + phone + "?text="|;
    assert t1 == WaMeLink(phone, t1)[n..];
    assert t2 == WaMeLink(phone, t2)[n..];
  }

  // ---------------------------------------------------------------- sequences

  lemma AppendAssoc<T>(a: seq<T>, b: seq<T>, c: seq<T>)
    ensures (a + b) + c == a + (b + c)
  {
  }

  /** Array.prototype.slice(0, n). */
  function Take<T>(s: seq<T>, n: nat): (r: seq<T>)
    ensures |r| <= n && |r| <= |s|
    ensures |r| == if n < |s| then n else |s|
    ensures r == s[..|r|]
  {
    if n < |s| then s[..n] else s
  }

  /** What `s.filter(keep).slice(0, n)` shows: the kept elements of some prefix `s[..j]`, in
      their order in `s`, where the prefix stops at the `n`-th kept element or runs to the end
      of `s`. */
  ghost predicate FirstKept<T(!new)>(s: seq<T>, keep: T -> bool, n: nat, r: seq<T>) {
    |r| <= n && exists j :: 0 <= j <= |s| && r == Filter(s[..j], keep) && (|r| == n || j == |s|)
  }

  /** Filtering a prefix gives a prefix of the filtered sequence. */
  lemma FilterPrefix<T(!new)>(s: seq<T>, j: nat, keep: T -> bool)
    requires j <= |s|
    ensures |Filter(s[..j], keep)| <= |Filter(s, keep)|
    ensures Filter(s, keep)[..|Filter(s[..j], keep)|] == Filter(s[..j], keep)
  {
    assert s == s[..j] + s[j..];
    FilterAppend(s[..j], s[j..], keep);
  }

  /** `Take(Filter(s, keep), n)` is the first `n` kept elements of `s`. */
  lemma {:induction false} TakeFilterFirstKept<T(!new)>(s: seq<T>, keep: T -> bool, n: nat)
    ensures FirstKept(s, keep, n, Take(Filter(s, keep), n))
  {
    var r := Take(Filter(s, keep), n);
    if s == [] || n == 0 {
      assert s[..0] == [] && Filter(s[..0], keep) == [];
      assert s[..|s|] == s;
      if s == [] {
        assert r == Filter(s[..|s|], keep);
      } else {
        assert r == Filter(s[..0], keep);
      }
    } else {
      var m: nat := if keep(s[0]) then n - 1 else n;
      TakeFilterFirstKept(s[1..], keep, m);
      var t := Take(Filter(s[1..], keep), m);
      var j' :| 0 <= j' <= |s[1..]| && t == Filter(s[1..][..j'], keep) && (|t| == m || j' == |s[1..]|);
      TakeFilterCons(s, keep, n);
      FilterPrefixCons(s, j', keep);
    }
  }

  /** Taking `n` kept elements of a non-empty sequence: its head, if kept, then `n - 1` more. */
  lemma TakeFilterCons<T(!new)>(s: seq<T>, keep: T -> bool, n: nat)
    requires s != [] && n > 0
    ensures Take(Filter(s, keep), n)
            == (if keep(s[0]) then [s[0]] else []) + Take(Filter(s[1..], keep), if keep(s[0]) then n - 1 else n)
  {
    var head := if keep(s[0]) then [s[0]] else [];
    var t := Filter(s[1..], keep);
    var m := if keep(s[0]) then n - 1 else n;
    assert Filter(s, keep) == head + t;
    assert |head| + m == n;
    if m < |t| {
      assert (head + t)[..n] == head + t[..m];
    }
  }

  /** Filtering the prefix `s[..j + 1]`: its head, if kept, then the filtered `s[1..][..j]`. */
  lemma FilterPrefixCons<T(!new)>(s: seq<T>, j: nat, keep: T -> bool)
    requires j < |s|
    ensures Filter(s[..j + 1], keep) == (if keep(s[0]) then [s[0]] else []) + Filter(s[1..][..j], keep)
  {
    assert s[..j + 1] == [s[0]] + s[1..][..j];
    FilterCons(s[0], s[1..][..j], keep);
  }

  /** The first `n` kept elements are determined: two results that both qualify are equal. */
  lemma FirstKeptUnique<T(!new)>(s: seq<T>, keep: T -> bool, n: nat, r1: seq<T>, r2: seq<T>)
    requires FirstKept(s, keep, n, r1) && FirstKept(s, keep, n, r2)
    ensures r1 == r2
  {
    var j1 :| 0 <= j1 <= |s| && r1 == Filter(s[..j1], keep) && (|r1| == n || j1 == |s|);
    var j2 :| 0 <= j2 <= |s| && r2 == Filter(s[..j2], keep) && (|r2| == n || j2 == |s|);
    if j1 <= j2 {
      FirstKeptUniqueOrdered(s, keep, n, j1, j2);
    } else {
      FirstKeptUniqueOrdered(s, keep, n, j2, j1);
    }
  }

  lemma FirstKeptUniqueOrdered<T(!new)>(s: seq<T>, keep: T -> bool, n: nat, j1: nat, j2: nat)
    requires j1 <= j2 <= |s|
    requires |Filter(s[..j1], keep)| <= n && |Filter(s[..j2], keep)| <= n
    requires |Filter(s[..j1], keep)| == n || j1 == |s|
    ensures Filter(s[..j1], keep) == Filter(s[..j2], keep)
  {
    var u := s[..j2];
    assert u[..j1] == s[..j1];
    FilterPrefix(u, j1, keep);
    var f1 := Filter(s[..j1], keep);
    var f2 := Filter(u, keep);
    if j1 == |s| {
      assert s[..j1] == s[..j2];
    } else {
      assert |f1| == n == |f2|;
      assert f2 == f2[..|f1|];
    }
  }

  /** Array.prototype.reverse on a copy. */
  function Reverse<T>(s: seq<T>): (r: seq<T>)
    ensures |r| == |s|
    ensures forall k :: 0 <= k < |s| ==> r[k] == s[|s| - 1 - k]
  {
    seq(|s|, k requires 0 <= k < |s| => s[|s| - 1 - k])
  }

  /** Array.prototype.filter: the elements that pass `keep`, in their original order. */
  function Filter<T(==,!new)>(s: seq<T>, keep: T -> bool): (r: seq<T>)
    ensures |r| <= |s|
    ensures forall x :: x in r <==> x in s && keep(x)
  {
    if s == [] then []
    else (if keep(s[0]) then [s[0]] else []) + Filter(s[1..], keep)
  }

  /** Filtering distributes over concatenation, so the kept elements keep their order. */
  lemma {:induction false} FilterAppend<T(!new)>(a: seq<T>, b: seq<T>, keep: T -> bool)
    ensures Filter(a + b, keep) == Filter(a, keep) + Filter(b, keep)
  {
    if a != [] {
      assert (a + b)[1..] == a[1..] + b;
      FilterAppend(a[1..], b, keep);
    } else {
      assert a + b == b;
    }
  }

  /** Filtering a sequence with a given head. */
  lemma FilterCons<T(!new)>(a: T, t: seq<T>, keep: T -> bool)
    ensures Filter([a] + t, keep) == (if keep(a) then [a] else []) + Filter(t, keep)
  {
    assert ([a] + t)[0] == a && ([a] + t)[1..] == t;
  }

  /** Appending one element keeps it exactly when it passes. */
  lemma FilterSnoc<T(!new)>(a: seq<T>, x: T, keep: T -> bool)
    ensures Filter(a + [x], keep) == Filter(a, keep) + (if keep(x) then [x] else [])
  {
    FilterAppend(a, [x], keep);
    assert [x][1..] == [];
  }

  /** Filtering one more element of a prefix. */
  lemma FilterPrefixStep<T(!new)>(s: seq<T>, i: nat, keep: T -> bool)
    requires i < |s|
    ensures Filter(s[..i + 1], keep) == Filter(s[..i], keep) + (if keep(s[i]) then [s[i]] else [])
  {
    assert s[..i + 1] == s[..i] + [s[i]];
    FilterSnoc(s[..i], s[i], keep);
  }

  /** Some element of a non-empty sequence passes exactly when some element before the last
      one passes or the last one does. */
  lemma ExistsSnoc<T>(s: seq<T>, p: T -> bool)
    requires s != []
    ensures (exists k :: 0 <= k < |s| && p(s[k]))
            <==> (exists k :: 0 <= k < |s| - 1 && p(s[k])) || p(s[|s| - 1])
  {
  }

  /** Two predicates that agree on the elements of `s` keep the same elements. */
  lemma {:induction false} FilterCongruent<T(!new)>(s: seq<T>, f: T -> bool, g: T -> bool)
    requires forall k :: 0 <= k < |s| ==> f(s[k]) == g(s[k])
    ensures Filter(s, f) == Filter(s, g)
  {
    if s != [] {
      FilterCongruent(s[1..], f, g);
    }
  }

  /** A predicate that holds of every element keeps the whole sequence. */
  lemma {:induction false} FilterAll<T(!new)>(s: seq<T>, keep: T -> bool)
    requires forall k :: 0 <= k < |s| ==> keep(s[k])
    ensures Filter(s, keep) == s
  {
    if s != [] {
      FilterAll(s[1..], keep);
    }
  }
}
