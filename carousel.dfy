/** The slide shows: the hero carousel of both home pages and the image gallery of the static
    product page. Each keeps the index of the current slide and marks exactly that slide (and
    its dot, when there is one) as active. Two index rules are in use: modular arithmetic on
    the static home page, and "past the end goes to the first, before the start goes to the
    last" elsewhere. */
module Carousel {

  /** JavaScript's `%` on a positive divisor: the remainder takes the sign of the dividend. */
  function JsRemainder(a: int, b: int): (r: int)
    requires b > 0
    ensures a >= 0 ==> 0 <= r < b
    ensures a < 0 ==> -b < r <= 0
  {
    if a >= 0 then a % b else -((-a) % b)
  }

  /** `(index + totalSlides) % totalSlides`: the static home page's rule. */
  function ModularIndex(index: int, total: int): (r: int)
    requires total > 0
    ensures index >= -total ==> 0 <= r < total
  {
    JsRemainder(index + total, total)
  }

  /** The modular rule keeps an index that is already in range and brings an index less than
      one round below the start back by one round. */
  lemma ModularIndexValues(index: int, total: int)
    requires total > 0
    ensures -total <= index < 0 ==> ModularIndex(index, total) == index + total
    ensures 0 <= index < total ==> ModularIndex(index, total) == index
    ensures total <= index < 2 * total ==> ModularIndex(index, total) == index - total
  {
    if -total <= index < 0 {
      assert (index + total) % total == index + total;
    } else if 0 <= index < total {
      assert (index + total) % total == index by {
        assert index + total == 1 * total + index;
      }
    } else if total <= index < 2 * total {
      assert (index + total) % total == index - total by {
        assert index + total == 2 * total + (index - total);
      }
    }
  }

  /** `n >= count ? 0 : n < 0 ? count - 1 : n`: the rule of the dynamic home page and of the
      static product gallery. */
  function WrapIndex(n: int, count: int): (r: int)
    requires count > 0
    ensures 0 <= r < count
    ensures 0 <= n < count ==> r == n
  {
    if n >= count then 0 else if n < 0 then count - 1 else n
  }

  /** The two rules agree on every index that "next", "previous" and a dot can produce from a
      slide that is shown. */
  lemma WrapAgreesWithModular(i: int, total: int)
    requires total > 0 && -1 <= i <= total
    ensures WrapIndex(i, total) == ModularIndex(i, total)
  {
    ModularIndexValues(i, total);
  }

  /** Further out they differ: two past the end the modular rule lands on the second slide. */
  lemma WrapDiffersFurtherOut(total: int)
    requires total >= 2
    ensures WrapIndex(total + 1, total) == 0
    ensures ModularIndex(total + 1, total) == 1
  {
    ModularIndexValues(total + 1, total);
  }

  /** The move a swipe from `start` to `end` asks for: more than 50 pixels to the left is
      "next" (+1), more than 50 pixels to the right is "previous" (-1). */
  function SwipeStep(start: real, end: real): (r: int)
    ensures r == 1 <==> end < start - 50.0
    ensures r == -1 <==> end > start + 50.0
    ensures r == 0 <==> start - 50.0 <= end <= start + 50.0
  {
    if end < start - 50.0 then 1 else if end > start + 50.0 then -1 else 0
  }

  /** The slides and dots of one carousel, as their "active" classes. */
  class SlideDeck {
    const slides: array<bool>
    const dots: array<bool>
    var current: int

    /** Exactly the current slide, and the current dot if there is one, is active. */
    predicate Valid()
      reads this, slides, dots
    {
      slides != dots && slides.Length > 0 && 0 <= current < slides.Length
      && (forall j :: 0 <= j < slides.Length ==> slides[j] == (j == current))
      && (forall j :: 0 <= j < dots.Length ==> dots[j] == (j == current))
    }

    /** The markup as the page writes it: the first slide and the first dot are active. */
    constructor (slideCount: nat, dotCount: nat)
      requires slideCount > 0
      ensures Valid() && fresh(slides) && fresh(dots) && current == 0
      ensures slides.Length == slideCount && dots.Length == dotCount
    {
      slides := new bool[slideCount](j => j == 0);
      dots := new bool[dotCount](j => j == 0);
      current := 0;
    }

    /** Remove "active" from every slide and every dot, then add it to slide `k` and to dot `k`
        when that dot exists. */
    method Activate(k: int)
      requires slides != dots && 0 <= k < slides.Length
      modifies this, slides, dots
      ensures Valid() && current == k
    {
      var j := 0;
      while j < slides.Length
        invariant 0 <= j <= slides.Length
        invariant forall m :: 0 <= m < j ==> !slides[m]
      {
        slides[j] := false;
        j := j + 1;
      }
      j := 0;
      while j < dots.Length
        invariant 0 <= j <= dots.Length
        invariant forall m :: 0 <= m < j ==> !dots[m]
        invariant forall m :: 0 <= m < slides.Length ==> !slides[m]
      {
        dots[j] := false;
        j := j + 1;
      }
      current := k;
      slides[k] := true;
      if k < dots.Length {
        dots[k] := true;
      }
    }

    /** The static home page's `showSlide(index)`; its callers pass the current index plus or
        minus one, or the index of a dot. */
    method ShowModular(index: int)
      requires Valid() && index >= -slides.Length
      modifies this, slides, dots
      ensures Valid() && current == ModularIndex(index, slides.Length)
    {
      Activate(ModularIndex(index, slides.Length));
    }

    /** The dynamic home page's `showSlide(index)` and the static gallery's `showProductSlide(n)`. */
    method ShowWrapped(n: int)
      requires Valid()
      modifies this, slides, dots
      ensures Valid() && current == WrapIndex(n, slides.Length)
    {
      Activate(WrapIndex(n, slides.Length));
    }

    /** `nextSlide`, which the timer also calls, on the static home page. */
    method NextModular()
      requires Valid()
      modifies this, slides, dots
      ensures Valid() && current == (if old(current) == slides.Length - 1 then 0 else old(current) + 1)
    {
      ShowModular(current + 1);
      WrapAgreesWithModular(old(current) + 1, slides.Length);
    }

    method PrevModular()
      requires Valid()
      modifies this, slides, dots
      ensures Valid() && current == (if old(current) == 0 then slides.Length - 1 else old(current) - 1)
    {
      ShowModular(current - 1);
      WrapAgreesWithModular(old(current) - 1, slides.Length);
    }

    /** `nextSlide` of the dynamic home page and `changeProductSlide(1)` of the gallery. */
    method NextWrapped()
      requires Valid()
      modifies this, slides, dots
      ensures Valid() && current == (if old(current) == slides.Length - 1 then 0 else old(current) + 1)
    {
      ShowWrapped(current + 1);
    }

    method PrevWrapped()
      requires Valid()
      modifies this, slides, dots
      ensures Valid() && current == (if old(current) == 0 then slides.Length - 1 else old(current) - 1)
    {
      ShowWrapped(current - 1);
    }

    /** The static home page's swipe: two independent tests, next then previous. */
    method SwipeModular(start: real, end: real)
      requires Valid()
      modifies this, slides, dots
      ensures Valid() && current == WrapIndex(old(current) + SwipeStep(start, end), slides.Length)
    {
      if end < start - 50.0 {
        NextModular();
      }
      if end > start + 50.0 {
        PrevModular();
      }
    }

    /** The dynamic home page's swipe: "next", or else "previous". */
    method SwipeWrapped(start: real, end: real)
      requires Valid()
      modifies this, slides, dots
      ensures Valid() && current == WrapIndex(old(current) + SwipeStep(start, end), slides.Length)
    {
      if end < start - 50.0 {
        NextWrapped();
      } else if end > start + 50.0 {
        PrevWrapped();
      }
    }

    /** The static product gallery's swipe: two independent tests, each through
        `changeProductSlide`. */
    method SwipeGallery(start: real, end: real)
      requires Valid()
      modifies this, slides, dots
      ensures Valid() && current == WrapIndex(old(current) + SwipeStep(start, end), slides.Length)
    {
      if end < start - 50.0 {
        NextWrapped();
      }
      if end > start + 50.0 {
        PrevWrapped();
      }
    }
  }
}
