/** The two carousels: the banner slider, which wraps around, and the mobile
    product slider, which stops at both ends. Each slide or item is reduced to
    its "active" CSS-class flag, held in an array in page order. */
module Sliders {
  import opened Wrappers

  /** `forEach(el => el.classList.remove(cls))` over the flags. */
  method ClearFlags(a: array<bool>)
    modifies a
    ensures forall k :: 0 <= k < a.Length ==> !a[k]
  {
    var i := 0;
    while i < a.Length
      invariant 0 <= i <= a.Length
      invariant forall k :: 0 <= k < i ==> !a[k]
    {
      a[i] := false;
      i := i + 1;
    }
  }

  /** `forEach((el, i) => el.classList.toggle(cls, i === index))`. */
  method MarkOnly(a: array<bool>, index: int)
    modifies a
    ensures forall k :: 0 <= k < a.Length ==> a[k] == (k == index)
  {
    var i := 0;
    while i < a.Length
      invariant 0 <= i <= a.Length
      invariant forall k :: 0 <= k < i ==> a[k] == (k == index)
    {
      a[i] := i == index;
      i := i + 1;
    }
  }

  /** `(i + 1) % n`; both operands are non-negative, so JavaScript's remainder
      agrees with Dafny's. Steps forward, from the last slide back to the first. */
  function NextIndex(i: int, n: int): (r: int)
    requires 0 <= i < n
    ensures 0 <= r < n
    ensures r == if i == n - 1 then 0 else i + 1
  {
    (i + 1) % n
  }

  /** `(i - 1 + n) % n`; non-negative operands again. Steps back, from the first
      slide to the last. */
  function PrevIndex(i: int, n: int): (r: int)
    requires 0 <= i < n
    ensures 0 <= r < n
    ensures r == if i == 0 then n - 1 else i - 1
  {
    (i - 1 + n) % n
  }

  /** `prevSlide` undoes `nextSlide` and the other way round. */
  lemma NextPrevInverse(i: int, n: int)
    requires 0 <= i < n
    ensures PrevIndex(NextIndex(i, n), n) == i
    ensures NextIndex(PrevIndex(i, n), n) == i
  {
  }

  /** The slide reached after `k` clicks on "next". */
  function NextTimes(i: int, n: int, k: nat): (r: int)
    requires 0 <= i < n
    ensures 0 <= r < n
  {
    if k == 0 then i else NextIndex(NextTimes(i, n, k - 1), n)
  }

  lemma {:induction false} MulAtLeast(d: nat, n: nat)
    requires d >= 1
    ensures d * n >= n
  {
    if d > 1 {
      MulAtLeast(d - 1, n);
      assert d * n == (d - 1) * n + n;
    }
  }

  /** The remainder is determined by any quotient-remainder split. */
  lemma ModOfSplit(a: int, q: int, r: int, n: int)
    requires n > 0 && 0 <= r < n && a == q * n + r
    ensures a % n == r
  {
    var q', r' := a / n, a % n;
    if q' < q {
      assert (q - q') * n == q * n - q' * n;
      MulAtLeast(q - q', n);
    } else if q' > q {
      assert (q' - q) * n == q' * n - q * n;
      MulAtLeast(q' - q, n);
    }
  }

  lemma ModSuccessor(x: nat, n: int)
    requires n > 0
    ensures (x + 1) % n == NextIndex(x % n, n)
  {
    var q, r := x / n, x % n;
    if r == n - 1 {
      ModOfSplit(x + 1, q + 1, 0, n);
    } else {
      ModOfSplit(x + 1, q, r + 1, n);
    }
  }

  /** `k` clicks on "next" move `k` slides forward modulo the slide count, so
      `n` clicks come back to the starting slide. */
  lemma {:induction false} NextTimesIsModular(i: int, n: int, k: nat)
    requires 0 <= i < n
    ensures NextTimes(i, n, k) == (i + k) % n
  {
    if k > 0 {
      var x: nat := i + k - 1;
      NextTimesIsModular(i, n, k - 1);
      ModSuccessor(x, n);
      assert x + 1 == i + k;
    }
  }

  class BannerSlider {
    /** Per slide: whether it carries `banner__slide--active`. */
    const slides: array<bool>
    /** Per indicator dot: whether it carries `banner__indicator--active`. */
    const indicators: array<bool>
    var currentSlide: int

    /** Every slide has an indicator (a missing one would make `showSlide`
      throw), and the current slide is one of the slides. */
    ghost predicate Valid()
      reads this
    {
      && slides != indicators
      && 0 < slides.Length <= indicators.Length
      && 0 <= currentSlide < slides.Length
    }

    /** Exactly the slide and the indicator at `index` are marked active. */
    ghost predicate Shows(index: int)
      reads slides, indicators
    {
      && (forall k :: 0 <= k < slides.Length ==> slides[k] == (k == index))
      && (forall k :: 0 <= k < indicators.Length ==> indicators[k] == (k == index))
    }

    /** Takes the flags the page's markup starts with, then shows slide 0. */
    constructor (slideFlags: seq<bool>, indicatorFlags: seq<bool>)
      requires 0 < |slideFlags| <= |indicatorFlags|
      ensures Valid() && fresh(slides) && fresh(indicators)
      ensures slides.Length == |slideFlags| && indicators.Length == |indicatorFlags|
      ensures currentSlide == 0 && Shows(0)
    {
      slides := new bool[|slideFlags|](k requires 0 <= k < |slideFlags| => slideFlags[k]);
      indicators := new bool[|indicatorFlags|](k requires 0 <= k < |indicatorFlags| => indicatorFlags[k]);
      currentSlide := 0;
      new;
      ShowSlide(0);
    }

    /** `showSlide(index)`: clears every active mark, then marks the slide and
      the indicator at `index`. */
    method ShowSlide(index: int)
      requires slides != indicators && slides.Length <= indicators.Length
      requires 0 <= index < slides.Length
      modifies this, slides, indicators
      ensures currentSlide == index && Shows(index)
    {
      ClearFlags(slides);
      ClearFlags(indicators);
      currentSlide := index;
      slides[index] := true;
      indicators[index] := true;
    }

    method NextSlide()
      requires Valid()
      modifies this, slides, indicators
      ensures Valid()
      ensures currentSlide == NextIndex(old(currentSlide), slides.Length)
      ensures Shows(currentSlide)
    {
      currentSlide := (currentSlide + 1) % slides.Length;
      ShowSlide(currentSlide);
    }

    method PrevSlide()
      requires Valid()
      modifies this, slides, indicators
      ensures Valid()
      ensures currentSlide == PrevIndex(old(currentSlide), slides.Length)
      ensures Shows(currentSlide)
    {
      currentSlide := (currentSlide - 1 + slides.Length) % slides.Length;
      ShowSlide(currentSlide);
    }
  }

  /** The `disabled` flags of the two navigation buttons. */
  datatype NavButtons = NavButtons(prevDisabled: bool, nextDisabled: bool)

  /** `prev()`: one item back unless already at the first. */
  function StepBack(i: int): (r: int)
    ensures r == i <==> i <= 0
    ensures i > 0 ==> r == i - 1
  {
    if i > 0 then i - 1 else i
  }

  /** `next()`: one item forward unless already at the last of `n`. */
  function StepForward(i: int, n: int): (r: int)
    ensures r == i <==> i >= n - 1
    ensures i < n - 1 ==> r == i + 1
  {
    if i < n - 1 then i + 1 else i
  }

  /** `updateButtons`: "previous" is disabled on the first item and "next" on
      the last one. */
  function ButtonsFor(i: int, n: int): (b: NavButtons)
    ensures b.prevDisabled <==> i == 0
    ensures b.nextDisabled <==> i == n - 1
  {
    NavButtons(i == 0, i == n - 1)
  }

  /** The slider's index range: the items' positions, or 0 when there are none. */
  predicate InRange(i: int, n: int) {
    0 <= i && (i < n || i == 0)
  }

  /** Both steps keep the index in range, and on a slider with items a button is
      disabled exactly when clicking it would do nothing. */
  lemma ButtonsMatchSteps(i: int, n: int)
    requires n > 0 && InRange(i, n)
    ensures InRange(StepBack(i), n) && InRange(StepForward(i, n), n)
    ensures ButtonsFor(i, n).prevDisabled <==> StepBack(i) == i
    ensures ButtonsFor(i, n).nextDisabled <==> StepForward(i, n) == i
  {
  }

  /** The item reached after `k` clicks on "next". */
  function ForwardTimes(i: int, n: int, k: nat): int {
    if k == 0 then i else StepForward(ForwardTimes(i, n, k - 1), n)
  }

  /** Clicking "next" `k` times advances `k` items but stops at the last one. */
  lemma {:induction false} ForwardTimesStops(i: int, n: int, k: nat)
    requires 0 <= i < n
    ensures ForwardTimes(i, n, k) == if i + k < n then i + k else n - 1
  {
    if k > 0 {
      ForwardTimesStops(i, n, k - 1);
    }
  }

  /** On a valid slider with navigation, each button is disabled exactly when
      clicking it would leave the index where it is. */
  lemma NavDisabledWhenStuck(slider: SimpleMobileSlider)
    requires slider.Valid() && slider.nav.Some?
    ensures slider.nav.value.prevDisabled <==> StepBack(slider.index) == slider.index
    ensures slider.nav.value.nextDisabled <==> StepForward(slider.index, slider.items.Length) == slider.index
  {
    ButtonsMatchSteps(slider.index, slider.items.Length);
  }

  class SimpleMobileSlider {
    /** Per item: whether it carries `is-active`. */
    const items: array<bool>
    var index: int
    /** The navigation buttons; None until the mobile navigation is built. */
    var nav: Option<NavButtons>

    /** The index is in range; navigation exists only over more than one item,
      and its buttons always match the index. */
    ghost predicate Valid()
      reads this
    {
      && InRange(index, items.Length)
      && (nav.Some? ==> items.Length > 1 && nav == Some(ButtonsFor(index, items.Length)))
    }

    /** Starts at item 0. `tryInit` builds the navigation only on a narrow
      viewport and with more than one item; whether it does is `withNav`.
      Building it marks only item 0 active, then creates the buttons and ends
      with `updateButtons`. */
    constructor (itemFlags: seq<bool>, withNav: bool)
      requires withNav ==> |itemFlags| > 1
      ensures Valid() && fresh(items) && items.Length == |itemFlags|
      ensures index == 0
      ensures withNav ==> forall k :: 0 <= k < items.Length ==> items[k] == (k == 0)
      ensures !withNav ==> items[..] == itemFlags
      ensures nav == if withNav then Some(ButtonsFor(0, |itemFlags|)) else None
    {
      items := new bool[|itemFlags|](k requires 0 <= k < |itemFlags| => itemFlags[k]);
      index := 0;
      nav := None;
      new;
      if withNav {
        MarkOnly(items, 0);
        nav := Some(NavButtons(false, false));
        UpdateButtons();
      }
    }

    /** `updateButtons`: nothing without navigation. */
    method UpdateButtons()
      modifies this`nav
      ensures nav == if old(nav).Some? then Some(ButtonsFor(index, items.Length)) else None
    {
      if nav.None? {
        return;
      }
      nav := Some(NavButtons(index == 0, index == items.Length - 1));
    }

    /** `showCurrent`: marks only the current item, then refreshes the buttons. */
    method ShowCurrent()
      modifies this`nav, items
      ensures forall k :: 0 <= k < items.Length ==> items[k] == (k == index)
      ensures nav == if old(nav).Some? then Some(ButtonsFor(index, items.Length)) else None
    {
      MarkOnly(items, index);
      UpdateButtons();
    }

    method Prev()
      requires Valid()
      modifies this, items
      ensures Valid()
      ensures index == StepBack(old(index))
      ensures index == old(index) ==> nav == old(nav) && items[..] == old(items[..])
      ensures index != old(index) ==>
        && (forall k :: 0 <= k < items.Length ==> items[k] == (k == index))
        && nav == if old(nav).Some? then Some(ButtonsFor(index, items.Length)) else None
    {
      if index > 0 {
        index := index - 1;
        ShowCurrent();
      }
    }

    method Next()
      requires Valid()
      modifies this, items
      ensures Valid()
      ensures index == StepForward(old(index), items.Length)
      ensures index == old(index) ==> nav == old(nav) && items[..] == old(items[..])
      ensures index != old(index) ==>
        && (forall k :: 0 <= k < items.Length ==> items[k] == (k == index))
        && nav == if old(nav).Some? then Some(ButtonsFor(index, items.Length)) else None
    {
      if index < items.Length - 1 {
        index := index + 1;
        ShowCurrent();
      }
    }
  }
}
