/** `createSlideshow` and the controller `addSlideshowEventListeners` wires up: the slides and their
    dots carry an `active` flag each, and the closure variable `currentSlide` names the shown slide. */
module Slideshows {
  import opened Catalog
  import opened Media

  /** The slide after `current`, wrapping from the last slide to the first. */
  function NextIndex(current: nat, total: nat): (r: nat)
    requires current < total
    ensures r < total
    ensures r == if current == total - 1 then 0 else current + 1
  {
    (current + 1) % total
  }

  /** The slide before `current`, wrapping from the first slide to the last. */
  function PrevIndex(current: nat, total: nat): (r: nat)
    requires current < total
    ensures r < total
    ensures r == if current == 0 then total - 1 else current - 1
  {
    (current - 1 + total) % total
  }

  /** Going forward then back, or back then forward, returns to the same slide. */
  lemma NextPrevInverse(current: nat, total: nat)
    requires current < total
    ensures PrevIndex(NextIndex(current, total), total) == current
    ensures NextIndex(PrevIndex(current, total), total) == current
  {
  }

  /** The slide reached from `current` after `k` presses of the next button. */
  function AdvanceBy(current: nat, total: nat, k: nat): (r: nat)
    requires current < total
    ensures r < total
    decreases k
  {
    if k == 0 then current else NextIndex(AdvanceBy(current, total, k - 1), total)
  }

  /** Short of the last slide, `k` presses move exactly `k` places forward. */
  lemma {:induction false} AdvanceWithinRange(current: nat, total: nat, k: nat)
    requires current + k < total
    ensures AdvanceBy(current, total, k) == current + k
    decreases k
  {
    if k > 0 {
      AdvanceWithinRange(current, total, k - 1);
    }
  }

  /** `a + b` presses are `a` presses followed by `b` more. */
  lemma {:induction false} AdvanceCompose(current: nat, total: nat, a: nat, b: nat)
    requires current < total
    ensures AdvanceBy(current, total, a + b) == AdvanceBy(AdvanceBy(current, total, a), total, b)
    decreases b
  {
    if b > 0 {
      AdvanceCompose(current, total, a, b - 1);
      assert a + b - 1 == a + (b - 1);
    }
  }

  /** Pressing the next button once per slide shows the starting slide again. */
  lemma FullCycleReturns(current: nat, total: nat)
    requires current < total
    ensures AdvanceBy(current, total, total) == current
  {
    var toLast := total - 1 - current;
    AdvanceWithinRange(current, total, toLast);
    assert AdvanceBy(current, total, toLast + 1) == 0;
    AdvanceWithinRange(0, total, current);
    AdvanceCompose(current, total, toLast + 1, current);
  }

  /** One slideshow: the rendered slides, the `active` flags of the `.slide` and `.dot` elements and
      the index `currentSlide`. */
  class Slideshow {
    const total: nat
    const slides: seq<MediaBlock>
    const slideActive: array<bool>
    const dotActive: array<bool>
    var currentSlide: nat

    /** One slide per media item, and exactly the current slide and its dot are active. */
    ghost predicate Valid()
      reads this, slideActive, dotActive
    {
      && slideActive != dotActive
      && 0 < total && |slides| == total && slideActive.Length == total && dotActive.Length == total
      && currentSlide < total
      && (forall i :: 0 <= i < total ==> (slideActive[i] <==> i == currentSlide))
      && (forall i :: 0 <= i < total ==> (dotActive[i] <==> i == currentSlide))
    }

    /** `createSlideshow(mediaItems)`: one slide and one dot per item, the first of each active, and
        `currentSlide` at 0. Only called for a non-empty media list. */
    constructor (mediaItems: seq<MediaItem>)
      requires |mediaItems| > 0
      ensures Valid() && fresh(slideActive) && fresh(dotActive)
      ensures total == |mediaItems| && slides == RenderAll(mediaItems) && currentSlide == 0
    {
      var n := |mediaItems|;
      var sa := new bool[n];
      var da := new bool[n];
      for i := 0 to n
        invariant forall j :: 0 <= j < i ==> (sa[j] <==> j == 0)
      {
        sa[i] := i == 0;
      }
      for i := 0 to n
        invariant forall j :: 0 <= j < i ==> (da[j] <==> j == 0)
        invariant forall j :: 0 <= j < n ==> (sa[j] <==> j == 0)
      {
        da[i] := i == 0;
      }
      total := n;
      slides := RenderAll(mediaItems);
      slideActive := sa;
      dotActive := da;
      currentSlide := 0;
    }

    /** `showSlide(index)`: clears every flag, then marks slide and dot `index` active. Every caller
        passes an index below the number of slides. */
    method ShowSlide(index: nat)
      requires Valid() && index < total
      modifies this, slideActive, dotActive
      ensures Valid() && currentSlide == index
    {
      for i := 0 to total
        invariant forall j :: 0 <= j < i ==> !slideActive[j]
      {
        slideActive[i] := false;
      }
      for i := 0 to total
        invariant forall j :: 0 <= j < i ==> !dotActive[j]
        invariant forall j :: 0 <= j < total ==> !slideActive[j]
      {
        dotActive[i] := false;
      }
      slideActive[index] := true;
      dotActive[index] := true;
      currentSlide := index;
    }

    /** `nextSlide()`, the next button's handler. */
    method NextSlide()
      requires Valid()
      modifies this, slideActive, dotActive
      ensures Valid() && currentSlide == NextIndex(old(currentSlide), total)
    {
      ShowSlide(NextIndex(currentSlide, total));
    }

    /** `prevSlide()`, the previous button's handler. */
    method PrevSlide()
      requires Valid()
      modifies this, slideActive, dotActive
      ensures Valid() && currentSlide == PrevIndex(old(currentSlide), total)
    {
      ShowSlide(PrevIndex(currentSlide, total));
    }

    /** The click handler of dot `index`. */
    method ClickDot(index: nat)
      requires Valid() && index < total
      modifies this, slideActive, dotActive
      ensures Valid() && currentSlide == index
    {
      ShowSlide(index);
    }

    /** The container's `keydown` handler: the left arrow goes back, the right arrow forward, and any
        other key changes nothing. */
    method HandleKey(key: string)
      requires Valid()
      modifies this, slideActive, dotActive
      ensures Valid()
      ensures key == "ArrowLeft" ==> currentSlide == PrevIndex(old(currentSlide), total)
      ensures key == "ArrowRight" ==> currentSlide == NextIndex(old(currentSlide), total)
      ensures key != "ArrowLeft" && key != "ArrowRight" ==> currentSlide == old(currentSlide)
      ensures key != "ArrowLeft" && key != "ArrowRight" ==> unchanged(slideActive) && unchanged(dotActive)
    {
      if key == "ArrowLeft" {
        PrevSlide();
      } else if key == "ArrowRight" {
        NextSlide();
      }
    }
  }
}
