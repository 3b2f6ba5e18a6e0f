/** The clone-padded hero carousel of
    `src/components/anime/hero/HeroCarouselClient.tsx`. With more than
    one slide the track is `[last, ...slides, first]`, so that stepping
    past either end lands on a copy, which is then swapped for the real
    slide it copies. */
module HeroCarousel {

  /** The slides on the track: the slides themselves when there are at
      most one, and otherwise a copy of the last one in front and a copy
      of the first one behind. */
  function ExtendedSlides<T>(items: seq<T>): seq<T> {
    if |items| <= 1 then items else [items[|items| - 1]] + items + [items[0]]
  }

  /** `slideCount`, the length of the track. */
  function SlideCount(total: nat): (n: nat)
    ensures total <= 1 ==> n == total
    ensures total > 1 ==> n == total + 2
  {
    if total <= 1 then total else total + 2
  }

  /** `realIndex`: the slide a track position shows. The front copy shows
      the last slide, the back copy the first, and position `i` in
      between slide `i - 1`. */
  function RealIndex(total: nat, index: int): int {
    if total <= 1 then 0
    else if index == 0 then total - 1
    else if index == SlideCount(total) - 1 then 0
    else index - 1
  }

  /** `trendNum`, the 1-based number printed on the slide at track
      position `i`. */
  function TrendNum(total: nat, i: int): int {
    if total <= 1 then i + 1
    else if i == 0 then total
    else if i == SlideCount(total) - 1 then 1
    else i
  }

  /** The track has `slideCount` positions and each shows the slide its
      `realIndex` names, which is always a real slide. */
  lemma ExtendedSlidesShow<T>(items: seq<T>)
    requires |items| >= 1
    ensures |ExtendedSlides(items)| == SlideCount(|items|)
    ensures forall i :: 0 <= i < SlideCount(|items|) ==>
      0 <= RealIndex(|items|, i) < |items| && ExtendedSlides(items)[i] == items[RealIndex(|items|, i)]
  {
  }

  /** The two copies show the same slide as the real positions they are
      swapped for: the back copy as position 1, the front copy as
      position `total`. */
  lemma CopiesMatch<T>(items: seq<T>)
    requires |items| > 1
    ensures ExtendedSlides(items)[SlideCount(|items|) - 1] == ExtendedSlides(items)[1]
    ensures ExtendedSlides(items)[0] == ExtendedSlides(items)[|items|]
    ensures RealIndex(|items|, SlideCount(|items|) - 1) == RealIndex(|items|, 1) == 0
    ensures RealIndex(|items|, 0) == RealIndex(|items|, |items|) == |items| - 1
  {
  }

  /** Going to real slide `r` puts the track at `r + 1`, whose
      `realIndex` is `r` again. */
  lemma GoToSlideRoundTrip(total: nat, r: int)
    requires total > 1 && 0 <= r < total
    ensures RealIndex(total, r + 1) == r
  {
  }

  /** The number printed at each track position is its `realIndex` plus
      one, so copies print the number of the slide they copy. */
  lemma TrendNumIsRealIndex(total: nat, i: int)
    requires 0 <= i < SlideCount(total)
    ensures TrendNum(total, i) == RealIndex(total, i) + 1
    ensures 1 <= TrendNum(total, i) <= total
  {
  }

  /** The carousel's `index` state and the `skipTransitionRef` flag. */
  class HeroCarousel<T> {
    const items: seq<T>
    var index: int
    var skipTransition: bool

    /** The index stays on the track; with at most one slide it is 0. */
    ghost predicate Valid()
      reads this
    {
      && (|items| <= 1 ==> index == 0)
      && (|items| > 1 ==> 0 <= index < SlideCount(|items|))
    }

    /** The first real slide, at position 1 when there are copies. */
    constructor (items: seq<T>)
      ensures Valid() && this.items == items
      ensures index == (if |items| <= 1 then 0 else 1) && !skipTransition
    {
      this.items := items;
      index := if |items| <= 1 then 0 else 1;
      skipTransition := false;
    }

    /** `next`: one position on, stopping at the back copy, with the
        transition animated. Nothing happens with at most one slide. */
    method Next()
      requires Valid()
      modifies this`index, this`skipTransition
      ensures Valid()
      ensures |items| <= 1 ==> index == old(index) && skipTransition == old(skipTransition)
      ensures |items| > 1 ==>
        !skipTransition && index == (if old(index) < SlideCount(|items|) - 1 then old(index) + 1 else old(index))
    {
      if |items| <= 1 {
        return;
      }
      skipTransition := false;
      index := if index < SlideCount(|items|) - 1 then index + 1 else index;
    }

    /** `prev`: one position back, stopping at the front copy. */
    method Prev()
      requires Valid()
      modifies this`index, this`skipTransition
      ensures Valid()
      ensures |items| <= 1 ==> index == old(index) && skipTransition == old(skipTransition)
      ensures |items| > 1 ==> !skipTransition && index == (if old(index) > 0 then old(index) - 1 else old(index))
    {
      if |items| <= 1 {
        return;
      }
      skipTransition := false;
      index := if index > 0 then index - 1 else index;
    }

    /** `goToSlide(r)` from the dot of real slide `r`: afterwards the
        carousel shows slide `r`. */
    method GoToSlide(r: int)
      requires Valid() && 0 <= r < |items|
      modifies this`index, this`skipTransition
      ensures Valid()
      ensures |items| <= 1 ==> index == old(index) && skipTransition == old(skipTransition)
      ensures |items| > 1 ==> !skipTransition && index == r + 1 && RealIndex(|items|, index) == r
      ensures ExtendedSlides(items)[index] == items[r]
    {
      if |items| <= 1 {
        return;
      }
      skipTransition := false;
      index := r + 1;
      ExtendedSlidesShow(items);
    }

    /** The reset effect once its timer fires: on the back copy the index
        jumps to 1, on the front copy to `total`, without animation. The
        slide shown and its `realIndex` stay the same. */
    method SettleClone()
      requires Valid()
      modifies this`index, this`skipTransition
      ensures Valid()
      ensures |items| > 1 && old(index) == SlideCount(|items|) - 1 ==> index == 1 && skipTransition
      ensures |items| > 1 && old(index) == 0 ==> index == |items| && skipTransition
      ensures !(|items| > 1 && (old(index) == 0 || old(index) == SlideCount(|items|) - 1)) ==>
        index == old(index) && skipTransition == old(skipTransition)
      ensures RealIndex(|items|, index) == RealIndex(|items|, old(index))
      ensures |items| >= 1 ==> ExtendedSlides(items)[index] == ExtendedSlides(items)[old(index)]
    {
      if |items| <= 1 {
        return;
      }
      CopiesMatch(items);
      if index == SlideCount(|items|) - 1 {
        skipTransition := true;
        index := 1;
      } else if index == 0 {
        skipTransition := true;
        index := |items|;
      }
    }

    /** The short timer after an index change that turns animation back
        on. */
    method ClearSkip()
      modifies this`skipTransition
      ensures !skipTransition
    {
      skipTransition := false;
    }
  }
}
