/**
 * The testimonial carousel of components/reviews-carousel.tsx: an index into the six testimonials
 * that moves around a ring, and an autoplay flag. The five-second interval is modelled as a
 * `AutoplayTick` event; the animation is not modelled.
 */
module ReviewsCarousel {
  /** `testimonials.length`. */
  const TestimonialCount: nat := 6

  /** JavaScript's `%` on integers: the remainder truncated toward zero, carrying the sign of `a`. */
  function JsRem(a: int, n: int): (r: int)
    requires n > 0
    ensures a >= 0 ==> r == a % n
    ensures a < 0 ==> -n < r <= 0
  {
    if a >= 0 then a % n else -((-a) % n)
  }

  /** The index `nextSlide` moves to: `(prevIndex + 1) % testimonials.length`. */
  function NextIndex(i: int): (r: int)
    ensures 0 <= i < TestimonialCount ==> 0 <= r < TestimonialCount
    ensures 0 <= i < TestimonialCount ==> r == if i == TestimonialCount - 1 then 0 else i + 1
  {
    JsRem(i + 1, TestimonialCount)
  }

  /** The index `prevSlide` moves to: `(prevIndex - 1 + testimonials.length) % testimonials.length`. */
  function PrevIndex(i: int): (r: int)
    ensures 0 <= i < TestimonialCount ==> 0 <= r < TestimonialCount
    ensures 0 <= i < TestimonialCount ==> r == if i == 0 then TestimonialCount - 1 else i - 1
  {
    JsRem(i - 1 + TestimonialCount, TestimonialCount)
  }

  /** Going back undoes going forward. */
  lemma PrevAfterNext(i: int)
    requires 0 <= i < TestimonialCount
    ensures PrevIndex(NextIndex(i)) == i
  {
  }

  /** Going forward undoes going back. */
  lemma NextAfterPrev(i: int)
    requires 0 <= i < TestimonialCount
    ensures NextIndex(PrevIndex(i)) == i
  {
  }

  /** `nextSlide` applied `k` times. */
  function NextTimes(i: int, k: nat): int
  {
    if k == 0 then i else NextIndex(NextTimes(i, k - 1))
  }

  /** From a shown slide, `k` steps forward land `k` places further round the ring. */
  lemma {:induction false} NextTimesRotates(i: int, k: nat)
    requires 0 <= i < TestimonialCount
    ensures NextTimes(i, k) == (i + k) % TestimonialCount
  {
    if k > 0 {
      NextTimesRotates(i, k - 1);
    }
  }

  /** Stepping forward as many times as there are testimonials comes back to the same slide. */
  lemma FullCycle(i: int, k: nat)
    requires 0 <= i < TestimonialCount && k == TestimonialCount
    ensures NextTimes(i, k) == i
  {
    NextTimesRotates(i, k);
    assert (i + k) % TestimonialCount == i;
  }

  /** The component's two pieces of state. */
  class Carousel {
    var currentIndex: int
    var isAutoPlaying: bool

    /** The index shows one of the testimonials. */
    predicate Valid()
      reads this
    {
      0 <= currentIndex < TestimonialCount
    }

    /** Initial state: the first testimonial, autoplay on. */
    constructor ()
      ensures Valid()
      ensures currentIndex == 0 && isAutoPlaying
    {
      currentIndex := 0;
      isAutoPlaying := true;
    }

    /** `nextSlide`: one step forward round the ring; autoplay untouched. */
    method NextSlide()
      modifies this
      ensures currentIndex == NextIndex(old(currentIndex))
      ensures isAutoPlaying == old(isAutoPlaying)
      ensures old(Valid()) ==> Valid()
    {
      currentIndex := JsRem(currentIndex + 1, TestimonialCount);
    }

    /** `prevSlide`: one step back round the ring; autoplay untouched. */
    method PrevSlide()
      modifies this
      ensures currentIndex == PrevIndex(old(currentIndex))
      ensures isAutoPlaying == old(isAutoPlaying)
      ensures old(Valid()) ==> Valid()
    {
      currentIndex := JsRem(currentIndex - 1 + TestimonialCount, TestimonialCount);
    }

    /** `goToSlide(index)`: the index is taken as given, so the state is valid exactly when it is in range. */
    method GoToSlide(index: int)
      modifies this
      ensures currentIndex == index && isAutoPlaying == old(isAutoPlaying)
      ensures Valid() <==> 0 <= index < TestimonialCount
    {
      currentIndex := index;
    }

    /** The window `keydown` listener: the arrow keys step and stop autoplay; other keys change nothing. */
    method HandleKeyDown(key: string)
      modifies this
      ensures key == "ArrowLeft" ==>
        currentIndex == PrevIndex(old(currentIndex)) && !isAutoPlaying
      ensures key == "ArrowRight" ==>
        currentIndex == NextIndex(old(currentIndex)) && !isAutoPlaying
      ensures key != "ArrowLeft" && key != "ArrowRight" ==>
        currentIndex == old(currentIndex) && isAutoPlaying == old(isAutoPlaying)
      ensures old(Valid()) ==> Valid()
    {
      if key == "ArrowLeft" {
        PrevSlide();
        isAutoPlaying := false;
      } else if key == "ArrowRight" {
        NextSlide();
        isAutoPlaying := false;
      }
    }

    /** `handleMouseEnter`: pauses autoplay, index unchanged. */
    method MouseEnter()
      modifies this
      ensures currentIndex == old(currentIndex) && !isAutoPlaying
    {
      isAutoPlaying := false;
    }

    /** `handleMouseLeave`: resumes autoplay, index unchanged. */
    method MouseLeave()
      modifies this
      ensures currentIndex == old(currentIndex) && isAutoPlaying
    {
      isAutoPlaying := true;
    }

    /** The "previous" arrow button: one step back and autoplay off. */
    method ClickPrev()
      modifies this
      ensures currentIndex == PrevIndex(old(currentIndex)) && !isAutoPlaying
      ensures old(Valid()) ==> Valid()
    {
      PrevSlide();
      isAutoPlaying := false;
    }

    /** The "next" arrow button: one step forward and autoplay off. */
    method ClickNext()
      modifies this
      ensures currentIndex == NextIndex(old(currentIndex)) && !isAutoPlaying
      ensures old(Valid()) ==> Valid()
    {
      NextSlide();
      isAutoPlaying := false;
    }

    /** A pagination dot: dots exist only for the positions of the testimonials. */
    method ClickDot(index: int)
      requires 0 <= index < TestimonialCount
      modifies this
      ensures currentIndex == index && !isAutoPlaying
      ensures Valid()
    {
      GoToSlide(index);
      isAutoPlaying := false;
    }

    /** One firing of the autoplay interval, which is only running while autoplay is on. */
    method AutoplayTick()
      modifies this
      ensures old(isAutoPlaying) ==> currentIndex == NextIndex(old(currentIndex))
      ensures !old(isAutoPlaying) ==> currentIndex == old(currentIndex)
      ensures isAutoPlaying == old(isAutoPlaying)
      ensures old(Valid()) ==> Valid()
    {
      if isAutoPlaying {
        NextSlide();
      }
    }
  }
}
