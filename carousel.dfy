/** The home page's slide carousel (frontend/src/Carousal.js): one index
    `current` into three slides, moved by the arrows with wrap-around and set
    directly by the dots. */
module CarouselState {
  import opened Js

  /** The slides' titles, in display order. */
  const Slides: seq<string> := ["Mattress", "Sofas", "Dining Sets"]

  const SlideCount: nat := |Slides|

  /** `(current + 1) % slides.length`. */
  function NextIndex(current: int): (r: int)
    requires 0 <= current
    ensures 0 <= r < SlideCount
  {
    Rem(current + 1, SlideCount)
  }

  /** `(current - 1 + slides.length) % slides.length`. */
  function PrevIndex(current: int): (r: int)
    requires 0 <= current
    ensures 0 <= r < SlideCount
  {
    Rem(current - 1 + SlideCount, SlideCount)
  }

  /** The number of slide positions `idx` below `n` with `idx === current`:
      the slides shown with full opacity and the dots drawn white. */
  function CountActive(current: int, n: nat): nat
  {
    if n == 0 then 0 else CountActive(current, n - 1) + (if n - 1 == current then 1 else 0)
  }

  class Carousel {
    var current: int

    ghost predicate Valid()
      reads this
    {
      0 <= current < SlideCount
    }

    constructor ()
      ensures current == 0 && Valid()
    {
      current := 0;
    }

    /** The left arrow. */
    method PrevSlide()
      requires Valid()
      modifies this
      ensures current == PrevIndex(old(current)) && Valid()
    {
      current := Rem(current - 1 + SlideCount, SlideCount);
    }

    /** The right arrow. */
    method NextSlide()
      requires Valid()
      modifies this
      ensures current == NextIndex(old(current)) && Valid()
    {
      current := Rem(current + 1, SlideCount);
    }

    /** A click on dot `idx`; there is one dot per slide. */
    method SelectSlide(idx: nat)
      requires idx < SlideCount
      modifies this
      ensures current == idx && Valid()
    {
      current := idx;
    }

    /** Whether slide `idx` is the one shown. */
    predicate Shown(idx: nat)
      reads this
    {
      idx == current
    }
  }

  /** The arrows undo each other. */
  lemma PrevUndoesNext(c: int)
    requires 0 <= c < SlideCount
    ensures PrevIndex(NextIndex(c)) == c && NextIndex(PrevIndex(c)) == c
  {
  }

  /** Three steps to the right come back to the start. */
  lemma ThreeNextsReturn(c: int)
    requires 0 <= c < SlideCount
    ensures NextIndex(NextIndex(NextIndex(c))) == c
  {
  }

  /** The left arrow on the first slide shows the last one, and the right
      arrow on the last slide shows the first. */
  lemma ArrowsWrap()
    ensures PrevIndex(0) == SlideCount - 1 && NextIndex(SlideCount - 1) == 0
  {
  }

  /** Exactly one position below `n` equals an index that is below `n`, and
      none does when the index is outside. */
  lemma {:induction false} CountActiveOne(c: int, n: nat)
    ensures CountActive(c, n) == if 0 <= c < n then 1 else 0
  {
    if n > 0 {
      CountActiveOne(c, n - 1);
    }
  }

  /** While the carousel is valid exactly one slide is shown: one position
      is counted active, some slide is shown, and no two are. */
  lemma ExactlyOneShown(c: Carousel)
    requires c.Valid()
    ensures CountActive(c.current, SlideCount) == 1
    ensures exists idx: nat :: idx < SlideCount && c.Shown(idx)
    ensures forall i: nat, j: nat :: i < SlideCount && j < SlideCount && c.Shown(i) && c.Shown(j) ==> i == j
  {
    CountActiveOne(c.current, SlideCount);
    assert c.Shown(c.current as nat);
  }
}
