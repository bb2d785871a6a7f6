/** The testimonial slider: `showSlide` with wrap-around, the next/previous
    buttons and the five-second autoplay. */
module Carousel {

  /** `current` is `currentSlide`; `active[j]` says whether slide j carries the
      `active` class. The number of slides is `|active|` and never changes. */
  datatype Carousel = Carousel(current: int, active: seq<bool>)

  /** `showSlide` either finishes, or throws a TypeError at `slides[currentSlide]`
      when that slide does not exist, leaving the state reached so far. */
  datatype Outcome = Shown(state: Carousel) | TypeError(state: Carousel)

  /** Slide k, and only slide k, is active. */
  predicate OnlyActive(active: seq<bool>, k: int) {
    forall j :: 0 <= j < |active| ==> (active[j] <==> j == k)
  }

  /** A carousel as `showSlide` leaves it: a real slide is current and the only active one. */
  predicate Settled(c: Carousel) {
    0 <= c.current < |c.active| && OnlyActive(c.active, c.current)
  }

  function ShowSlide(c: Carousel, index: int): (r: Outcome)
    ensures |r.state.active| == |c.active|
    ensures r.Shown? <==> |c.active| > 0
    ensures r.Shown? ==> Settled(r.state)
    ensures 0 <= index < |c.active| ==> r.state.current == index
    ensures index >= |c.active| ==> r.state.current == 0
    ensures index < 0 ==> r.state.current == |c.active| - 1
  {
    var n := |c.active|;
    var cleared := seq(n, _ => false);
    var current := if index >= n then 0 else if index < 0 then n - 1 else index;
    if 0 <= current < n then Shown(Carousel(current, cleared[current := true]))
    else TypeError(Carousel(current, cleared))
  }

  /** The next button, and each autoplay tick. */
  function Next(c: Carousel): Outcome {
    ShowSlide(c, c.current + 1)
  }

  /** The previous button. */
  function Prev(c: Carousel): Outcome {
    ShowSlide(c, c.current - 1)
  }

  /** From a real slide, next and previous move one step around a circle. */
  lemma StepsAreModular(c: Carousel)
    requires 0 <= c.current < |c.active|
    ensures Next(c).Shown? && Next(c).state.current == (c.current + 1) % |c.active|
    ensures Prev(c).Shown? && Prev(c).state.current == (c.current + |c.active| - 1) % |c.active|
  {
    var n := |c.active|;
    if c.current + 1 == n {
      DivModUnique(n, n, 1, 0);
    } else {
      DivModUnique(c.current + 1, n, 0, c.current + 1);
    }
    if c.current == 0 {
      DivModUnique(n - 1, n, 0, n - 1);
    } else {
      DivModUnique(c.current + n - 1, n, 1, c.current - 1);
    }
  }

  /** Next from the last slide wraps to the first, previous from the first to the last. */
  lemma WrapAround(c: Carousel)
    requires |c.active| > 0
    ensures c.current == |c.active| - 1 ==> Next(c).state.current == 0
    ensures c.current == 0 ==> Prev(c).state.current == |c.active| - 1
  {
  }

  /** Previous undoes next and next undoes previous, flags included. */
  lemma PrevNextInverse(c: Carousel)
    requires Settled(c)
    ensures Prev(Next(c).state) == Shown(c)
    ensures Next(Prev(c).state) == Shown(c)
  {
    var n := |c.active|;
    var expected := seq(n, _ => false)[c.current := true];
    assert expected == c.active;
  }

  /** The slide shown after `ticks` autoplay ticks. */
  function Autoplay(c: Carousel, ticks: nat): Carousel
    requires |c.active| > 0
    decreases ticks
  {
    if ticks == 0 then c else Autoplay(Next(c).state, ticks - 1)
  }

  lemma MulAtLeast(d: int, n: nat)
    requires d >= 1
    ensures d * n >= n
  {
    assert d * n == n + (d - 1) * n;
  }

  /** Euclidean division has a single quotient and remainder. */
  lemma DivModUnique(x: int, n: nat, q: int, r: int)
    requires n > 0 && 0 <= r < n && x == q * n + r
    ensures x % n == r
  {
    var q' := x / n;
    var d := q - q';
    assert d * n == x % n - r;
    if d >= 1 {
      MulAtLeast(d, n);
    } else if d <= -1 {
      MulAtLeast(-d, n);
    }
  }

  /** Adding one whole turn does not change the slide. */
  lemma ModTurn(b: int, n: nat)
    requires n > 0
    ensures (n + b) % n == b % n
  {
    var q := b / n;
    assert n + b == (q + 1) * n + b % n;
    DivModUnique(n + b, n, q + 1, b % n);
  }

  lemma ModSucc(a: int, b: nat, n: nat)
    requires 0 <= a < n
    ensures ((a + 1) % n + b) % n == (a + 1 + b) % n
  {
    if a + 1 == n {
      ModTurn(b, n);
    } else {
      assert (a + 1) % n == a + 1;
    }
  }

  /** Autoplay visits the slides cyclically: after k ticks the current slide
      is k places further round. */
  lemma {:induction false} AutoplayCycles(c: Carousel, ticks: nat)
    requires 0 <= c.current < |c.active|
    ensures Autoplay(c, ticks).current == (c.current + ticks) % |c.active|
    decreases ticks
  {
    var n := |c.active|;
    if ticks > 0 {
      var c' := Next(c).state;
      StepsAreModular(c);
      AutoplayCycles(c', ticks - 1);
      ModSucc(c.current, ticks - 1, n);
    }
  }
}
