/**
  The About page of pages/About.tsx: a testimonial carousel whose index moves
  cyclically through the testimonials, and a "venues hosted" counter that
  counts up to its final figure when the page mounts.
*/
module Testimonials {

  /** A client testimonial (the `Review` record). */
  datatype Review = Review(id: int, text: string, author: string, kind: string)

  /** The testimonials shown on the page. */
  const Reviews: seq<Review> := [
    Review(1, "ZYVARA realized our dream wedding. The space was absolutely magical and the management flawless.",
           "Sofia & Marco", "Wedding 2026"),
    Review(2, "Attention to detail and service were impeccable. Highly recommended for high-level corporate events.",
           "Maria Gonzalez", "Corporate Event 2026"),
    Review(3, "Finding such an exclusive venue in Lima seemed impossible until we discovered ZYVARA.",
           "Carlos Rossi", "Private Celebration 2026")
  ]

  /** The index shown when the page mounts. */
  const InitialIndex: int := 0

  /** JavaScript's `%` on integers: the remainder keeps the sign of the dividend. */
  function JsRem(a: int, b: int): (r: int)
    requires b > 0
    ensures a >= 0 ==> 0 <= r < b
    ensures a < 0 ==> -b < r <= 0
    ensures a >= 0 ==> r == a % b
  {
    if a >= 0 then a % b else -((-a) % b)
  }

  /** `nextTestimonial`: one step forward, wrapping from the last to the first. */
  function Next(i: int, n: int): (r: int)
    requires n >= 1
    ensures i >= -1 ==> 0 <= r < n
    ensures 0 <= i < n - 1 ==> r == i + 1
    ensures i == n - 1 ==> r == 0
  {
    JsRem(i + 1, n)
  }

  /** `prevTestimonial`: one step back, wrapping from the first to the last. */
  function Prev(i: int, n: int): (r: int)
    requires n >= 1
    ensures i >= 1 - n ==> 0 <= r < n
    ensures 0 < i <= n ==> r == i - 1
    ensures i == 0 ==> r == n - 1
  {
    JsRem(i - 1 + n, n)
  }

  /** Going back undoes going forward. */
  lemma PrevAfterNext(i: int, n: int)
    requires n >= 1 && 0 <= i < n
    ensures Prev(Next(i, n), n) == i
  {
    if i == n - 1 {
      assert Next(i, n) == 0;
    } else {
      assert Next(i, n) == i + 1;
    }
  }

  /** Going forward undoes going back. */
  lemma NextAfterPrev(i: int, n: int)
    requires n >= 1 && 0 <= i < n
    ensures Next(Prev(i, n), n) == i
  {
    if i == 0 {
      assert Prev(i, n) == n - 1;
    } else {
      assert Prev(i, n) == i - 1;
    }
  }

  /** A click on one of the two carousel buttons. */
  datatype Click = NextClick | PrevClick

  /** The index after one click. */
  function Step(i: int, c: Click, n: int): (j: int)
    requires n >= 1
    ensures 0 <= i < n ==> 0 <= j < n
  {
    match c
    case NextClick => Next(i, n)
    case PrevClick => Prev(i, n)
  }

  /** The index after a sequence of clicks, first click first. */
  function Run(i: int, clicks: seq<Click>, n: int): (j: int)
    requires n >= 1
    decreases |clicks|
  {
    if clicks == [] then i else Run(Step(i, clicks[0], n), clicks[1..], n)
  }

  /** How far one click moves the index, before wrapping. */
  function Delta(c: Click): (d: int)
    ensures d == 1 || d == -1
  {
    if c == NextClick then 1 else -1
  }

  /** Forward clicks minus backward clicks. */
  function Net(clicks: seq<Click>): (k: int)
    ensures -|clicks| <= k <= |clicks|
    decreases |clicks|
  {
    if clicks == [] then 0 else Delta(clicks[0]) + Net(clicks[1..])
  }

  /** Whatever the clicks, the index stays a valid position in the list. */
  lemma {:induction false} RunInRange(i: int, clicks: seq<Click>, n: int)
    requires n >= 1 && 0 <= i < n
    ensures 0 <= Run(i, clicks, n) < n
    decreases |clicks|
  {
    if clicks != [] {
      RunInRange(Step(i, clicks[0], n), clicks[1..], n);
    }
  }

  /** One step moves the index by one, modulo n. */
  lemma StepIsRotation(i: int, c: Click, n: int)
    requires n >= 1 && 0 <= i < n
    ensures Step(i, c, n) == (i + Delta(c)) % n
  {
    var d := Delta(c);
    var r := Step(i, c, n);
    if c == NextClick {
      if i == n - 1 {
        assert r == 0 && (i + d) == n;
      } else {
        assert r == i + d;
      }
    } else {
      if i == 0 {
        assert r == n - 1 && i + d == -1;
        ModUnique(-1, -1, n - 1, n);
      } else {
        assert r == i + d;
      }
    }
  }

  /** Adding to a number or to its residue gives the same residue. */
  lemma ModAddResidue(a: int, b: int, n: int)
    requires n >= 1
    ensures (a % n + b) % n == (a + b) % n
  {
    var y := a % n + b;
    var q, r := y / n, y % n;
    assert y == q * n + r;
    assert a == (a / n) * n + a % n;
    assert a + b == (a / n + q) * n + r;
    ModUnique(a + b, a / n + q, r, n);
  }

  /** Quotient and remainder are the only ones with the remainder in [0, n). */
  lemma ModUnique(x: int, q: int, r: int, n: int)
    requires n >= 1 && 0 <= r < n && x == q * n + r
    ensures x % n == r && x / n == q
  {
    var q', r' := x / n, x % n;
    assert x == q' * n + r';
    assert (q - q') * n == r' - r;
    if q > q' {
      MulAtLeast(q - q', n);
    } else if q < q' {
      MulAtLeast(q' - q, n);
    }
  }

  /** A positive multiple of n is at least n. */
  lemma MulAtLeast(a: int, n: int)
    requires a >= 1 && n >= 1
    ensures a * n >= n
  {
  }

  /** Only the net number of forward clicks matters: the carousel shows the
      testimonial that many positions after the starting one, cyclically. */
  lemma {:induction false} RunIsNetRotation(i: int, clicks: seq<Click>, n: int)
    requires n >= 1 && 0 <= i < n
    ensures Run(i, clicks, n) == (i + Net(clicks)) % n
    decreases |clicks|
  {
    if clicks == [] {
      ModUnique(i, 0, i, n);
    } else {
      var c, rest := clicks[0], clicks[1..];
      var j := Step(i, c, n);
      assert 0 <= j < n;
      assert Run(i, clicks, n) == Run(j, rest, n);
      RunIsNetRotation(j, rest, n);
      assert (j + Net(rest)) % n == (i + Net(clicks)) % n by {
        assert Net(clicks) == Delta(c) + Net(rest);
        StepThenShift(i, c, Net(rest), n);
      }
    }
  }

  /** A click followed by a shift of x is a shift of x plus the click's delta. */
  lemma StepThenShift(i: int, c: Click, x: int, n: int)
    requires n >= 1 && 0 <= i < n
    ensures (Step(i, c, n) + x) % n == (i + Delta(c) + x) % n
  {
    StepIsRotation(i, c, n);
    ModAddResidue(i + Delta(c), x, n);
  }

  /** The testimonial on screen after some clicks from the initial index:
      reading the list at the current index is always defined. */
  function Shown(clicks: seq<Click>): (r: Review)
    ensures r in Reviews
    ensures r == Reviews[(InitialIndex + Net(clicks)) % |Reviews|]
  {
    RunInRange(InitialIndex, clicks, |Reviews|);
    RunIsNetRotation(InitialIndex, clicks, |Reviews|);
    Reviews[Run(InitialIndex, clicks, |Reviews|)]
  }

  /** Amount added on each tick of the count-up. */
  const CountStep: int := 10

  /** The figure at which the count-up stops. */
  const CountEnd: int := 500

  /** The count-up effect: the values the counter shows, one per tick, until
      the interval is cleared. */
  method CountUp() returns (shown: seq<int>)
    ensures |shown| == CountEnd / CountStep
    ensures forall k :: 0 <= k < |shown| ==> shown[k] == CountStep * (k + 1)
    ensures forall k :: 0 <= k < |shown| - 1 ==> shown[k] < shown[k + 1]
    ensures shown[|shown| - 1] == CountEnd
  {
    var start := 0;
    var running := true;
    shown := [];
    while running
      invariant running ==> start < CountEnd
      invariant !running ==> start == CountEnd
      invariant start == CountStep * |shown|
      invariant forall k :: 0 <= k < |shown| ==> shown[k] == CountStep * (k + 1)
      decreases if running then CountEnd - start + 1 else 0
    {
      start := start + CountStep;
      shown := shown + [start];
      if start >= CountEnd {
        running := false;
      }
    }
  }
}
