/**
  The venue browser of pages/Venues.tsx: a horizontally scrolling strip of
  venue cards whose scroll position drives an active card index and a
  progress percentage, with previous/next buttons that ask the strip to
  scroll to a neighbouring card.

  DOM measurements (scroll offsets, widths, padding, the viewport width) are
  supplied by the caller as plain numbers; a smooth scroll request is the
  target offset the handler would pass to `scrollTo`.
*/
module VenueBrowser {
  import opened Common

  /** Spacing between cards assumed by the index estimate. */
  const Gap: real := 32.0

  /** Viewport widths below this are treated as mobile (centre the card). */
  const MobileBreakpoint: real := 768.0

  /** JavaScript's Math.round on a finite number (halves go towards +infinity):
      the unique integer within half a unit of x, below-inclusive. */
  function Round(x: real): (r: int)
    ensures r as real - 0.5 <= x < r as real + 0.5
  {
    (x + 0.5).Floor
  }

  /** Math.min(hi, Math.max(lo, x)) on integers. */
  function ClampInt(lo: int, hi: int, x: int): (r: int)
    requires lo <= hi
    ensures lo <= r <= hi
    ensures lo <= x <= hi ==> r == x
    ensures x < lo ==> r == lo
    ensures x > hi ==> r == hi
  {
    if hi < (if lo < x then x else lo) then hi else if lo < x then x else lo
  }

  /** Math.min(hi, Math.max(lo, x)) on reals. */
  function ClampReal(lo: real, hi: real, x: real): (r: real)
    requires lo <= hi
    ensures lo <= r <= hi
    ensures lo <= x <= hi ==> r == x
    ensures x < lo ==> r == lo
    ensures x > hi ==> r == hi
  {
    if hi < (if lo < x then x else lo) then hi else if lo < x then x else lo
  }

  /** One child of the scroll container as the browser measures it. */
  datatype Card = Card(offsetLeft: real, clientWidth: real, rectWidth: real)

  /** The scroll container: its scroll metrics, its computed left padding and
      its children (the venue cards, then a trailing spacer). */
  datatype Strip = Strip(scrollLeft: real, scrollWidth: real, clientWidth: real,
                         paddingLeft: real, children: seq<Card>)

  /** How far the strip can scroll. */
  function MaxScroll(s: Strip): (m: real)
  {
    s.scrollWidth - s.clientWidth
  }

  /** The progress percentage shown by the progress line. */
  function Progress(scrollLeft: real, maxScroll: real): (r: real)
    requires maxScroll > 0.0
    ensures 0.0 <= r <= 100.0
    ensures scrollLeft <= 0.0 ==> r == 0.0
    ensures scrollLeft >= maxScroll ==> r == 100.0
    ensures 0.0 <= scrollLeft <= maxScroll ==> r * maxScroll == 100.0 * scrollLeft
  {
    var p := scrollLeft / maxScroll * 100.0;
    ProgressBounds(scrollLeft, maxScroll);
    ClampReal(0.0, 100.0, p)
  }

  /** Where the unclamped percentage lies relative to 0 and 100. */
  lemma ProgressBounds(scrollLeft: real, maxScroll: real)
    requires maxScroll > 0.0
    ensures scrollLeft <= 0.0 ==> scrollLeft / maxScroll * 100.0 <= 0.0
    ensures scrollLeft >= maxScroll ==> scrollLeft / maxScroll * 100.0 >= 100.0
    ensures 0.0 <= scrollLeft <= maxScroll ==> 0.0 <= scrollLeft / maxScroll * 100.0 <= 100.0
    ensures (scrollLeft / maxScroll * 100.0) * maxScroll == 100.0 * scrollLeft
  {
    var q := scrollLeft / maxScroll;
    assert q * maxScroll == scrollLeft;
    if scrollLeft <= 0.0 {
      assert q <= 0.0;
    }
    if scrollLeft >= maxScroll {
      assert q >= 1.0;
    }
    if 0.0 <= scrollLeft <= maxScroll {
      if q < 0.0 {
        ScaleLt(q, 0.0, maxScroll);
      }
      if q > 1.0 {
        ScaleLt(1.0, q, maxScroll);
      }
    }
  }

  /** Width of the first child, or 0 when there is none (`?.width || 0`). */
  function FirstCardWidth(s: Strip): (w: real)
    ensures |s.children| == 0 ==> w == 0.0
    ensures |s.children| > 0 ==> w == s.children[0].rectWidth
  {
    if |s.children| > 0 then s.children[0].rectWidth else 0.0
  }

  /** The active card read off the scroll offset: the rounded number of card
      slots scrolled past, clamped to the catalog. */
  function EstimatedIndex(scrollLeft: real, cardWidth: real, count: int): (r: int)
    requires cardWidth > 0.0 && count >= 1
    ensures 0 <= r < count
  {
    ClampInt(0, count - 1, Round(scrollLeft / (cardWidth + Gap)))
  }

  /** a <= b scales by a positive factor. */
  lemma ScaleLe(a: real, b: real, p: real)
    requires a <= b && p > 0.0
    ensures a * p <= b * p
  {
  }

  /** a < b scales by a positive factor. */
  lemma ScaleLt(a: real, b: real, p: real)
    requires a < b && p > 0.0
    ensures a * p < b * p
  {
  }

  /** The rounded slot count k puts the offset within half a slot of k slots. */
  lemma RoundedSlot(scrollLeft: real, p: real)
    requires p > 0.0
    ensures var k := Round(scrollLeft / p);
      k as real * p - p / 2.0 <= scrollLeft < k as real * p + p / 2.0
  {
    var q := scrollLeft / p;
    var k := Round(q);
    assert q * p == scrollLeft;
    assert k as real - 0.5 <= q < k as real + 0.5;
    ScaleLe(k as real - 0.5, q, p);
    ScaleLt(q, k as real + 0.5, p);
    assert (k as real - 0.5) * p == k as real * p - p / 2.0;
    assert (k as real + 0.5) * p == k as real * p + p / 2.0;
    assert scrollLeft < k as real * p + p / 2.0;
    assert k == Round(scrollLeft / p);
  }

  /** The estimated index names the card whose slot (half a slot either side of
      its left edge) holds the scroll offset; past either end it is the end card. */
  lemma EstimatedIndexIsNearestCard(scrollLeft: real, cardWidth: real, count: int)
    requires cardWidth > 0.0 && count >= 1
    ensures var r, p := EstimatedIndex(scrollLeft, cardWidth, count), cardWidth + Gap;
      || (r as real * p - p / 2.0 <= scrollLeft < r as real * p + p / 2.0)
      || (r == count - 1 && scrollLeft >= r as real * p + p / 2.0)
      || (r == 0 && scrollLeft < -p / 2.0)
  {
    var p := cardWidth + Gap;
    var k := Round(scrollLeft / p);
    var r := EstimatedIndex(scrollLeft, cardWidth, count);
    assert r == ClampInt(0, count - 1, k);
    RoundedSlot(scrollLeft, p);
    if k < 0 {
      SlotBeforeFirst(scrollLeft, p, k);
    } else if k >= count {
      SlotPastLast(scrollLeft, p, k, count);
    }
  }

  /** An offset in a slot before card 0 lies more than half a slot before it. */
  lemma SlotBeforeFirst(s: real, p: real, k: int)
    requires p > 0.0 && k < 0 && s < k as real * p + p / 2.0
    ensures s < -p / 2.0
  {
    ScaleLe(k as real, -1.0, p);
  }

  /** An offset in a slot at or after card m lies at least half a slot after card m - 1. */
  lemma SlotPastLast(s: real, p: real, k: int, m: int)
    requires p > 0.0 && k >= m && k as real * p - p / 2.0 <= s
    ensures (m - 1) as real * p + p / 2.0 <= s
  {
    ScaleLe(m as real, k as real, p);
    assert (m - 1) as real * p + p == m as real * p;
  }

  /** Scrolling further never makes an earlier card active. */
  lemma EstimatedIndexMonotone(s1: real, s2: real, cardWidth: real, count: int)
    requires cardWidth > 0.0 && count >= 1
    requires s1 <= s2
    ensures EstimatedIndex(s1, cardWidth, count) <= EstimatedIndex(s2, cardWidth, count)
  {
    var p := cardWidth + Gap;
    assert s1 / p <= s2 / p by {
      var q1, q2 := s1 / p, s2 / p;
      assert q1 * p == s1 && q2 * p == s2;
      if q1 > q2 {
        ScaleLt(q2, q1, p);
      }
    }
  }

  /** With the cards laid out one slot apart, scrolling exactly to card k's
      left edge makes card k active. */
  lemma EstimatedIndexAtCard(k: int, cardWidth: real, count: int)
    requires cardWidth > 0.0 && 0 <= k < count
    ensures EstimatedIndex(k as real * (cardWidth + Gap), cardWidth, count) == k
  {
    var p := cardWidth + Gap;
    var x := k as real * p;
    DivExact(k as real, p);
    RoundOfInt(k);
    assert Round(x / p) == k;
    assert EstimatedIndex(x, cardWidth, count) == ClampInt(0, count - 1, Round(x / p));
  }

  /** A slot count plus a fraction below one half rounds to that slot count. */
  lemma RoundNearInt(k: int, e: real)
    requires 0.0 <= e < 0.5
    ensures Round(k as real + e) == k
  {
    var r := Round(k as real + e);
    assert r as real - 0.5 <= k as real + e < r as real + 0.5;
  }

  /** With the cards laid out `cardWidth + gap` apart, for a gap at least the
      assumed one and an accumulated surplus below half a slot, scrolling
      exactly to card k's left edge makes card k active. */
  lemma EstimatedIndexAtLaidOutCard(k: int, cardWidth: real, gap: real, count: int)
    requires cardWidth > 0.0 && 0 <= k < count
    requires gap >= Gap && k as real * (gap - Gap) < (cardWidth + Gap) / 2.0
    ensures EstimatedIndex(k as real * (cardWidth + gap), cardWidth, count) == k
  {
    var p := cardWidth + Gap;
    var d := k as real * (gap - Gap);
    var x := k as real * (cardWidth + gap);
    assert x == k as real * p + d;
    var e := d / p;
    assert e * p == d;
    assert 0.0 <= e < 0.5 by {
      if e < 0.0 {
        ScaleLt(e, 0.0, p);
      }
      if e >= 0.5 {
        ScaleLe(0.5, e, p);
      }
    }
    assert x / p == k as real + e by {
      assert (k as real + e) * p == x;
    }
    RoundNearInt(k, e);
    assert EstimatedIndex(x, cardWidth, count) == ClampInt(0, count - 1, Round(x / p));
  }

  /** An integer rounds to itself. */
  lemma RoundOfInt(k: int)
    ensures Round(k as real) == k
  {
    var r := Round(k as real);
    assert r as real - 0.5 <= k as real < r as real + 0.5;
  }

  /** Dividing a product by one of its positive factors gives the other. */
  lemma DivExact(a: real, p: real)
    requires p > 0.0
    ensures a * p / p == a
  {
  }

  /** Where `scrollToIndex` asks the strip to scroll for a given card. */
  function ScrollTarget(s: Strip, card: Card, innerWidth: real): (left: real)
    ensures innerWidth < MobileBreakpoint ==>
      left + s.clientWidth / 2.0 == card.offsetLeft + card.clientWidth / 2.0
    ensures innerWidth >= MobileBreakpoint ==> left + s.paddingLeft == card.offsetLeft
  {
    if innerWidth < MobileBreakpoint then
      card.offsetLeft - s.clientWidth / 2.0 + card.clientWidth / 2.0
    else
      card.offsetLeft - s.paddingLeft
  }

  /** The scroll request issued for child `index`, if any: nothing when the
      container is missing or has no child at that position; no clamping. */
  function ScrollToIndex(strip: Option<Strip>, index: int, innerWidth: real): (cmd: Option<real>)
    ensures cmd.Some? <==> strip.Some? && 0 <= index < |strip.value.children|
    ensures cmd.Some? ==> cmd.value == ScrollTarget(strip.value, strip.value.children[index], innerWidth)
  {
    match strip
    case None => None
    case Some(s) =>
      if 0 <= index < |s.children| then Some(ScrollTarget(s, s.children[index], innerWidth)) else None
  }

  /** The clamped request: the browser keeps a `scrollTo` offset between 0 and
      how far the strip can scroll. (Scroll snapping is not modelled.) */
  function Landing(s: Strip, target: real): (left: real)
    ensures 0.0 <= left
    ensures MaxScroll(s) >= 0.0 ==> left <= MaxScroll(s)
    ensures 0.0 <= target <= MaxScroll(s) ==> left == target
    ensures target < 0.0 ==> left == 0.0
    ensures target > MaxScroll(s) >= 0.0 ==> left == MaxScroll(s)
  {
    ClampReal(0.0, if MaxScroll(s) > 0.0 then MaxScroll(s) else 0.0, target)
  }

  /** On a desktop viewport, with card k placed k pitches of `width + gap`
      after the left padding (the page lays cards out 48 px apart there, not
      the 32 px the estimate assumes), the scroll requested for card k reads
      back as k while the surplus stays under half a slot; when that request
      is within how far the strip can scroll, the clamped request is the
      request itself and reads back as k too. */
  lemma AlignedScrollReadsBack(s: Strip, k: int, gap: real, innerWidth: real, count: int)
    requires count >= 1 && 0 <= k < count && k < |s.children|
    requires s.children[0].rectWidth > 0.0
    requires gap >= Gap && k as real * (gap - Gap) < (s.children[0].rectWidth + Gap) / 2.0
    requires s.children[k].offsetLeft == s.paddingLeft + k as real * (s.children[0].rectWidth + gap)
    requires innerWidth >= MobileBreakpoint
    ensures var cmd := ScrollToIndex(Some(s), k, innerWidth);
      && cmd.Some? && EstimatedIndex(cmd.value, FirstCardWidth(s), count) == k
      && (cmd.value <= MaxScroll(s) ==>
            EstimatedIndex(Landing(s, cmd.value), FirstCardWidth(s), count) == k)
  {
    var w := s.children[0].rectWidth;
    var target := ScrollTarget(s, s.children[k], innerWidth);
    assert target == k as real * (w + gap);
    assert 0.0 <= target by {
      ScaleLe(0.0, k as real, w + gap);
    }
    assert FirstCardWidth(s) == w;
    EstimatedIndexAtLaidOutCard(k, w, gap, count);
  }

  /** The desktop layout of the page: a 48 px gap (`md:gap-12`). With six
      venues and cards wider than 128 px, every card's requested scroll reads
      back as that card, and so does the clamped request when the request is
      within how far the strip can scroll. */
  lemma DesktopScrollReadsBack(s: Strip, k: int, innerWidth: real)
    requires 0 <= k < 6 && k < |s.children|
    requires s.children[0].rectWidth > 128.0
    requires s.children[k].offsetLeft == s.paddingLeft + k as real * (s.children[0].rectWidth + 48.0)
    requires innerWidth >= MobileBreakpoint
    ensures var cmd := ScrollToIndex(Some(s), k, innerWidth);
      && cmd.Some? && EstimatedIndex(cmd.value, FirstCardWidth(s), 6) == k
      && (cmd.value <= MaxScroll(s) ==>
            EstimatedIndex(Landing(s, cmd.value), FirstCardWidth(s), 6) == k)
  {
    AlignedScrollReadsBack(s, k, 48.0, innerWidth, 6);
  }

  /** Whatever the clamped request, the active card is at most the one
      read off the end of the scroll range. */
  lemma LandingAtMostEndCard(s: Strip, target: real, cardWidth: real, count: int)
    requires cardWidth > 0.0 && count >= 1 && MaxScroll(s) >= 0.0
    ensures EstimatedIndex(Landing(s, target), cardWidth, count)
         <= EstimatedIndex(MaxScroll(s), cardWidth, count)
  {
    EstimatedIndexMonotone(Landing(s, target), MaxScroll(s), cardWidth, count);
  }

  /** The page at a 1280 px viewport: cards 24vw = 307.2 px wide, 48 px apart,
      128 px of padding and a 10vw spacer give a scroll range of 1235.2 px.
      The end of that range reads as card 4, so no clamped scroll request
      can make card 5 (the sixth venue) active. */
  lemma Desktop1280LastCardUnreachable(s: Strip, target: real)
    requires MaxScroll(s) == 1235.2
    ensures EstimatedIndex(MaxScroll(s), 307.2, 6) == 4
    ensures EstimatedIndex(Landing(s, target), 307.2, 6) <= 4
  {
    LandingAtMostEndCard(s, target, 307.2, 6);
    assert 1235.2 / (307.2 + Gap) == 1235.2 / 339.2;
    assert 4.0 <= 1235.2 / 339.2 + 0.5 < 5.0;
    assert Round(1235.2 / 339.2) == 4;
  }

  /** The browser's state: the active card and the progress percentage, over a
      catalog of `count` venues. */
  class Carousel {
    const count: int
    var currentIndex: int
    var progress: real

    ghost predicate Valid()
      reads this
    {
      count >= 1 && 0 <= currentIndex < count && 0.0 <= progress <= 100.0
    }

    /** Both pieces of state start at 0. */
    constructor (count: int)
      requires count >= 1
      ensures Valid() && this.count == count
      ensures currentIndex == 0 && progress == 0.0
    {
      this.count := count;
      currentIndex := 0;
      progress := 0.0;
    }

    /** The prev button is disabled on the first card. */
    predicate PrevDisabled()
      reads this
    {
      currentIndex == 0
    }

    /** The next button is disabled on the last card. */
    predicate NextDisabled()
      reads this
    {
      currentIndex == count - 1
    }

    /** The scroll listener: recompute the progress, and the active card when
        the first card has a positive width. */
    method HandleScroll(strip: Option<Strip>)
      requires Valid()
      requires strip.Some? ==> MaxScroll(strip.value) > 0.0
      modifies this
      ensures Valid()
      ensures strip.None? ==> currentIndex == old(currentIndex) && progress == old(progress)
      ensures strip.Some? ==> progress == Progress(strip.value.scrollLeft, MaxScroll(strip.value))
      ensures strip.Some? && FirstCardWidth(strip.value) > 0.0 ==>
        currentIndex == EstimatedIndex(strip.value.scrollLeft, FirstCardWidth(strip.value), count)
      ensures strip.Some? && FirstCardWidth(strip.value) <= 0.0 ==> currentIndex == old(currentIndex)
    {
      if strip.None? {
        return;
      }
      var s := strip.value;
      var maxScroll := MaxScroll(s);
      progress := Progress(s.scrollLeft, maxScroll);
      var cardWidth := FirstCardWidth(s);
      if cardWidth > 0.0 {
        currentIndex := EstimatedIndex(s.scrollLeft, cardWidth, count);
      }
    }

    /** The next button: a scroll request for the following card, unless the
        last card is active. Exactly when it is disabled, it does nothing. */
    method NextVenue(strip: Option<Strip>, innerWidth: real) returns (cmd: Option<real>)
      requires Valid()
      ensures currentIndex < count - 1 ==> cmd == ScrollToIndex(strip, currentIndex + 1, innerWidth)
      ensures NextDisabled() ==> cmd == None
      ensures strip.Some? && |strip.value.children| >= count ==> (cmd.Some? <==> !NextDisabled())
    {
      if currentIndex < count - 1 {
        cmd := ScrollToIndex(strip, currentIndex + 1, innerWidth);
      } else {
        cmd := None;
      }
    }

    /** The prev button: a scroll request for the preceding card, unless the
        first card is active. Exactly when it is disabled, it does nothing. */
    method PrevVenue(strip: Option<Strip>, innerWidth: real) returns (cmd: Option<real>)
      requires Valid()
      ensures currentIndex > 0 ==> cmd == ScrollToIndex(strip, currentIndex - 1, innerWidth)
      ensures PrevDisabled() ==> cmd == None
      ensures strip.Some? && |strip.value.children| >= count ==> (cmd.Some? <==> !PrevDisabled())
    {
      if currentIndex > 0 {
        cmd := ScrollToIndex(strip, currentIndex - 1, innerWidth);
      } else {
        cmd := None;
      }
    }
  }
}
