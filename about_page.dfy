/** The small interaction rules of the About page (public/js/about-me.js)
    outside the marquee: the side panel's Tab focus trap, the timeline's
    scroll arrows and scroll step, and the header blur on scroll. */
module AboutPage {
  import opened Wrappers
  import Cyclic

  // ---------------------------------------------------------------------
  // Focus trap
  // ---------------------------------------------------------------------

  /** What a keydown inside the document does to the side panel. */
  datatype KeyOutcome =
    | NoEffect
    | ClosePanel
    /** Focus moves to the focusable element at `index` and the browser's
        own Tab handling is prevented. */
    | WrapFocus(index: nat)

  /** The keydown handler. `focusableCount` is the number of focusable
      elements inside the panel and `active` the position among them of
      the focused element, `None` when focus is elsewhere. */
  function PanelKeyDown(panelHidden: bool, key: string, shiftKey: bool,
                        focusableCount: nat, active: Option<nat>): (r: KeyOutcome)
    ensures r.WrapFocus? ==> r.index < focusableCount
  {
    if panelHidden then NoEffect
    else if key == "Escape" then ClosePanel
    else if key == "Tab" && focusableCount > 0 then
      if shiftKey && active == Some(0) then WrapFocus(focusableCount - 1)
      else if !shiftKey && active == Some(focusableCount - 1) then WrapFocus(0)
      else NoEffect
    else NoEffect
  }

  /** Tab wraps exactly at the two ends of the panel, and the wrap is the
      cyclic step: Shift+Tab from the first element goes to the previous
      one around the cycle, Tab from the last to the next. Everywhere
      else the browser moves focus itself. */
  lemma FocusTrapWraps(shiftKey: bool, focusableCount: nat, active: Option<nat>)
    requires focusableCount > 0
    ensures var r := PanelKeyDown(false, "Tab", shiftKey, focusableCount, active);
      && (r.WrapFocus? <==>
            active.Some? && active.value == (if shiftKey then 0 else focusableCount - 1))
      && (r.WrapFocus? ==>
            r.index == (if shiftKey then Cyclic.Prev(active.value, focusableCount)
                        else Cyclic.Next(active.value, focusableCount)))
  {
  }

  /** A hidden panel ignores every key, and Escape closes an open one. */
  lemma PanelKeysWhenHiddenOrEscape(key: string, shiftKey: bool, focusableCount: nat, active: Option<nat>)
    ensures PanelKeyDown(true, key, shiftKey, focusableCount, active) == NoEffect
    ensures PanelKeyDown(false, "Escape", shiftKey, focusableCount, active) == ClosePanel
  {
  }

  // ---------------------------------------------------------------------
  // Timeline scroll arrows
  // ---------------------------------------------------------------------

  /** Which arrows `updateScrollIndicators` hides. */
  datatype Arrows = Arrows(leftHidden: bool, rightHidden: bool)

  /** `updateScrollIndicators` with the scroller's `scrollLeft`,
      `scrollWidth` and `clientWidth`; one pixel of slack at the end. */
  function ScrollIndicators(scrollLeft: real, scrollWidth: real, clientWidth: real): (a: Arrows)
    ensures a.leftHidden <==> scrollLeft == 0.0
    ensures a.rightHidden <==> scrollLeft + clientWidth + 1.0 >= scrollWidth
  {
    Arrows(scrollLeft == 0.0, scrollLeft >= scrollWidth - clientWidth - 1.0)
  }

  /** Content that fits (within the pixel of slack) hides both arrows at
      the start; content that overflows shows the right arrow there. */
  lemma ArrowsAtStart(scrollWidth: real, clientWidth: real)
    ensures var a := ScrollIndicators(0.0, scrollWidth, clientWidth);
      a.leftHidden && (a.rightHidden <==> scrollWidth <= clientWidth + 1.0)
  {
  }

  /** Scrolling further right never shows the right arrow again. */
  lemma RightArrowStaysHidden(left1: real, left2: real, scrollWidth: real, clientWidth: real)
    requires left1 <= left2
    requires ScrollIndicators(left1, scrollWidth, clientWidth).rightHidden
    ensures ScrollIndicators(left2, scrollWidth, clientWidth).rightHidden
  {
  }

  /** `getScrollAmount()`: pixels per arrow click for a viewport width. */
  function ScrollAmount(viewportWidth: int): (px: int)
    ensures px == 200 || px == 250 || px == 300
    ensures px == 200 <==> viewportWidth < 640
    ensures px == 300 <==> viewportWidth >= 768
  {
    if viewportWidth < 640 then 200 else if viewportWidth < 768 then 250 else 300
  }

  /** A wider viewport never scrolls by less. */
  lemma ScrollAmountMonotone(w1: int, w2: int)
    requires w1 <= w2
    ensures ScrollAmount(w1) <= ScrollAmount(w2)
  {
  }

  // ---------------------------------------------------------------------
  // Header blur
  // ---------------------------------------------------------------------

  /** Pages scrolled no further than this keep a clear header. */
  const BlurThreshold: real := 50.0

  /** Whether the header is blurred after a scroll event to `scrollTop`,
      from the previous offset and blur. */
  function BlurAfter(blurred: bool, lastScrollTop: real, scrollTop: real): bool {
    if scrollTop > lastScrollTop && scrollTop > BlurThreshold then false
    else if scrollTop < lastScrollTop && scrollTop > BlurThreshold then true
    else if scrollTop <= BlurThreshold then false
    else blurred
  }

  /** The four cases of the handler: near the top the header is clear;
      above the threshold scrolling up blurs it, scrolling down clears it,
      and an event without movement leaves it as it was. */
  lemma BlurCases(blurred: bool, lastScrollTop: real, scrollTop: real)
    ensures scrollTop <= BlurThreshold ==> !BlurAfter(blurred, lastScrollTop, scrollTop)
    ensures scrollTop > BlurThreshold && scrollTop != lastScrollTop ==>
      (BlurAfter(blurred, lastScrollTop, scrollTop) <==> scrollTop < lastScrollTop)
    ensures scrollTop > BlurThreshold && scrollTop == lastScrollTop ==>
      BlurAfter(blurred, lastScrollTop, scrollTop) == blurred
  {
  }

  /** The page-level `lastScrollTop` and the header's `header-blur` class. */
  class HeaderBlur {
    var lastScrollTop: real
    var blurred: bool

    /** Only a header scrolled past 50 px is blurred. */
    ghost predicate Valid()
      reads this
    {
      blurred ==> lastScrollTop > BlurThreshold
    }

    constructor ()
      ensures Valid() && lastScrollTop == 0.0 && !blurred
    {
      lastScrollTop := 0.0;
      blurred := false;
    }

    /** The `scroll` listener; `scrollTop` is the page offset it reads. */
    method OnScroll(scrollTop: real)
      requires Valid()
      modifies this
      ensures Valid()
      ensures lastScrollTop == scrollTop
      ensures blurred == BlurAfter(old(blurred), old(lastScrollTop), scrollTop)
    {
      if scrollTop > lastScrollTop && scrollTop > BlurThreshold {
        blurred := false;
      } else if scrollTop < lastScrollTop && scrollTop > BlurThreshold {
        blurred := true;
      } else if scrollTop <= BlurThreshold {
        blurred := false;
      }
      lastScrollTop := scrollTop;
    }
  }

  /** The blur after a whole run of scroll events from `(blurred, last)`. */
  function BlurAfterAll(blurred: bool, last: real, offsets: seq<real>): bool
    decreases |offsets|
  {
    if offsets == [] then blurred
    else BlurAfterAll(BlurAfter(blurred, last, offsets[0]), offsets[0], offsets[1..])
  }

  /** After any run of scroll events that ends with a move, the header is
      blurred exactly when that last move went up and ended above the
      threshold: earlier history does not matter. */
  lemma {:induction false} BlurFollowsLastMove(blurred: bool, last: real, offsets: seq<real>)
    requires |offsets| >= 1
    requires offsets[|offsets| - 1] != (if |offsets| == 1 then last else offsets[|offsets| - 2])
    ensures var prev := if |offsets| == 1 then last else offsets[|offsets| - 2];
      var t := offsets[|offsets| - 1];
      BlurAfterAll(blurred, last, offsets) <==> (t > BlurThreshold && t < prev)
    decreases |offsets|
  {
    if |offsets| > 1 {
      BlurFollowsLastMove(BlurAfter(blurred, last, offsets[0]), offsets[0], offsets[1..]);
      assert offsets[1..][|offsets[1..]| - 1] == offsets[|offsets| - 1];
      if |offsets| > 2 {
        assert offsets[1..][|offsets[1..]| - 2] == offsets[|offsets| - 2];
      }
    }
  }
}
