/** The rest of public/js/main.js: the video clock text, the suggestion
    form's validation and its e-mail pattern, the hero slider, the client
    comment carousel and the side panel. */
module SiteMain {
  import opened Wrappers
  import opened JsText
  import Cyclic

  // ---------------------------------------------------------------------
  // formatTime
  // ---------------------------------------------------------------------

  /** A JavaScript number of seconds: `NaN` or a finite value. */
  datatype Seconds = NaN | Finite(value: real)

  /** `Math.trunc`: rounds toward zero. */
  function Trunc(x: real): int {
    if x >= 0.0 then x.Floor else -((-x).Floor)
  }

  /** JavaScript's `x % 60` on numbers: the remainder keeps the sign of
      `x`, unlike Dafny's Euclidean `%`. */
  function Rem60(x: real): (r: real)
    ensures x >= 0.0 ==> 0.0 <= r < 60.0
    ensures x < 0.0 ==> -60.0 < r <= 0.0
  {
    x - 60.0 * (Trunc(x / 60.0) as real)
  }

  /** `formatTime(seconds)`: whole minutes, a colon and the whole seconds
      within the minute padded to two digits. */
  function FormatTime(t: Seconds): string {
    match t
    case NaN => "0:00"
    case Finite(x) =>
      IntToString((x / 60.0).Floor) + ":" + PadTwo(IntToString(Rem60(x).Floor))
  }

  /** For a time of at least zero, the minutes and seconds printed are the
      quotient and remainder of the whole seconds by 60. */
  lemma FormatTimeSplitsMinutes(x: real)
    requires x >= 0.0
    ensures var total := x.Floor;
      FormatTime(Finite(x)) == NatToString(total / 60) + ":" + PadTwo(NatToString(total % 60))
  {
    var total := x.Floor;
    var q := total / 60;
    assert q * 60 <= total < q * 60 + 60;
    assert (x / 60.0).Floor == q;
    assert Trunc(x / 60.0) == q;
    assert Rem60(x) == x - 60.0 * (q as real);
    assert Rem60(x).Floor == total - q * 60;
  }

  /** The seconds field is always two digits for a value under 60. */
  lemma PadTwoOfSeconds(s: nat)
    requires s < 60
    ensures var p := PadTwo(NatToString(s));
      |p| == 2 && IsDigits(p) && DecimalValue(p) == s
  {
    var d := NatToString(s);
    DecimalRoundTrip(s);
    if s < 10 {
      var p := "0" + d;
      assert p[..1] == "0";
      assert DecimalValue(p[..1]) == 0;
    } else {
      assert NatToString(s / 10) == [DigitChar(s / 10)];
    }
  }

  /** Reading the text back gives the time: the part before the colon is
      the minutes, the two digits after it the seconds under 60, and
      together they are the whole seconds. */
  lemma FormatTimeReadsBack(x: real)
    requires x >= 0.0
    ensures var r := FormatTime(Finite(x));
      && |r| >= 4 && r[|r| - 3] == ':'
      && IsDigits(r[..|r| - 3]) && IsDigits(r[|r| - 2..])
      && DecimalValue(r[|r| - 2..]) < 60
      && DecimalValue(r[..|r| - 3]) * 60 + DecimalValue(r[|r| - 2..]) == x.Floor
  {
    var total := x.Floor;
    FormatTimeSplitsMinutes(x);
    ClockReadsBack(total);
    assert FormatTime(Finite(x)) == NatToString(total / 60) + ":" + PadTwo(NatToString(total % 60));
  }

  /** A time that is not a number shows as zero seconds would. */
  lemma NaNShowsAsZero()
    ensures FormatTime(NaN) == FormatTime(Finite(0.0))
  {
    FormatTimeSplitsMinutes(0.0);
    assert (0.0).Floor == 0;
    assert NatToString(0) == "0";
    assert FormatTime(Finite(0.0)) == "0" + ":" + PadTwo("0");
  }

  /** The clock text of a whole number of seconds, read back. */
  lemma ClockReadsBack(total: nat)
    ensures var r := NatToString(total / 60) + ":" + PadTwo(NatToString(total % 60));
      && |r| >= 4 && r[|r| - 3] == ':'
      && IsDigits(r[..|r| - 3]) && IsDigits(r[|r| - 2..])
      && DecimalValue(r[|r| - 2..]) < 60
      && DecimalValue(r[..|r| - 3]) * 60 + DecimalValue(r[|r| - 2..]) == total
  {
    var m := NatToString(total / 60);
    var p := PadTwo(NatToString(total % 60));
    PadTwoOfSeconds(total % 60);
    DecimalRoundTrip(total / 60);
    ColonReadsBack(m, p);
  }

  /** The two fields of `m + ":" + p`, for a two-character `p`, read back. */
  lemma ColonReadsBack(m: string, p: string)
    requires |m| >= 1 && IsDigits(m) && |p| == 2 && IsDigits(p)
    ensures var r := m + ":" + p;
      && |r| >= 4 && r[|r| - 3] == ':'
      && r[..|r| - 3] == m && r[|r| - 2..] == p
  {
  }

  // ---------------------------------------------------------------------
  // The e-mail pattern
  // ---------------------------------------------------------------------

  /** The class `[^\s@]` of the pattern, over a whole string. */
  predicate NoSpaceOrAt(s: string) {
    forall i :: 0 <= i < |s| ==> !IsSpace(s[i]) && s[i] != '@'
  }

  /** One way of matching `^[^\s@]+@[^\s@]+\.[^\s@]+$`: the `@` at `at`
      and the escaped dot at `dot`, with a non-empty run of the class
      before, between and after them. */
  ghost predicate PatternSplit(s: string, at: int, dot: int) {
    && 0 < at && at + 1 < dot && dot + 1 < |s|
    && s[at] == '@' && s[dot] == '.'
    && NoSpaceOrAt(s[..at]) && NoSpaceOrAt(s[at + 1..dot]) && NoSpaceOrAt(s[dot + 1..])
  }

  /** `/^[^\s@]+@[^\s@]+\.[^\s@]+$/.test(s)`, stated as the regular
      expression reads. */
  ghost predicate MatchesEmailPattern(s: string) {
    exists at, dot :: PatternSplit(s, at, dot)
  }

  predicate NoSpace(s: string) {
    forall i :: 0 <= i < |s| ==> !IsSpace(s[i])
  }

  /** A dot somewhere other than the first or last character. */
  predicate HasInnerDot(d: string) {
    |d| >= 3 && '.' in d[1..|d| - 1]
  }

  /** The test as a decision: no white space, exactly one `@` with
      something before it, and a domain with an inner dot. */
  predicate IsEmail(s: string) {
    var parts := Split(s, '@');
    |parts| == 2 && |parts[0]| > 0 && NoSpace(s) && HasInnerDot(parts[1])
  }

  /** A string of two pieces joined by `@`, neither holding an `@`. */
  lemma SplitAtOnce(a: string, b: string)
    requires '@' !in a && '@' !in b
    ensures Split(a + ['@'] + b, '@') == [a, b]
  {
    SplitJoin([a, b], '@');
    assert [a, b][1..] == [b];
  }

  /** Every string the decision accepts matches the pattern. */
  lemma IsEmailMatches(s: string)
    requires IsEmail(s)
    ensures MatchesEmailPattern(s)
  {
    var parts := Split(s, '@');
    var a, b := parts[0], parts[1];
    assert parts[1..] == [b];
    assert Join(parts[1..], '@') == b;
    assert s == a + ['@'] + b;
    var inner := b[1..|b| - 1];
    var k :| 0 <= k < |inner| && inner[k] == '.';
    var at, dot := |a|, |a| + 2 + k;
    assert s[..at] == a;
    assert s[at + 1..dot] == b[..k + 1];
    assert s[dot + 1..] == b[k + 2..];
    assert PatternSplit(s, at, dot);
  }

  /** Every match of the pattern is accepted by the decision. */
  lemma MatchIsEmail(s: string, at: int, dot: int)
    requires PatternSplit(s, at, dot)
    ensures IsEmail(s)
  {
    var a, b := s[..at], s[at + 1..];
    var mid, tail := s[at + 1..dot], s[dot + 1..];
    assert b == mid + ['.'] + tail;
    assert '@' !in a;
    assert '@' !in b;
    assert s == s[..at] + s[at..];
    assert s[at..] == [s[at]] + s[at + 1..];
    assert s == a + ['@'] + b;
    SplitAtOnce(a, b);
    assert b[1..|b| - 1][dot - at - 2] == '.';
    forall i | 0 <= i < |s|
      ensures !IsSpace(s[i])
    {
      if i < at {
        assert s[i] == a[i];
      } else if at < i < dot {
        assert s[i] == mid[i - at - 1];
      } else if dot < i {
        assert s[i] == tail[i - dot - 1];
      }
    }
  }

  /** The decision agrees with the regular expression on every string. */
  lemma EmailPatternIff(s: string)
    ensures IsEmail(s) <==> MatchesEmailPattern(s)
  {
    if IsEmail(s) {
      IsEmailMatches(s);
    }
    if MatchesEmailPattern(s) {
      var at, dot :| PatternSplit(s, at, dot);
      MatchIsEmail(s, at, dot);
    }
  }

  // ---------------------------------------------------------------------
  // Suggestion form validation
  // ---------------------------------------------------------------------

  /** One `FormData` entry. */
  datatype Entry = Entry(key: string, value: string)

  /** The hidden form name and the honeypot field are never checked. */
  predicate Skipped(key: string) {
    key == "form-name" || key == "bot-field"
  }

  /** An entry the loop reports as required: checked, and blank after
      `trim()`. */
  predicate Missing(e: Entry) {
    !Skipped(e.key) && |Trim(e.value)| == 0
  }

  /** The keys the loop reports, in entry order. */
  function MissingKeys(entries: seq<Entry>): (r: seq<string>)
    ensures |r| <= |entries|
  {
    if |entries| == 0 then []
    else
      var last := entries[|entries| - 1];
      MissingKeys(entries[..|entries| - 1]) + (if Missing(last) then [last.key] else [])
  }

  /** `formData.get(key)`: the value of the first entry with that key. */
  function FirstValue(entries: seq<Entry>, key: string): (r: Option<string>)
    ensures r.Some? <==> exists i :: 0 <= i < |entries| && entries[i].key == key
  {
    if |entries| == 0 then None
    else if entries[0].key == key then Some(entries[0].value)
    else FirstValue(entries[1..], key)
  }

  /** The e-mail check: a non-empty `email` value whose trim does not
      match the pattern. */
  predicate EmailRejected(entries: seq<Entry>) {
    match FirstValue(entries, "email")
    case None => false
    case Some(v) => |v| > 0 && !IsEmail(Trim(v))
  }

  /** The submission goes ahead: nothing missing and no rejected e-mail. */
  predicate Accepted(entries: seq<Entry>) {
    (forall i :: 0 <= i < |entries| ==> !Missing(entries[i])) && !EmailRejected(entries)
  }

  /** The reported keys are exactly the checked keys with a blank value:
      none is skipped, and there are none exactly when nothing is
      missing. */
  lemma {:induction false} MissingKeysExact(entries: seq<Entry>)
    ensures forall k :: k in MissingKeys(entries) ==> !Skipped(k)
    ensures |MissingKeys(entries)| == 0 <==> forall i :: 0 <= i < |entries| ==> !Missing(entries[i])
  {
    if |entries| > 0 {
      var init := entries[..|entries| - 1];
      MissingKeysExact(init);
      assert forall i :: 0 <= i < |init| ==> init[i] == entries[i];
    }
  }

  /** The loop over the form's entries: every checked field that is
      blank is reported. */
  method CheckRequired(entries: seq<Entry>) returns (isValid: bool, errors: seq<string>)
    ensures errors == MissingKeys(entries)
    ensures isValid <==> forall i :: 0 <= i < |entries| ==> !Missing(entries[i])
  {
    isValid := true;
    errors := [];
    for i := 0 to |entries|
      invariant errors == MissingKeys(entries[..i])
      invariant isValid <==> |errors| == 0
    {
      assert entries[..i + 1][..i] == entries[..i];
      var e := entries[i];
      if !Skipped(e.key) && |Trim(e.value)| == 0 {
        isValid := false;
        errors := errors + [e.key];
      }
    }
    assert entries[..|entries|] == entries;
    MissingKeysExact(entries);
  }

  /** The submit handler's checks. `errors` are the keys shown as required,
      `emailError` whether the e-mail message is shown. */
  method ValidateSubmission(entries: seq<Entry>) returns (isValid: bool, errors: seq<string>, emailError: bool)
    ensures isValid <==> Accepted(entries)
    ensures errors == MissingKeys(entries)
    ensures emailError <==> EmailRejected(entries)
  {
    isValid, errors := CheckRequired(entries);
    var email := FirstValue(entries, "email");
    emailError := email.Some? && |email.value| > 0 && !IsEmail(Trim(email.value));
    if emailError {
      isValid := false;
    }
  }

  // ---------------------------------------------------------------------
  // Hero slider
  // ---------------------------------------------------------------------

  datatype Slide = Slide(title: string, image: string)

  /** The three slides of the hero box. */
  const Slides: seq<Slide> := [
    Slide("Business Pod", "images/orange-sofa.png"),
    Slide("Business Insights", "images/business-insights.png"),
    Slide("Success Stories", "images/success-stories.png")
  ]

  /** The slide index after a click: `next` moves forward, any other
      direction back. */
  function SlideAfter(i: nat, direction: string): (r: nat)
    requires i < |Slides|
    ensures r < |Slides|
  {
    if direction == "next" then Cyclic.Next(i, |Slides|) else Cyclic.Prev(i, |Slides|)
  }

  /** Next then previous, or previous then next, comes back; three nexts
      go all the way round. */
  lemma SlideDirectionsUndo(i: nat)
    requires i < |Slides|
    ensures SlideAfter(SlideAfter(i, "next"), "prev") == i
    ensures SlideAfter(SlideAfter(i, "prev"), "next") == i
    ensures SlideAfter(SlideAfter(SlideAfter(i, "next"), "next"), "next") == i
  {
    Cyclic.PrevUndoesNext(i, |Slides|);
    Cyclic.NextUndoesPrev(i, |Slides|);
    Cyclic.FullCycle(i, |Slides|);
  }

  /** `currentSlide` and the hero image, which fades out on a click and
      shows the then current slide when the 300 ms timer fires. */
  class HeroSlider {
    var currentSlide: nat
    var imageSrc: string
    var imageAlt: string
    var imageVisible: bool
    var pendingSwaps: nat

    ghost predicate Valid()
      reads this
    {
      currentSlide < |Slides|
    }

    /** The page as loaded, showing the image its markup gives. */
    constructor (src: string, alt: string)
      ensures Valid() && currentSlide == 0 && imageSrc == src && imageAlt == alt && imageVisible && pendingSwaps == 0
    {
      currentSlide := 0;
      imageSrc, imageAlt := src, alt;
      imageVisible := true;
      pendingSwaps := 0;
    }

    /** `updateSlide(direction)` up to its timer. */
    method UpdateSlide(direction: string)
      requires Valid()
      modifies this
      ensures Valid()
      ensures currentSlide == SlideAfter(old(currentSlide), direction)
      ensures !imageVisible && pendingSwaps == old(pendingSwaps) + 1
      ensures imageSrc == old(imageSrc) && imageAlt == old(imageAlt)
    {
      if direction == "next" {
        currentSlide := (currentSlide + 1) % |Slides|;
      } else {
        currentSlide := (currentSlide - 1 + |Slides|) % |Slides|;
      }
      imageVisible := false;
      pendingSwaps := pendingSwaps + 1;
    }

    /** The timer: the image takes the slide current when it fires. */
    method OnSwapTimer()
      requires Valid() && pendingSwaps > 0
      modifies this
      ensures Valid() && currentSlide == old(currentSlide)
      ensures imageSrc == Slides[currentSlide].image && imageAlt == Slides[currentSlide].title
      ensures imageVisible && pendingSwaps == old(pendingSwaps) - 1
    {
      imageSrc := Slides[currentSlide].image;
      imageAlt := Slides[currentSlide].title;
      imageVisible := true;
      pendingSwaps := pendingSwaps - 1;
    }
  }

  // ---------------------------------------------------------------------
  // Client comment carousel
  // ---------------------------------------------------------------------

  /** The auto-rotate timers: how many intervals run, whether
      `autoRotateInterval` holds an id at all (it is never set back), whether
      the interval it names still runs, and whether the pointer is over the
      comments section. */
  datatype Rotation = Rotation(running: nat, handleSet: bool, handleLive: bool, hovered: bool)

  /** The stored id only names a running interval. */
  predicate RotationWellFormed(r: Rotation) {
    r.handleLive ==> r.handleSet && r.running >= 1
  }

  /** `startAutoRotate()`: a new interval, whose id replaces the stored one. */
  function StartRotation(r: Rotation): (q: Rotation)
    ensures RotationWellFormed(q)
  {
    r.(running := r.running + 1, handleSet := true, handleLive := true)
  }

  /** `clearInterval(autoRotateInterval)`. */
  function ClearRotation(r: Rotation): (q: Rotation)
    requires RotationWellFormed(r)
    ensures RotationWellFormed(q)
  {
    if r.handleLive then r.(running := r.running - 1, handleLive := false) else r
  }

  /** An indicator click restarts the timer when an id was ever stored. */
  function ClickRotation(r: Rotation): (q: Rotation)
    requires RotationWellFormed(r)
    ensures RotationWellFormed(q)
  {
    if r.handleSet then StartRotation(ClearRotation(r)) else r
  }

  /** `mouseenter` as written: the interval stops but its id stays stored. */
  function EnterRotation(r: Rotation): (q: Rotation)
    requires RotationWellFormed(r)
    ensures RotationWellFormed(q)
  {
    ClearRotation(r).(hovered := true)
  }

  /** `mouseenter` with the stored id dropped once its interval stops. */
  function EnterClearingRotation(r: Rotation): (q: Rotation)
    requires RotationWellFormed(r)
    ensures RotationWellFormed(q)
  {
    ClearRotation(r).(handleSet := false, hovered := true)
  }

  /** `mouseleave`. */
  function LeaveRotation(r: Rotation): (q: Rotation)
    ensures RotationWellFormed(q)
  {
    StartRotation(r).(hovered := false)
  }

  /** What the carousel means to keep: no interval while the pointer is
      over the section, exactly the stored one otherwise. */
  predicate OneRotation(r: Rotation) {
    && (r.hovered ==> r.running == 0 && !r.handleSet && !r.handleLive)
    && (!r.hovered ==> r.running == 1 && r.handleSet && r.handleLive)
  }

  /** As written: hovering, clicking an indicator and leaving again leaves
      two intervals running, one of them no longer reachable through the
      stored id, so the comments advance twice per period from then on. */
  lemma HoverClickLeaveDoublesRotation()
    ensures var start := StartRotation(Rotation(0, false, false, false));
      && OneRotation(start)
      && !OneRotation(ClickRotation(EnterRotation(start)))
      && LeaveRotation(ClickRotation(EnterRotation(start))).running == 2
  {
  }

  /** Corrected: with the id dropped on `mouseenter`, every pointer event
      in the browser's order (enter while outside, leave while over) and
      every indicator click keeps exactly one interval outside the section
      and none over it. */
  lemma ClearingEnterKeepsOneRotation(r: Rotation)
    requires OneRotation(r)
    ensures RotationWellFormed(r)
    ensures OneRotation(ClickRotation(r))
    ensures !r.hovered ==> OneRotation(EnterClearingRotation(r))
    ensures r.hovered ==> OneRotation(LeaveRotation(r))
  {
  }

  /** The comment cards, the indicators' active flags and the timers. */
  class CommentCarousel {
    const cardCount: nat
    /** One flag per `.comment-indicator` element: whether it has the
        active styling. */
    const indicators: array<bool>
    var current: nat
    /** The wrapper's `translateX`, in percent. */
    var offset: int
    var rotation: Rotation

    ghost predicate Valid()
      reads this, indicators
    {
      && cardCount > 0
      && offset == -(current * 100)
      && (forall i :: 0 <= i < indicators.Length ==> (indicators[i] <==> i == current))
      && RotationWellFormed(rotation)
    }

    /** `updateIndicators(index)`: exactly the indicator at `index` is active. */
    method UpdateIndicators(index: nat)
      modifies indicators
      ensures forall i :: 0 <= i < indicators.Length ==> (indicators[i] <==> i == index)
    {
      for i := 0 to indicators.Length
        invariant forall j :: 0 <= j < i ==> (indicators[j] <==> j == index)
      {
        indicators[i] := i == index;
      }
    }

    /** `showComment(index)`. */
    method ShowComment(index: nat)
      requires cardCount > 0 && RotationWellFormed(rotation)
      modifies this, indicators
      ensures Valid() && current == index
      ensures rotation == old(rotation)
    {
      offset := -(index * 100);
      current := index;
      UpdateIndicators(index);
    }

    /** Setting up the carousel on a page with `cards` comment cards and
        `indicatorCount` indicators: the first comment, then auto-rotation. */
    constructor (cards: nat, indicatorCount: nat)
      requires cards > 0
      ensures Valid() && cardCount == cards && indicators.Length == indicatorCount
      ensures current == 0 && OneRotation(rotation)
      ensures fresh(indicators)
    {
      cardCount := cards;
      indicators := new bool[indicatorCount];
      current := 0;
      offset := 0;
      rotation := Rotation(0, false, false, false);
      new;
      ShowComment(0);
      rotation := StartRotation(rotation);
    }

    /** An auto-rotate tick: the next comment, wrapping at the last card. */
    method OnRotateTimer()
      requires Valid() && rotation.running > 0
      modifies this, indicators
      ensures Valid() && current == Cyclic.Next(old(current), cardCount)
      ensures rotation == old(rotation)
    {
      ShowComment((current + 1) % cardCount);
    }

    /** A click on the indicator at `index`. */
    method OnIndicatorClick(index: nat)
      requires Valid()
      modifies this, indicators
      ensures Valid() && current == index
      ensures rotation == ClickRotation(old(rotation))
    {
      ShowComment(index);
      if rotation.handleSet {
        rotation := ClearRotation(rotation);
        rotation := StartRotation(rotation);
      }
    }

    /** `mouseenter` on the comments section, as written. */
    method OnMouseEnter()
      requires Valid()
      modifies this
      ensures Valid() && current == old(current)
      ensures rotation == EnterRotation(old(rotation))
    {
      rotation := ClearRotation(rotation).(hovered := true);
    }

    /** `mouseenter` that also forgets the stopped interval's id. */
    method OnMouseEnterClearingHandle()
      requires Valid()
      modifies this
      ensures Valid() && current == old(current)
      ensures rotation == EnterClearingRotation(old(rotation))
    {
      rotation := ClearRotation(rotation).(handleSet := false, hovered := true);
    }

    /** `mouseleave` on the comments section. */
    method OnMouseLeave()
      requires Valid()
      modifies this
      ensures Valid() && current == old(current)
      ensures rotation == LeaveRotation(old(rotation))
    {
      rotation := StartRotation(rotation).(hovered := false);
    }
  }

  // ---------------------------------------------------------------------
  // Side panel
  // ---------------------------------------------------------------------

  /** The `open` class on the hamburger, the panel and the overlay, and
      the body's `no-scroll` class. */
  class SidePanel {
    var hamburgerOpen: bool
    var panelOpen: bool
    var overlayOpen: bool
    var noScroll: bool

    /** The four classes always move together. */
    ghost predicate Valid()
      reads this
    {
      hamburgerOpen == panelOpen == overlayOpen == noScroll
    }

    constructor ()
      ensures Valid() && !panelOpen
    {
      hamburgerOpen, panelOpen, overlayOpen, noScroll := false, false, false, false;
    }

    /** `applyPanelState(isOpen)`. */
    method ApplyPanelState(isOpen: bool)
      modifies this
      ensures Valid() && panelOpen == isOpen
    {
      hamburgerOpen := isOpen;
      panelOpen := isOpen;
      overlayOpen := isOpen;
      noScroll := isOpen;
    }

    /** `togglePanel()`: the hamburger's own class decides. */
    method TogglePanel()
      requires Valid()
      modifies this
      ensures Valid() && panelOpen == !old(panelOpen)
    {
      var nextState := !hamburgerOpen;
      ApplyPanelState(nextState);
    }

    /** `closePanelFn()`: the close button and the overlay. */
    method ClosePanel()
      modifies this
      ensures Valid() && !panelOpen
    {
      ApplyPanelState(false);
    }

    /** `handleNavClick` as the link listeners call it. The call is a
        plain one, so `this` is not the clicked link, and
        `this.classList.add('active')` throws a TypeError once every link
        of `links` has lost `active`. The handler stops there: no link is
        active afterwards and an open panel stays open. `threw` reports
        the abort. */
    method HandleNavClickAsWritten(links: array<bool>, clicked: nat) returns (threw: bool)
      requires Valid() && clicked < links.Length
      modifies links
      ensures threw
      ensures forall i :: 0 <= i < links.Length ==> !links[i]
      ensures !links[clicked]
      ensures Valid() && panelOpen == old(panelOpen)
    {
      for i := 0 to links.Length
        modifies links
        invariant forall j :: 0 <= j < i ==> !links[j]
      {
        links[i] := false;
      }
      threw := true;
    }

    /** Corrected `handleNavClick`, called with the clicked link as `this`
        (`handleNavClick.call(this, e, links)`): the clicked link of
        `links` becomes the only active one, and an open panel closes. */
    method HandleNavClick(links: array<bool>, clicked: nat)
      requires Valid() && clicked < links.Length
      modifies this, links
      ensures Valid() && !panelOpen
      ensures forall i :: 0 <= i < links.Length ==> (links[i] <==> i == clicked)
    {
      for i := 0 to links.Length
        modifies links
        invariant forall j :: 0 <= j < i ==> !links[j]
      {
        links[i] := false;
      }
      links[clicked] := true;
      if panelOpen {
        ClosePanel();
      }
    }
  }
}
