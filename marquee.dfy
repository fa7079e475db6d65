/** The seamless logo marquee of the About page (public/js/about-me.js,
    the second IIFE): a track of original items followed by two cloned
    sets, scrolled left by a fixed step per animation frame and wrapped
    by the width of one set.

    Layout reads (bounding boxes, computed style, `parseFloat`) become
    parameters: each measurement receives the width of every child of the
    track. Each animation-frame or timer callback is a method call; the
    callbacks that are waiting to run are counted in `pending*` fields. */
module Marquee {
  import opened JsText
  import opened Wrappers

  /** Pixels moved per animation frame. */
  const Speed: real := 0.5
  /** Number of complete copies appended after the originals. */
  const CloneSets: nat := 2
  /** A measured set width at or below this is a measurement failure. */
  const MinSetWidth: real := 50.0

  // ---------------------------------------------------------------------
  // getGap
  // ---------------------------------------------------------------------

  /** The gap used when the stylesheet gives none: 64 px from 1024 px of
      viewport width, 48 px from 768 px, 32 px below. */
  function FallbackGap(viewportWidth: int): (g: real)
    ensures g == 64.0 || g == 48.0 || g == 32.0
    ensures g == 64.0 <==> viewportWidth >= 1024
    ensures g == 32.0 <==> viewportWidth < 768
  {
    if viewportWidth >= 1024 then 64.0 else if viewportWidth >= 768 then 48.0 else 32.0
  }

  /** What reading the track's computed style produced. `parsed` is
      `parseFloat` of the effective gap text and `fontSize` is
      `parseFloat(style.fontSize)`; `None` stands for NaN. */
  datatype GapRead =
    | NoTrack
    | StyleThrew
    | Style(gap: string, columnGap: string, parsed: Option<real>, fontSize: Option<real>)

  /** `style.gap || style.columnGap || '0'`. */
  function EffectiveGapText(gap: string, columnGap: string): string {
    if gap != "" then gap else if columnGap != "" then columnGap else "0"
  }

  /** Gap texts that mean "no gap set". */
  predicate IsUnsetGap(text: string) {
    text == "" || text == "normal" || text == "0" || text == "0px"
  }

  /** Pixels per unit of the gap text: `rem` is tested before `em`, so a
      `rem` gap never uses the element's font size. */
  function UnitScale(text: string, fontSize: Option<real>): real {
    if Includes(text, "rem") then 16.0
    else if Includes(text, "em") then
      (match fontSize case Some(f) => if f != 0.0 then f else 16.0 case None => 16.0)
    else 1.0
  }

  /** A style read that yields a usable length. */
  predicate GivesLength(read: GapRead) {
    read.Style? && !IsUnsetGap(EffectiveGapText(read.gap, read.columnGap)) && read.parsed.Some?
  }

  /** `getGap()`. */
  function GetGap(read: GapRead, viewportWidth: int): (g: real)
    ensures !GivesLength(read) ==> g == FallbackGap(viewportWidth)
    ensures GivesLength(read) ==>
      g == read.parsed.value * UnitScale(EffectiveGapText(read.gap, read.columnGap), read.fontSize)
  {
    match read
    case NoTrack => FallbackGap(viewportWidth)
    case StyleThrew => FallbackGap(viewportWidth)
    case Style(gap, columnGap, parsed, fontSize) =>
      var text := EffectiveGapText(gap, columnGap);
      if IsUnsetGap(text) then FallbackGap(viewportWidth)
      else match parsed
        case None => FallbackGap(viewportWidth)
        case Some(num) =>
          if Includes(text, "rem") then num * 16.0
          else if Includes(text, "em") then num * UnitScale(text, fontSize)
          else num
  }

  /** Every `rem` text also contains `em`: the order of the two tests is
      what keeps `rem` gaps at 16 px per unit. */
  lemma {:induction false} RemTextContainsEm(text: string)
    requires Includes(text, "rem")
    ensures Includes(text, "em")
    decreases |text|
  {
    if StartsWith(text, "rem") {
      assert text[1..][..2] == "em";
    } else {
      RemTextContainsEm(text[1..]);
    }
  }

  /** A zero gap written in `rem` is not one of the "unset" spellings, so
      it is used as 0 px instead of the fallback. */
  lemma ZeroRemGapIsZero(viewportWidth: int)
    ensures GetGap(Style("0rem", "", Some(0.0), None), viewportWidth) == 0.0
  {
  }

  // ---------------------------------------------------------------------
  // calculateSetWidth, specified
  // ---------------------------------------------------------------------

  function Min(a: nat, b: nat): nat {
    if a < b then a else b
  }

  /** What item `i` of the first `n` checked adds: its width, plus one gap
      when it is not the last checked index; nothing when its width is
      not positive. */
  function Contribution(widths: seq<real>, n: nat, i: nat, gap: real): real
    requires i < n <= |widths|
  {
    if widths[i] > 0.0 then widths[i] + (if i < n - 1 then gap else 0.0) else 0.0
  }

  /** Total contribution of the first `k` of the `n` checked items. */
  function Accumulated(widths: seq<real>, n: nat, k: nat, gap: real): real
    requires k <= n <= |widths|
  {
    if k == 0 then 0.0 else Accumulated(widths, n, k - 1, gap) + Contribution(widths, n, k - 1, gap)
  }

  /** Number of positive widths among the first `k`. */
  function PositiveCount(widths: seq<real>, k: nat): (c: nat)
    requires k <= |widths|
    ensures c <= k
  {
    if k == 0 then 0 else PositiveCount(widths, k - 1) + (if widths[k - 1] > 0.0 then 1 else 0)
  }

  /** The width of one set as `calculateSetWidth` measures it, given the
      width of every child of the track: 0 when there are no originals or
      no original has a positive width. */
  function SetWidth(widths: seq<real>, originalCount: nat, gap: real): real {
    var n := Min(originalCount, |widths|);
    if originalCount == 0 || PositiveCount(widths, n) == 0 then 0.0
    else Accumulated(widths, n, n, gap)
  }

  function Sum(s: seq<real>): real {
    if s == [] then 0.0 else Sum(s[..|s| - 1]) + s[|s| - 1]
  }

  /** Items before the last checked one each bring their gap. */
  lemma {:induction false} AccumulatedAllPositive(widths: seq<real>, n: nat, k: nat, gap: real)
    requires k < n <= |widths|
    requires forall i :: 0 <= i < n ==> widths[i] > 0.0
    ensures Accumulated(widths, n, k, gap) == Sum(widths[..k]) + (k as real) * gap
  {
    if k > 0 {
      AccumulatedAllPositive(widths, n, k - 1, gap);
      assert widths[..k][..k - 1] == widths[..k - 1];
    }
  }

  lemma {:induction false} PositiveCountAllPositive(widths: seq<real>, k: nat)
    requires k <= |widths|
    requires forall i :: 0 <= i < k ==> widths[i] > 0.0
    ensures PositiveCount(widths, k) == k
  {
    if k > 0 {
      PositiveCountAllPositive(widths, k - 1);
    }
  }

  /** With `n` originals all of positive width, one set is the sum of
      their widths plus `n - 1` gaps. */
  lemma SetWidthAllPositive(widths: seq<real>, n: nat, gap: real)
    requires 1 <= n <= |widths|
    requires forall i :: 0 <= i < n ==> widths[i] > 0.0
    ensures SetWidth(widths, n, gap) == Sum(widths[..n]) + ((n - 1) as real) * gap
  {
    PositiveCountAllPositive(widths, n);
    AccumulatedAllPositive(widths, n, n - 1, gap);
    assert widths[..n][..n - 1] == widths[..n - 1];
  }

  lemma {:induction false} PositiveCountNone(widths: seq<real>, k: nat)
    requires k <= |widths|
    requires forall i :: 0 <= i < k ==> widths[i] <= 0.0
    ensures PositiveCount(widths, k) == 0
  {
    if k > 0 {
      PositiveCountNone(widths, k - 1);
    }
  }

  /** No original of positive width: the set width is 0. */
  lemma SetWidthNoPositive(widths: seq<real>, originalCount: nat, gap: real)
    requires forall i :: 0 <= i < Min(originalCount, |widths|) ==> widths[i] <= 0.0
    ensures SetWidth(widths, originalCount, gap) == 0.0
  {
    PositiveCountNone(widths, Min(originalCount, |widths|));
  }

  lemma {:induction false} AccumulatedPrefix(a: seq<real>, b: seq<real>, n: nat, k: nat, gap: real)
    requires k <= n <= |a| && n <= |b| && a[..n] == b[..n]
    ensures Accumulated(a, n, k, gap) == Accumulated(b, n, k, gap)
    ensures PositiveCount(a, k) == PositiveCount(b, k)
  {
    if k > 0 {
      AccumulatedPrefix(a, b, n, k - 1, gap);
      assert a[k - 1] == a[..n][k - 1] == b[..n][k - 1] == b[k - 1];
    }
  }

  /** Children after the originals never affect the set width: clones
      appended to the track leave the measurement unchanged. */
  lemma SetWidthIgnoresClones(widths: seq<real>, extra: seq<real>, originalCount: nat, gap: real)
    requires originalCount <= |widths|
    ensures SetWidth(widths + extra, originalCount, gap) == SetWidth(widths, originalCount, gap)
  {
    var n := originalCount;
    assert (widths + extra)[..n] == widths[..n];
    AccumulatedPrefix(widths + extra, widths, n, n, gap);
  }

  /** A worked instance of `SetWidthAllPositive`: five originals of 100 px
      with a 20 px gap measure 580 px. */
  lemma FiveItemsExample()
    ensures SetWidth([100.0, 100.0, 100.0, 100.0, 100.0], 5, 20.0) == 580.0
  {
    var w := [100.0, 100.0, 100.0, 100.0, 100.0];
    SetWidthAllPositive(w, 5, 20.0);
    assert w[..5] == w;
  }

  /** Where item `j` starts in a flex row whose items are separated by
      `gap`: the widths and gaps of all items before it. */
  function RowOffset(widths: seq<real>, j: nat, gap: real): real
    requires j <= |widths|
  {
    if j == 0 then 0.0 else RowOffset(widths, j - 1, gap) + widths[j - 1] + gap
  }

  lemma {:induction false} RowOffsetSum(widths: seq<real>, j: nat, gap: real)
    requires j <= |widths|
    ensures RowOffset(widths, j, gap) == Sum(widths[..j]) + (j as real) * gap
  {
    if j > 0 {
      RowOffsetSum(widths, j - 1, gap);
      assert widths[..j][..j - 1] == widths[..j - 1];
    }
  }

  /** With all originals of positive width, the first clone starts one
      gap further than the measured set width: the wrap moves the track
      back by `SetWidth`, which is one gap less than the distance between
      an original and its copy. */
  lemma FirstCloneOffset(widths: seq<real>, n: nat, gap: real)
    requires 1 <= n <= |widths|
    requires forall i :: 0 <= i < n ==> widths[i] > 0.0
    ensures RowOffset(widths, n, gap) == SetWidth(widths, n, gap) + gap
  {
    RowOffsetSum(widths, n, gap);
    SetWidthAllPositive(widths, n, gap);
  }

  // ---------------------------------------------------------------------
  // cloneItems, specified
  // ---------------------------------------------------------------------

  /** A child of the track. A clone is a deep copy, equal as a value. */
  datatype Item = Item(markup: string)

  /** `k` copies of `items` one after the other. */
  function Repeat(items: seq<Item>, k: nat): seq<Item> {
    if k == 0 then [] else Repeat(items, k - 1) + items
  }

  /** The originals followed by `CloneSets` complete copies. */
  function WithClones(originals: seq<Item>): seq<Item> {
    Repeat(originals, 1 + CloneSets)
  }

  lemma {:induction false} RepeatLength(items: seq<Item>, k: nat)
    ensures |Repeat(items, k)| == k * |items|
  {
    if k > 0 {
      RepeatLength(items, k - 1);
      assert (k - 1) * |items| + |items| == k * |items|;
    }
  }

  lemma {:induction false} RepeatPrefix(items: seq<Item>, k: nat)
    requires k >= 1
    ensures |Repeat(items, k)| >= |items|
    ensures Repeat(items, k)[..|items|] == items
  {
    if k > 1 {
      RepeatPrefix(items, k - 1);
    }
  }

  /** Past the first block, every child repeats the one `|items|` before. */
  lemma {:induction false} RepeatPeriodic(items: seq<Item>, k: nat)
    ensures forall j :: |items| <= j < |Repeat(items, k)| ==> Repeat(items, k)[j] == Repeat(items, k)[j - |items|]
  {
    if k > 1 {
      RepeatPeriodic(items, k - 1);
      var r := Repeat(items, k);
      var p := Repeat(items, k - 1);
      assert r == p + items;
      forall j | |items| <= j < |r| ensures r[j] == r[j - |items|] {
        if j < |p| {
          assert r[j] == p[j] && r[j - |items|] == p[j - |items|];
        } else {
          var q := Repeat(items, k - 2);
          assert p == q + items;
          assert r[j] == items[j - |p|];
          assert r[j - |items|] == p[j - |items|] == items[j - |items| - |q|];
        }
      }
    }
  }

  /** After cloning, the track holds `3 * n` children: the `n` originals
      untouched, then copies, child `j` being a copy of child `j - n`. */
  lemma WithClonesShape(originals: seq<Item>)
    ensures |WithClones(originals)| == (1 + CloneSets) * |originals|
    ensures WithClones(originals)[..|originals|] == originals
    ensures forall j :: |originals| <= j < |WithClones(originals)| ==>
      WithClones(originals)[j] == WithClones(originals)[j - |originals|]
  {
    RepeatLength(originals, 1 + CloneSets);
    RepeatPrefix(originals, 1 + CloneSets);
    RepeatPeriodic(originals, 1 + CloneSets);
  }

  /** A multiple of `n` strictly between `-n` and `n` is 0. */
  lemma MulSmall(x: int, n: int)
    requires n > 0 && -n < x * n < n
    ensures x == 0
  {
  }

  /** `j mod n` for `j` in block `q` of length `n`. */
  lemma ModInBlock(j: nat, n: nat, q: nat)
    requires n > 0 && q * n <= j < q * n + n
    ensures j % n == j - q * n
  {
    var d := j / n;
    assert j == d * n + j % n;
    MulSmall(d - q, n);
  }

  /** Child `j` of the cloned track is a copy of original `j mod n`. */
  lemma WithClonesAt(originals: seq<Item>, j: nat)
    requires j < |WithClones(originals)|
    ensures |originals| > 0 && WithClones(originals)[j] == originals[j % |originals|]
  {
    var n := |originals|;
    WithClonesShape(originals);
    var w := WithClones(originals);
    if j < n {
      ModInBlock(j, n, 0);
      assert w[j] == w[..n][j];
    } else if j < 2 * n {
      ModInBlock(j, n, 1);
      assert w[j - n] == w[..n][j - n];
    } else {
      ModInBlock(j, n, 2);
      assert w[j - n] == w[j - 2 * n] == w[..n][j - 2 * n];
    }
  }

  /** Cloning again after stripping to the originals gives the same track. */
  lemma CloneIdempotent(originals: seq<Item>)
    ensures WithClones(WithClones(originals)[..|originals|]) == WithClones(originals)
  {
    WithClonesShape(originals);
  }

  /** `cloneItems()` on a track whose first `n` children are the originals. */
  function CloneTrack(children: seq<Item>, n: nat): seq<Item>
    requires n <= |children|
  {
    if n == 0 then children else WithClones(children[..n])
  }

  // ---------------------------------------------------------------------
  // The animation step
  // ---------------------------------------------------------------------

  function Abs(x: real): real {
    if x < 0.0 then -x else x
  }

  /** One unpaused frame: move left by `Speed`, and add `setWidth` back
      once the offset reaches one set width. */
  function Advance(position: real, setWidth: real): real {
    var p := position - Speed;
    if Abs(p) >= setWidth then p + setWidth else p
  }

  /** The window `(-setWidth, 0]` is kept by every step once the set is
      wider than one step. */
  lemma AdvanceStaysInWindow(position: real, setWidth: real)
    requires setWidth > Speed && -setWidth < position <= 0.0
    ensures -setWidth < Advance(position, setWidth) <= 0.0
  {
  }

  /** `k` unpaused frames from `position`. */
  function AdvanceN(position: real, setWidth: real, k: nat): real {
    if k == 0 then position else Advance(AdvanceN(position, setWidth, k - 1), setWidth)
  }

  /** Any number of frames from the start keeps the window. */
  lemma {:induction false} AdvanceNStaysInWindow(setWidth: real, k: nat)
    requires setWidth > Speed
    ensures -setWidth < AdvanceN(0.0, setWidth, k) <= 0.0
  {
    if k > 0 {
      AdvanceNStaysInWindow(setWidth, k - 1);
      AdvanceStaysInWindow(AdvanceN(0.0, setWidth, k - 1), setWidth);
    }
  }

  /** Before the wrap, frame `k` sits at `-k * Speed`. */
  lemma {:induction false} AdvanceNBeforeWrap(m: nat, k: nat)
    requires m >= 2 && k < m
    ensures AdvanceN(0.0, (m as real) * Speed, k) == -(k as real) * Speed
  {
    if k > 0 {
      AdvanceNBeforeWrap(m, k - 1);
    }
  }

  /** When the set width is a whole number `m` of steps, the track is
      back at offset 0 after exactly `m` frames: the loop has period `m`. */
  lemma SetWidthPeriod(m: nat)
    requires m >= 2
    ensures AdvanceN(0.0, (m as real) * Speed, m) == 0.0
  {
    AdvanceNBeforeWrap(m, m - 1);
  }

  // ---------------------------------------------------------------------
  // The engine's state and its transitions, as functions
  // ---------------------------------------------------------------------

  /** The module variables of the IIFE. `hasTrack` is `track !== null`;
      `pendingTicks` counts requested animation frames (`animationId`),
      `pendingLayout` the double-frame measurement `init` schedules,
      `pendingSettle` the frame after cloning, `pendingRetry` the 500 ms
      retry timers. */
  datatype EngineState = EngineState(
    children: seq<Item>,
    hasTrack: bool,
    position: real,
    translateX: real,
    setWidth: real,
    originalItemCount: nat,
    isRunning: bool,
    isPaused: bool,
    isInitialized: bool,
    pendingTicks: nat,
    pendingLayout: nat,
    pendingSettle: nat,
    pendingRetry: nat)

  /** What every reachable state satisfies. In particular at most one
      chain of animation frames exists, and only while running. */
  predicate Inv(s: EngineState) {
    && s.originalItemCount <= |s.children|
    && s.pendingTicks == (if s.isRunning then 1 else 0)
    && s.position <= 0.0
    && s.translateX == s.position
  }

  /** The state at script load, before the 100 ms boot timer. */
  function Boot(children: seq<Item>, prefersReducedMotion: bool): (s: EngineState)
    ensures Inv(s)
  {
    EngineState(children, false, 0.0, 0.0, 0.0, 0, false, prefersReducedMotion, false, 0, 0, 0, 0)
  }

  /** `stopAnimation()`. */
  function StopStep(s: EngineState): EngineState {
    s.(isRunning := false, pendingTicks := 0)
  }

  /** `animate()`. */
  function AnimateStep(s: EngineState): EngineState {
    if !s.hasTrack || s.setWidth <= 0.0 then s.(pendingTicks := 0, isRunning := false)
    else
      var p := if s.isPaused then s.position else Advance(s.position, s.setWidth);
      s.(position := p, translateX := p, pendingTicks := s.pendingTicks + 1)
  }

  /** The guard of `startAnimation()`. */
  predicate CanStart(s: EngineState) {
    !s.isRunning && s.setWidth > 0.0 && s.hasTrack && !s.isPaused
  }

  /** `startAnimation()`. */
  function StartStep(s: EngineState): EngineState {
    if CanStart(s) then AnimateStep(s.(isRunning := true)) else s
  }

  /** An animation frame firing. */
  function TickStep(s: EngineState): EngineState
    requires s.pendingTicks > 0
  {
    AnimateStep(s.(pendingTicks := s.pendingTicks - 1))
  }

  /** The part of `init()` that settles the originals: clones left from
      an earlier run are removed, and a first run counts the children. */
  function AdoptChildren(s: EngineState): EngineState {
    var current := |s.children|;
    if current > 0 && s.originalItemCount > 0 && current > s.originalItemCount then
      s.(children := s.children[..s.originalItemCount])
    else if current > 0 && s.originalItemCount == 0 then
      s.(originalItemCount := current)
    else s
  }

  /** The end of `init()`: with originals, the track is reset to the start
      and the double animation frame is scheduled. */
  function ScheduleLayout(s: EngineState): EngineState {
    if s.originalItemCount == 0 then s
    else s.(position := 0.0, translateX := 0.0, pendingLayout := s.pendingLayout + 1)
  }

  /** `init()` with the element lookups as inputs. */
  function InitStep(s: EngineState, trackFound: bool, containerFound: bool): EngineState {
    var s1 := s.(hasTrack := trackFound);
    if !trackFound || !containerFound then s1
    else ScheduleLayout(AdoptChildren(StopStep(s1)))
  }

  /** The double animation frame after `init`: measure, then clone and
      wait one more frame, or schedule a retry. Touching `track` when it
      is null throws, which ends the callback without effect. */
  function LayoutReadyStep(s: EngineState, widths: seq<real>, gap: real): EngineState
    requires s.pendingLayout > 0 && Inv(s)
  {
    var s1 := s.(pendingLayout := s.pendingLayout - 1);
    if !s1.hasTrack then s1
    else
      var w := SetWidth(widths, s1.originalItemCount, gap);
      if w > MinSetWidth then
        s1.(setWidth := w, children := CloneTrack(s1.children, s1.originalItemCount),
            pendingSettle := s1.pendingSettle + 1)
      else
        s1.(setWidth := w, pendingRetry := s1.pendingRetry + 1)
  }

  /** The frame after cloning: re-measure, keep the new width only if it
      also passes the threshold, mark initialised and start. */
  function CloneSettledStep(s: EngineState, widths: seq<real>, gap: real): EngineState
    requires s.pendingSettle > 0
  {
    var s1 := s.(pendingSettle := s.pendingSettle - 1);
    if !s1.hasTrack then s1
    else
      var r := SetWidth(widths, s1.originalItemCount, gap);
      StartStep(s1.(setWidth := if r > MinSetWidth then r else s1.setWidth, isInitialized := true))
  }

  /** The 500 ms retry timer. */
  function RetryStep(s: EngineState, trackFound: bool, containerFound: bool): EngineState
    requires s.pendingRetry > 0
  {
    var s1 := s.(pendingRetry := s.pendingRetry - 1);
    if s1.isInitialized then s1 else InitStep(s1, trackFound, containerFound)
  }

  /** The `load` handler's timer callback. */
  function LoadStep(s: EngineState, trackFound: bool, containerFound: bool): EngineState {
    if s.isInitialized then s
    else InitStep(s.(originalItemCount := 0, isInitialized := false), trackFound, containerFound)
  }

  /** The debounced `resize` handler. */
  function ResizeStep(s: EngineState, trackFound: bool, containerFound: bool): EngineState {
    InitStep(StopStep(s).(originalItemCount := 0, isInitialized := false), trackFound, containerFound)
  }

  /** The resize handler with the clones stripped before the originals
      are counted again, so that only authored items are counted. */
  function ResizeStrippingClonesStep(s: EngineState, trackFound: bool, containerFound: bool): EngineState
    requires Inv(s)
  {
    var s1 := StopStep(s);
    var s2 := if s1.originalItemCount > 0 then s1.(children := s1.children[..s1.originalItemCount]) else s1;
    InitStep(s2.(originalItemCount := 0, isInitialized := false), trackFound, containerFound)
  }

  /** The `visibilitychange` and reduced-motion `change` handlers: both
      set the pause flag and resume only an initialised, measured engine
      whose loop is not running. */
  function PauseSignalStep(s: EngineState, paused: bool): EngineState {
    var s1 := s.(isPaused := paused);
    if !s1.isPaused && s1.isInitialized && s1.setWidth > 0.0 && !s1.isRunning then StartStep(s1) else s1
  }

  // ---------------------------------------------------------------------
  // Properties of the transitions
  // ---------------------------------------------------------------------

  /** Stopping and starting keep the invariant: no transition can leave
      two chains of animation frames. */
  lemma StartStopKeepInv(s: EngineState)
    requires Inv(s)
    ensures Inv(StopStep(s)) && Inv(StartStep(s))
    ensures s.pendingTicks > 0 ==> Inv(TickStep(s))
  {
  }

  /** `init` keeps the invariant. */
  lemma InitKeepsInv(s: EngineState, trackFound: bool, containerFound: bool)
    requires Inv(s)
    ensures Inv(InitStep(s, trackFound, containerFound))
  {
  }

  /** The handlers that reset the engine before calling `init` keep the
      invariant too. */
  lemma ResetHandlersKeepInv(s: EngineState, trackFound: bool, containerFound: bool)
    requires Inv(s)
    ensures Inv(LoadStep(s, trackFound, containerFound))
    ensures Inv(ResizeStep(s, trackFound, containerFound))
  {
    InitKeepsInv(s.(originalItemCount := 0, isInitialized := false), trackFound, containerFound);
    InitKeepsInv(StopStep(s).(originalItemCount := 0, isInitialized := false), trackFound, containerFound);
  }

  /** So do the corrected resize handler and the retry timer. */
  lemma StripAndRetryKeepInv(s: EngineState, trackFound: bool, containerFound: bool)
    requires Inv(s)
    ensures Inv(ResizeStrippingClonesStep(s, trackFound, containerFound))
    ensures s.pendingRetry > 0 ==> Inv(RetryStep(s, trackFound, containerFound))
  {
    var s1 := StopStep(s);
    var s2 := if s1.originalItemCount > 0 then s1.(children := s1.children[..s1.originalItemCount]) else s1;
    InitKeepsInv(s2.(originalItemCount := 0, isInitialized := false), trackFound, containerFound);
    if s.pendingRetry > 0 {
      InitKeepsInv(s.(pendingRetry := s.pendingRetry - 1), trackFound, containerFound);
    }
  }

  /** The two measurement callbacks keep the invariant. */
  lemma MeasurementsKeepInv(s: EngineState, widths: seq<real>, gap: real)
    requires Inv(s)
    ensures s.pendingLayout > 0 ==> Inv(LayoutReadyStep(s, widths, gap))
    ensures s.pendingSettle > 0 ==> Inv(CloneSettledStep(s, widths, gap))
  {
    if s.pendingLayout > 0 && s.hasTrack && s.originalItemCount > 0 {
      WithClonesShape(s.children[..s.originalItemCount]);
    }
  }

  /** The pause signals keep the invariant. */
  lemma PauseSignalKeepsInv(s: EngineState, paused: bool)
    requires Inv(s)
    ensures Inv(PauseSignalStep(s, paused))
  {
  }

  /** Starting never creates a second loop: at most one frame is pending
      afterwards, and a running engine is left as it is. */
  lemma StartKeepsOneLoop(s: EngineState)
    requires Inv(s)
    ensures StartStep(s).pendingTicks <= 1
    ensures s.isRunning ==> StartStep(s) == s
  {
  }

  /** An unpaused frame moves by one step and wraps; if the window held
      before, it holds after. */
  lemma TickKeepsWindow(s: EngineState)
    requires Inv(s) && s.pendingTicks > 0 && s.hasTrack && s.setWidth > Speed
    requires -s.setWidth < s.position
    ensures -TickStep(s).setWidth < TickStep(s).position <= 0.0
    ensures TickStep(s).position == (if s.isPaused then s.position else Advance(s.position, s.setWidth))
  {
    AdvanceStaysInWindow(s.position, s.setWidth);
  }

  /** A paused frame leaves the position alone but still asks for the
      next frame. */
  lemma PausedTickStillSchedules(s: EngineState)
    requires Inv(s) && s.pendingTicks > 0 && s.hasTrack && s.setWidth > 0.0 && s.isPaused
    ensures TickStep(s).position == s.position
    ensures TickStep(s).isRunning && TickStep(s).pendingTicks == 1
  {
  }

  /** Without a track or a positive set width the loop ends. */
  lemma UnusableWidthEndsLoop(s: EngineState)
    requires s.pendingTicks > 0 && (!s.hasTrack || s.setWidth <= 0.0)
    ensures !TickStep(s).isRunning && TickStep(s).pendingTicks == 0
    ensures TickStep(s).position == s.position
  {
  }

  /** Pausing changes only the pause flag; resuming changes nothing but
      the flag and, when the loop was not running, runs one frame from
      the current position. Neither resets the measurement. */
  lemma PauseAndResumeKeepPosition(s: EngineState)
    requires Inv(s)
    ensures PauseSignalStep(s, true) == s.(isPaused := true)
    ensures var r := PauseSignalStep(s, false);
      && r.children == s.children && r.originalItemCount == s.originalItemCount
      && r.setWidth == s.setWidth && r.isInitialized == s.isInitialized
      && (r.position == s.position || r.position == Advance(s.position, s.setWidth))
      && (s.isRunning || !s.isInitialized || s.setWidth <= 0.0 ==> r == s.(isPaused := false))
  {
  }

  /** A successful `init` resets the position and schedules exactly one
      measurement; a failed element lookup changes only `track`. */
  lemma InitResetsPosition(s: EngineState, trackFound: bool, containerFound: bool)
    requires Inv(s)
    ensures var r := InitStep(s, trackFound, containerFound);
      && r.hasTrack == trackFound
      && (!(trackFound && containerFound) ==> r == s.(hasTrack := trackFound))
      && (trackFound && containerFound && s.children != [] ==>
            r.position == 0.0 && !r.isRunning && r.pendingLayout == s.pendingLayout + 1
            && r.children == s.children[..r.originalItemCount])
  {
  }

  /** The first measurement decides: above 50 px the track is cloned to
      `3 * n` children and the settle frame is scheduled; otherwise
      nothing is cloned or started and one retry is scheduled. */
  lemma LayoutGate(s: EngineState, widths: seq<real>, gap: real)
    requires Inv(s) && s.pendingLayout > 0 && s.hasTrack
    ensures var r := LayoutReadyStep(s, widths, gap);
      && r.setWidth == SetWidth(widths, s.originalItemCount, gap)
      && r.isRunning == s.isRunning && r.position == s.position
      && (r.setWidth > MinSetWidth ==>
            |r.children| == (1 + CloneSets) * s.originalItemCount
            && r.children[..s.originalItemCount] == s.children[..s.originalItemCount]
            && r.pendingSettle == s.pendingSettle + 1 && r.pendingRetry == s.pendingRetry)
      && (r.setWidth <= MinSetWidth ==>
            r.children == s.children && r.pendingRetry == s.pendingRetry + 1
            && r.pendingSettle == s.pendingSettle)
  {
    var w := SetWidth(widths, s.originalItemCount, gap);
    if w > MinSetWidth {
      assert s.originalItemCount > 0;
      WithClonesShape(s.children[..s.originalItemCount]);
    }
  }

  /** The second measurement replaces the set width only if it too is
      above 50 px, and the engine is then initialised. */
  lemma SecondMeasurementGate(s: EngineState, widths: seq<real>, gap: real)
    requires Inv(s) && s.pendingSettle > 0 && s.hasTrack
    ensures var r := CloneSettledStep(s, widths, gap);
      var m := SetWidth(widths, s.originalItemCount, gap);
      && r.isInitialized
      && r.setWidth == (if m > MinSetWidth then m else s.setWidth)
      && r.children == s.children
  {
  }

  /** A retry timer does nothing once the engine is initialised. */
  lemma RetryOnlyWhenUninitialized(s: EngineState, trackFound: bool, containerFound: bool)
    requires s.pendingRetry > 0 && s.isInitialized
    ensures RetryStep(s, trackFound, containerFound) == s.(pendingRetry := s.pendingRetry - 1)
  {
  }

  /** A resize forgets the original count and `init` counts every child
      then present, clones included, as an original. */
  lemma ResizeRecountsChildren(s: EngineState)
    requires Inv(s) && s.children != []
    ensures var r := ResizeStep(s, true, true);
      r.originalItemCount == |s.children| && r.children == s.children && !r.isInitialized
  {
  }

  /** As written: after a successful start on `n` originals the track
      holds `3n` children; a resize then takes all `3n` as originals,
      and the next successful measurement grows the track to `9n`. */
  lemma ResizeTriplesTrack(s: EngineState, originals: seq<Item>, widths: seq<real>, gap: real)
    requires Inv(s) && |originals| >= 1
    requires s.children == WithClones(originals) && s.originalItemCount == |originals|
    requires |widths| == |s.children| && SetWidth(widths, |s.children|, gap) > MinSetWidth
    ensures var r := ResizeStep(s, true, true);
      && r.originalItemCount == 3 * |originals|
      && |LayoutReadyStep(r, widths, gap).children| == 9 * |originals|
  {
    var n := |originals|;
    WithClonesShape(originals);
    var r := ResizeStep(s, true, true);
    assert r.originalItemCount == 3 * n;
    assert r.children == s.children;
    assert r.children[..3 * n] == r.children;
    WithClonesShape(r.children);
  }

  /** Corrected: stripping the clones before recounting keeps the
      original count at `n`, and the next successful measurement gives
      `3n` children again, the originals first. */
  lemma ResizeStrippingClonesKeepsTrack(s: EngineState, originals: seq<Item>, widths: seq<real>, gap: real)
    requires Inv(s) && |originals| >= 1
    requires s.children == WithClones(originals) && s.originalItemCount == |originals|
    requires |widths| == |originals| && SetWidth(widths, |originals|, gap) > MinSetWidth
    ensures var r := ResizeStrippingClonesStep(s, true, true);
      && r.originalItemCount == |originals| && r.children == originals
      && LayoutReadyStep(r, widths, gap).children == WithClones(originals)
  {
    var n := |originals|;
    WithClonesShape(originals);
    var r := ResizeStrippingClonesStep(s, true, true);
    assert r.children == originals;
    assert originals[..n] == originals;
  }

  // ---------------------------------------------------------------------
  // The engine, in place
  // ---------------------------------------------------------------------

  /** The IIFE's module variables as an object; every callback of the
      source is a method whose new state is the matching step above. */
  class Engine {
    var children: seq<Item>
    var hasTrack: bool
    var position: real
    var translateX: real
    var setWidth: real
    var originalItemCount: nat
    var isRunning: bool
    var isPaused: bool
    var isInitialized: bool
    var pendingTicks: nat
    var pendingLayout: nat
    var pendingSettle: nat
    var pendingRetry: nat

    ghost function State(): EngineState
      reads this
    {
      EngineState(children, hasTrack, position, translateX, setWidth, originalItemCount,
                  isRunning, isPaused, isInitialized, pendingTicks, pendingLayout,
                  pendingSettle, pendingRetry)
    }

    ghost predicate Valid()
      reads this
    {
      Inv(State())
    }

    /** Script load: the reduced-motion query is read once. */
    constructor (items: seq<Item>, prefersReducedMotion: bool)
      ensures Valid() && State() == Boot(items, prefersReducedMotion)
    {
      children := items;
      hasTrack := false;
      position := 0.0;
      translateX := 0.0;
      setWidth := 0.0;
      originalItemCount := 0;
      isRunning := false;
      isPaused := prefersReducedMotion;
      isInitialized := false;
      pendingTicks := 0;
      pendingLayout := 0;
      pendingSettle := 0;
      pendingRetry := 0;
    }

    /** `calculateSetWidth()`; `widths[i]` is the rendered width of child
        `i` and `gap` what `getGap()` returns. */
    method CalculateSetWidth(widths: seq<real>, gap: real) returns (total: real)
      requires |widths| == |children|
      ensures total == (if hasTrack then SetWidth(widths, originalItemCount, gap) else 0.0)
    {
      if !hasTrack || originalItemCount == 0 {
        return 0.0;
      }
      var totalWidth := 0.0;
      var itemCount := 0;
      var itemsToCheck := Min(originalItemCount, |children|);
      for i := 0 to itemsToCheck
        invariant totalWidth == Accumulated(widths, itemsToCheck, i, gap)
        invariant itemCount == PositiveCount(widths, i)
      {
        var width := widths[i];
        if width > 0.0 {
          totalWidth := totalWidth + width;
          itemCount := itemCount + 1;
          if i < itemsToCheck - 1 {
            totalWidth := totalWidth + gap;
          }
        }
      }
      total := if itemCount > 0 then totalWidth else 0.0;
    }

    /** The `while (children.length > originalItemCount)` loop that
        removes clones from the end. */
    method RemoveClones()
      requires Valid()
      modifies this`children
      ensures children == old(children)[..originalItemCount]
    {
      while |children| > originalItemCount
        invariant originalItemCount <= |children| <= |old(children)|
        invariant children == old(children)[..|children|]
        decreases |children|
      {
        children := children[..|children| - 1];
      }
    }

    /** `cloneItems()`. */
    method CloneItems()
      requires Valid()
      modifies this`children
      ensures hasTrack ==> children == CloneTrack(old(children), originalItemCount)
      ensures !hasTrack ==> children == old(children)
    {
      if !hasTrack || originalItemCount == 0 {
        return;
      }
      RemoveClones();
      ghost var originals := children;
      for copy := 0 to CloneSets
        invariant |originals| == originalItemCount
        invariant children == Repeat(originals, 1 + copy)
      {
        RepeatPrefix(originals, 1 + copy);
        AppendCopy(originals);
      }
    }

    /** One pass of the inner loop of `cloneItems()`: a copy of each of
        the first `originalItemCount` children is appended in order. */
    method AppendCopy(ghost originals: seq<Item>)
      requires |originals| == originalItemCount <= |children|
      requires children[..originalItemCount] == originals
      modifies this`children
      ensures children == old(children) + originals
    {
      ghost var done := children;
      for i := 0 to originalItemCount
        invariant children == done + originals[..i]
      {
        assert children[i] == originals[i] by {
          assert children[i] == done[i] == done[..|originals|][i];
        }
        children := children + [children[i]];
        assert originals[..i + 1] == originals[..i] + [originals[i]];
      }
      assert originals[..originalItemCount] == originals;
    }

    /** `stopAnimation()`. */
    method StopAnimation()
      requires Valid()
      modifies this
      ensures Valid() && State() == StopStep(old(State()))
    {
      pendingTicks := 0;
      isRunning := false;
    }

    /** `animate()`, entered with the loop marked running and no frame
        pending. */
    method Animate()
      requires isRunning && pendingTicks == 0
      requires originalItemCount <= |children| && position <= 0.0 && translateX == position
      modifies this
      ensures Valid() && State() == AnimateStep(old(State()))
    {
      if !hasTrack || setWidth <= 0.0 {
        pendingTicks := 0;
        isRunning := false;
        return;
      }
      if !isPaused {
        position := position - Speed;
        if Abs(position) >= setWidth {
          position := position + setWidth;
        }
        translateX := position;
      }
      pendingTicks := pendingTicks + 1;
    }

    /** An animation frame firing `animate`. */
    method Tick()
      requires Valid() && pendingTicks > 0
      modifies this
      ensures Valid() && State() == TickStep(old(State()))
    {
      pendingTicks := pendingTicks - 1;
      Animate();
    }

    /** `startAnimation()`. */
    method StartAnimation()
      requires Valid()
      modifies this
      ensures Valid() && State() == StartStep(old(State()))
    {
      if !isRunning && setWidth > 0.0 && hasTrack && !isPaused {
        isRunning := true;
        Animate();
      }
    }

    /** `init()`. */
    method Init(trackFound: bool, containerFound: bool)
      requires Valid()
      modifies this
      ensures Valid() && State() == InitStep(old(State()), trackFound, containerFound)
    {
      hasTrack := trackFound;
      if !trackFound || !containerFound {
        return;
      }
      StopAnimation();
      AdoptOriginals();
      ScheduleFirstLayout();
    }

    /** The end of `init()`: with originals, back to the start and one
        double animation frame scheduled. */
    method ScheduleFirstLayout()
      requires Valid()
      modifies this
      ensures Valid() && State() == ScheduleLayout(old(State()))
    {
      if originalItemCount > 0 {
        position := 0.0;
        translateX := 0.0;
        pendingLayout := pendingLayout + 1;
      }
    }

    /** The middle of `init()`: strip earlier clones or count the children. */
    method AdoptOriginals()
      requires Valid()
      modifies this
      ensures Valid() && State() == AdoptChildren(old(State()))
    {
      var currentChildren := |children|;
      if currentChildren > 0 {
        if originalItemCount > 0 && currentChildren > originalItemCount {
          RemoveClones();
        } else if originalItemCount == 0 {
          originalItemCount := currentChildren;
        }
      }
    }

    /** The double animation frame scheduled by `init`. */
    method OnLayoutReady(widths: seq<real>, gap: real)
      requires Valid() && pendingLayout > 0 && |widths| == |children|
      modifies this
      ensures Valid() && State() == LayoutReadyStep(old(State()), widths, gap)
    {
      pendingLayout := pendingLayout - 1;
      if !hasTrack {
        return;
      }
      var w := CalculateSetWidth(widths, gap);
      setWidth := w;
      if setWidth > MinSetWidth {
        CloneItems();
        pendingSettle := pendingSettle + 1;
        WithClonesShape(old(children)[..originalItemCount]);
      } else {
        pendingRetry := pendingRetry + 1;
      }
    }

    /** The animation frame after cloning. */
    method OnCloneSettled(widths: seq<real>, gap: real)
      requires Valid() && pendingSettle > 0 && |widths| == |children|
      modifies this
      ensures Valid() && State() == CloneSettledStep(old(State()), widths, gap)
    {
      pendingSettle := pendingSettle - 1;
      if !hasTrack {
        return;
      }
      var recalculatedWidth := CalculateSetWidth(widths, gap);
      if recalculatedWidth > MinSetWidth {
        setWidth := recalculatedWidth;
      }
      isInitialized := true;
      StartAnimation();
    }

    /** The 500 ms retry timer. */
    method OnRetryTimer(trackFound: bool, containerFound: bool)
      requires Valid() && pendingRetry > 0
      modifies this
      ensures Valid() && State() == RetryStep(old(State()), trackFound, containerFound)
    {
      pendingRetry := pendingRetry - 1;
      if !isInitialized {
        Init(trackFound, containerFound);
      }
    }

    /** The timer the `load` event starts. */
    method OnLoad(trackFound: bool, containerFound: bool)
      requires Valid()
      modifies this
      ensures Valid() && State() == LoadStep(old(State()), trackFound, containerFound)
    {
      if !isInitialized {
        originalItemCount := 0;
        isInitialized := false;
        Init(trackFound, containerFound);
      }
    }

    /** The debounced `resize` handler, as written. */
    method OnResize(trackFound: bool, containerFound: bool)
      requires Valid()
      modifies this
      ensures Valid() && State() == ResizeStep(old(State()), trackFound, containerFound)
    {
      StopAnimation();
      originalItemCount := 0;
      isInitialized := false;
      Init(trackFound, containerFound);
    }

    /** The resize handler with the clones removed before recounting. */
    method OnResizeStrippingClones(trackFound: bool, containerFound: bool)
      requires Valid()
      modifies this
      ensures Valid() && State() == ResizeStrippingClonesStep(old(State()), trackFound, containerFound)
    {
      StopAnimation();
      if originalItemCount > 0 {
        RemoveClones();
      }
      originalItemCount := 0;
      isInitialized := false;
      Init(trackFound, containerFound);
    }

    /** The `visibilitychange` handler; `hidden` is `document.hidden`. */
    method OnVisibilityChange(hidden: bool)
      requires Valid()
      modifies this
      ensures Valid() && State() == PauseSignalStep(old(State()), hidden)
    {
      isPaused := hidden;
      if !isPaused && isInitialized && setWidth > 0.0 {
        if !isRunning {
          StartAnimation();
        }
      }
    }

    /** The reduced-motion `change` handler; `matches` is `e.matches`. */
    method OnReducedMotionChange(matches: bool)
      requires Valid()
      modifies this
      ensures Valid() && State() == PauseSignalStep(old(State()), matches)
    {
      isPaused := matches;
      if !isPaused && isInitialized && setWidth > 0.0 && !isRunning {
        StartAnimation();
      }
    }
  }
}
