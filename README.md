# A verified model of the portfolio site's page scripts

This project models in Dafny the behaviour of three browser scripts of a
designer's portfolio site and proves properties of that model:

- `public/js/about-me.js`:
  - the seamless logo marquee: gap reading, set-width measurement, cloning, the per-frame scroll step, and the init / retry / load / resize / pause handlers;
  - the side panel's Tab focus trap;
  - the timeline's scroll arrows;
  - the header blur on scroll.
- `public/js/main.js`:
  - the project media modal: parsing comma-separated source lists, classifying videos, opening, previous/next buttons, the two keydown listeners, and closing with its 300 ms reset timer;
  - `formatTime`;
  - the suggestion form's validation and its e-mail pattern;
  - the hero slider;
  - the client-comment carousel and its auto-rotate timers;
  - the side panel.
- `public/js/cms-loader.js`:
  - the upload-path rule for media, cover and slider URLs;
  - the `data-media-srcs` attribute of a tile;
  - cover fallback to an inline placeholder;
  - payload unwrapping and loader fallbacks;
  - the in-place sorts by id and order;
  - rebuilding the grid, the testimonial cards, the indicators and the slider images.

How the code becomes Dafny:

- **Pure helpers** are functions with lemmas.
- **A script's module variables** (the marquee IIFE, the modal, the carousel, the side panel, the header blur, the hero slider, the grid and the other render targets) become a class.
- **Handlers and timer callbacks** are methods.
- **Each state machine** (marquee engine, modal) is a pure step function over a state datatype. The class's methods are proved to move its state exactly as that function does (`State() == XStep(old(State()))`) and to keep its invariant. The properties are proved once, on the step functions.
- **Timers and animation frames** become methods the caller invokes. The callbacks still pending are counted in `pending*` fields.
- **Layout reads** (bounding boxes, computed styles, `innerWidth`, `scrollTop`) and **fetch results** are parameters.

Modules:

- `Wrappers`: `Option`.
- `JsText`: the JavaScript string operations used: `trim`, `split`/`join` on one character, `startsWith`, `endsWith`, `includes`, `toLowerCase` on ASCII letters, `String(n)`, `padStart`.
- `Lists`: the `map`-then-`filter` idiom.
- `Cyclic`: the wrap-around index step.
- `AboutPage`, `Marquee`, `MediaModal`, `SiteMain`, `CmsLoader`: one per area of the scripts.

Two details of the marquee's timing follow the code exactly:

- **Paused marquee frames.** A paused frame still requests the next frame (`about-me.js:246-257`, `Marquee.PausedTickStillSchedules`).
- **The retry timer.** The 500 ms retry checks `isInitialized` (`about-me.js:348-352`), so a retry after success does nothing (`Marquee.RetryOnlyWhenUninitialized`).

## Model

| member | source | states |
|---|---|---|
| AboutPage.PanelKeyDown | public/js/about-me.js:41-66 | a focus move always targets an existing focusable element |
| AboutPage.FocusTrapWraps | public/js/about-me.js:48-64 | Tab wraps exactly when focus is on the last element (Shift+Tab: the first); the target is the cyclic successor (predecessor) |
| AboutPage.PanelKeysWhenHiddenOrEscape | public/js/about-me.js:41-46 | a hidden panel ignores every key; Escape closes an open one |
| AboutPage.ScrollIndicators | public/js/about-me.js:73-93 | left arrow hidden iff at offset 0; right arrow hidden iff the view reaches the end within one pixel |
| AboutPage.ArrowsAtStart | public/js/about-me.js:76-92 | at the start the left arrow is hidden and the right one shows iff the content overflows by more than one pixel |
| AboutPage.RightArrowStaysHidden | public/js/about-me.js:78 | scrolling further right never shows the right arrow again |
| AboutPage.ScrollAmount | public/js/about-me.js:97-101 | 200 px below 640 px of viewport, 300 px from 768 px, 250 px between |
| AboutPage.ScrollAmountMonotone | public/js/about-me.js:97-101 | a wider viewport never scrolls by less |
| AboutPage.BlurCases | public/js/about-me.js:424-439 | near the top the header is clear; above 50 px an upward move blurs it, a downward move clears it, no move keeps it |
| AboutPage.HeaderBlur.OnScroll | public/js/about-me.js:424-439 | the handler keeps "blurred only above 50 px", records the offset and applies the blur rule |
| AboutPage.BlurFollowsLastMove | public/js/about-me.js:420-439 | after any run of scroll events the blur depends only on the last move: blurred iff it went up and ended above 50 px |
| AboutPage.BlurAfter | public/js/about-me.js:424-439 | the blur after one scroll event, from the previous offset and blur; its four cases are stated by `AboutPage.BlurCases` |
| AboutPage.HeaderBlur.constructor | public/js/about-me.js:420-421 | the page starts at offset 0 with a clear header, which satisfies the invariant |
| AboutPage.BlurAfterAll | public/js/about-me.js:420-439 | the blur after a run of scroll events, one `BlurAfter` per event; `AboutPage.BlurFollowsLastMove` proves it depends only on the last move |
| Cyclic.Next | public/js/main.js:1320 | the next index stays in range, adds one, and wraps to 0 after the last |
| Cyclic.Prev | public/js/main.js:633 | the previous index stays in range, subtracts one, and wraps to the last from 0 |
| Cyclic.PrevUndoesNext | public/js/main.js:623-637 | previous after next returns to the index |
| Cyclic.NextUndoesPrev | public/js/main.js:623-637 | next after previous returns to the index |
| Cyclic.ForwardBeforeWrap | public/js/main.js:1319-1322 | before the end, k steps forward add k |
| Cyclic.ForwardAfterWrap | public/js/main.js:1319-1322 | past the last index the walk restarts at 0 |
| Cyclic.FullCycle | public/js/main.js:1319-1322 | n steps through n entries return to the start |
| JsText.Trim | public/js/main.js:345 | `trim()` keeps no white space at either end, never lengthens, and is empty iff the input is blank |
| JsText.TrimOfTrimmed | public/js/main.js:474 | trimming a trimmed string changes nothing |
| JsText.Split | public/js/main.js:474 | `split(c)` gives at least one piece, none holding the separator, and joining them restores the string |
| JsText.SplitJoin | public/js/cms-loader.js:116-118 | splitting a join of separator-free pieces gives the pieces back |
| JsText.IncludesAt | public/js/about-me.js:172-174 | `includes` holds whenever the text occurs at some index |
| JsText.NatToString | public/js/main.js:659 | `String(n)` is a non-empty digit string without leading zero, "0" only for 0 |
| JsText.DecimalRoundTrip | public/js/main.js:659 | reading back the printed number gives the number |
| JsText.PadTwo | public/js/main.js:659 | `padStart(2, "0")` keeps the text as a suffix, pads with zeros, and has length max(2, n) |
| JsText.Join | public/js/cms-loader.js:117 | `join` with one separator character; `JsText.Split` and `JsText.SplitJoin` prove it and `split` inverse to each other |
| JsText.StartsWith | public/js/cms-loader.js:105 | `startsWith`: the string's first characters are the prefix |
| JsText.EndsWith | public/js/main.js:424 | `endsWith`: the string's last characters are the suffix |
| JsText.Includes | public/js/main.js:443 | `includes`: the text occurs at the start or further on; `JsText.IncludesAt` shows every occurrence counts |
| JsText.ToLower | public/js/main.js:424 | `toLowerCase` on ASCII letters keeps the length |
| JsText.IntToString | public/js/main.js:659 | `String(n)` of an integer: digits for a non-negative one, a leading minus otherwise |
| Lists.FilterMapAppend | public/js/cms-loader.js:90-114 | map-then-filter works element by element: it distributes over concatenation |
| Lists.FilterMapEmpty | public/js/cms-loader.js:90-114 | the result is empty iff every element is filtered out |
| Lists.FilterMapAll | public/js/cms-loader.js:90-114 | what holds of every kept mapped value holds of every result |
| Lists.FilterMapTotal | public/js/cms-loader.js:90-114 | with nothing filtered out, the result is exactly the mapped list |
| Marquee.FallbackGap | public/js/about-me.js:152-155 | 64 px from 1024 px of viewport, 32 px below 768 px, 48 px between |
| Marquee.GetGap | public/js/about-me.js:151-183 | without a usable style length the fallback gap; otherwise the parsed number times 16 for `rem`, the font size (or 16) for `em`, 1 else |
| Marquee.RemTextContainsEm | public/js/about-me.js:172-176 | every `rem` text also contains `em`, so the order of the tests is what keeps `rem` at 16 px |
| Marquee.ZeroRemGapIsZero | public/js/about-me.js:161-173 | a gap of "0rem" is not an unset spelling and yields 0 px, not the fallback |
| Marquee.SetWidthAllPositive | public/js/about-me.js:186-215 | with n originals of positive width, one set is their widths plus n-1 gaps |
| Marquee.SetWidthNoPositive | public/js/about-me.js:214 | with no original of positive width the set width is 0 |
| Marquee.SetWidthIgnoresClones | public/js/about-me.js:194 | children after the originals never change the measurement |
| Marquee.FirstCloneOffset | public/js/about-me.js:207-214 | the first clone starts one gap beyond the measured set width |
| Marquee.RepeatLength | public/js/about-me.js:227-235 | k copies of n items have k·n items |
| Marquee.WithClonesShape | public/js/about-me.js:218-236 | after cloning the track has 3n children, originals first, each later child equal to the one n before |
| Marquee.WithClonesAt | public/js/about-me.js:227-235 | child j of the cloned track is a copy of original j mod n |
| Marquee.CloneIdempotent | public/js/about-me.js:222-235 | stripping to the originals and cloning again gives the same track |
| Marquee.AdvanceStaysInWindow | public/js/about-me.js:246-252 | one unpaused frame keeps the offset in (-setWidth, 0] |
| Marquee.AdvanceNStaysInWindow | public/js/about-me.js:239-258 | any number of frames from 0 keeps the offset in the window |
| Marquee.AdvanceNBeforeWrap | public/js/about-me.js:247 | before the wrap, frame k sits at -k·0.5 px |
| Marquee.SetWidthPeriod | public/js/about-me.js:246-252 | a set width of m steps brings the track back to 0 after exactly m frames |
| Marquee.StopStep | public/js/about-me.js:269-275 | `stopAnimation`: the loop stops and its pending frame is cancelled; the invariant is kept (`Marquee.StartStopKeepInv`) |
| Marquee.AnimateStep | public/js/about-me.js:239-258 | one call of `animate`: ends the loop without a track or a positive width, otherwise moves one step unless paused and requests the next frame (`Marquee.TickKeepsWindow`, `Marquee.UnusableWidthEndsLoop`) |
| Marquee.TickStep | public/js/about-me.js:257 | a pending frame fires: one frame fewer pending, then `animate` runs |
| Marquee.CanStart | public/js/about-me.js:262 | `startAnimation` starts only when not running, not paused, with a track and a positive width |
| Marquee.StartStep | public/js/about-me.js:261-266 | marks the loop running and requests one frame when `CanStart` holds (`Marquee.StartKeepsOneLoop`) |
| Marquee.AdoptChildren | public/js/about-me.js:292-303 | `init`'s child count: clones beyond a known count are removed, a first count adopts every child (`Marquee.ResizeRecountsChildren`) |
| Marquee.ScheduleLayout | public/js/about-me.js:305-319 | with originals, the offset resets to 0 and one measurement is scheduled (`Marquee.InitResetsPosition`) |
| Marquee.InitStep | public/js/about-me.js:278-356 | `init`: records whether the track was found, then stops, adopts children and schedules the layout (`Marquee.InitKeepsInv`, `Marquee.InitResetsPosition`) |
| Marquee.LayoutReadyStep | public/js/about-me.js:319-353 | the double frame: measures, clones and schedules the settle frame above 50 px, a retry otherwise (`Marquee.LayoutGate`) |
| Marquee.CloneSettledStep | public/js/about-me.js:332-345 | the settle frame: re-measures, keeps a width above 50 px, initialises and starts (`Marquee.SecondMeasurementGate`) |
| Marquee.RetryStep | public/js/about-me.js:348-352 | the 500 ms retry re-runs `init` only while uninitialised (`Marquee.RetryOnlyWhenUninitialized`) |
| Marquee.LoadStep | public/js/about-me.js:373-381 | the load timer re-runs `init` with the original count reset, unless the engine is already initialised (`Marquee.ResetHandlersKeepInv`) |
| Marquee.ResizeStep | public/js/about-me.js:385-393 | the resize handler stops, zeroes the original count with the clones still in place, and re-runs `init` (`Marquee.ResizeTriplesTrack`) |
| Marquee.ResizeStrippingClonesStep | public/js/about-me.js:385-393 | the corrected resize strips the clones before re-running `init` (`Marquee.ResizeStrippingClonesKeepsTrack`) |
| Marquee.PauseSignalStep | public/js/about-me.js:396-416 | sets the pause flag; an unpaused, initialised, measured engine that is not running starts again (`Marquee.PauseAndResumeKeepPosition`) |
| Marquee.StartStopKeepInv | public/js/about-me.js:239-275 | stop, start and a frame keep the invariant: exactly one frame pending while running, none otherwise |
| Marquee.InitKeepsInv | public/js/about-me.js:278-356 | `init` keeps the invariant |
| Marquee.ResetHandlersKeepInv | public/js/about-me.js:373-393 | the load and resize handlers keep the invariant |
| Marquee.StripAndRetryKeepInv | public/js/about-me.js:347-352 | the retry timer (and the corrected resize) keep the invariant |
| Marquee.MeasurementsKeepInv | public/js/about-me.js:319-345 | both measurement callbacks keep the invariant |
| Marquee.PauseSignalKeepsInv | public/js/about-me.js:396-416 | the visibility and reduced-motion handlers keep the invariant |
| Marquee.StartKeepsOneLoop | public/js/about-me.js:261-266 | starting leaves at most one pending frame and leaves a running engine untouched |
| Marquee.TickKeepsWindow | public/js/about-me.js:239-258 | a frame moves by one step (or not when paused) and keeps the window |
| Marquee.PausedTickStillSchedules | public/js/about-me.js:246-257 | a paused frame keeps the offset but requests the next frame |
| Marquee.UnusableWidthEndsLoop | public/js/about-me.js:240-244 | without a track or a positive width the loop ends without moving |
| Marquee.PauseAndResumeKeepPosition | public/js/about-me.js:396-416 | pausing only sets the flag; resuming keeps the measurement and either keeps the offset or runs one frame from it |
| Marquee.InitResetsPosition | public/js/about-me.js:278-316 | a failed lookup only clears the track; a successful `init` stops the loop, strips clones, resets the offset and schedules one measurement |
| Marquee.LayoutGate | public/js/about-me.js:319-353 | above 50 px the track is cloned to 3n and the settle frame scheduled; otherwise nothing is cloned and one retry is scheduled |
| Marquee.SecondMeasurementGate | public/js/about-me.js:332-345 | the second measurement replaces the width only above 50 px, and the engine becomes initialised |
| Marquee.RetryOnlyWhenUninitialized | public/js/about-me.js:348-352 | a retry after success does nothing |
| Marquee.ResizeRecountsChildren | public/js/about-me.js:385-393 | after a resize every child present, clones included, is counted as an original |
| Marquee.ResizeTriplesTrack | public/js/about-me.js:385-393 | as written, a resize after a start on n originals counts 3n and the next measurement grows the track to 9n |
| Marquee.ResizeStrippingClonesKeepsTrack | public/js/about-me.js:385-393 | corrected, the count stays n and the track is again the n originals followed by two copies |
| Marquee.Engine.CalculateSetWidth | public/js/about-me.js:186-215 | the loop returns the specified set width, or 0 without a track |
| Marquee.Engine.RemoveClones | public/js/about-me.js:222-224 | the track is cut back to its originals |
| Marquee.Engine.CloneItems | public/js/about-me.js:218-236 | the track becomes the originals followed by two complete copies |
| Marquee.Engine.StopAnimation | public/js/about-me.js:269-275 | the state moves as `StopStep` and keeps the invariant |
| Marquee.Engine.Animate | public/js/about-me.js:239-258 | the state moves as `AnimateStep` and the invariant holds after |
| Marquee.Engine.Tick | public/js/about-me.js:257 | a pending frame firing moves the state as `TickStep` |
| Marquee.Engine.StartAnimation | public/js/about-me.js:261-266 | the state moves as `StartStep` |
| Marquee.Engine.Init | public/js/about-me.js:278-356 | the state moves as `InitStep` and keeps the invariant |
| Marquee.Engine.OnLayoutReady | public/js/about-me.js:319-353 | the double frame moves the state as `LayoutReadyStep` |
| Marquee.Engine.OnCloneSettled | public/js/about-me.js:332-345 | the settle frame moves the state as `CloneSettledStep` |
| Marquee.Engine.OnRetryTimer | public/js/about-me.js:348-352 | the retry moves the state as `RetryStep` |
| Marquee.Engine.OnLoad | public/js/about-me.js:373-381 | the load timer moves the state as `LoadStep` |
| Marquee.Engine.OnResize | public/js/about-me.js:385-393 | the debounced resize moves the state as `ResizeStep` |
| Marquee.Engine.OnResizeStrippingClones | public/js/about-me.js:385-393 | the corrected resize moves the state as `ResizeStrippingClonesStep` |
| Marquee.Engine.OnVisibilityChange | public/js/about-me.js:396-404 | the state moves as `PauseSignalStep` |
| Marquee.Engine.OnReducedMotionChange | public/js/about-me.js:407-416 | the state moves as `PauseSignalStep` |
| Marquee.EffectiveGapText | public/js/about-me.js:159 | `style.gap`, else `style.columnGap`, else `'0'`: the first non-empty of the two, "0" otherwise |
| Marquee.IsUnsetGap | public/js/about-me.js:161 | the gap spellings that fall back to `FallbackGap`: empty, `normal`, `0` and `0px` |
| Marquee.UnitScale | public/js/about-me.js:172-176 | 16 px per `rem`, the font size (16 when absent or 0) per `em`, 1 otherwise; `Marquee.RemTextContainsEm` shows why `rem` is tested first |
| Marquee.SetWidth | public/js/about-me.js:186-215 | the value `calculateSetWidth` returns; `Marquee.SetWidthAllPositive`, `Marquee.SetWidthNoPositive` and `Marquee.SetWidthIgnoresClones` state it, and `Marquee.Engine.CalculateSetWidth` proves the loop computes it |
| Marquee.WithClones | public/js/about-me.js:218-236 | the originals followed by two complete copies; `Marquee.WithClonesShape` and `Marquee.WithClonesAt` state its shape |
| Marquee.CloneTrack | public/js/about-me.js:218-236 | `cloneItems` on a track: unchanged without originals, otherwise the originals with two copies; `Marquee.CloneIdempotent` proves re-cloning stable |
| Marquee.Advance | public/js/about-me.js:246-252 | one unpaused frame: 0.5 px left, plus one set width once the offset reaches it; `Marquee.AdvanceStaysInWindow` keeps the window |
| Marquee.AdvanceN | public/js/about-me.js:246-257 | `k` unpaused frames; `Marquee.AdvanceNStaysInWindow`, `Marquee.AdvanceNBeforeWrap` and `Marquee.SetWidthPeriod` state where they end |
| Marquee.Boot | public/js/about-me.js:136-148 | the state at script load: no track, offset 0, no width or count, nothing pending, paused iff reduced motion is preferred; it satisfies the invariant |
| Marquee.Engine.constructor | public/js/about-me.js:405-410 | the engine starts in the `Boot` state, with the reduced-motion query read once, and keeps the invariant |
| Marquee.Engine.AppendCopy | public/js/about-me.js:228-234 | one pass of the inner cloning loop appends a copy of each original, in order |
| Marquee.Engine.ScheduleFirstLayout | public/js/about-me.js:314-320 | the state moves as `ScheduleLayout` and keeps the invariant |
| Marquee.Engine.AdoptOriginals | public/js/about-me.js:292-303 | the state moves as `AdoptChildren` and keeps the invariant |
| MediaModal.CleanPiecesAppend | public/js/main.js:474 | trimming and dropping blank pieces keeps the input order |
| MediaModal.ParseSourceList | public/js/main.js:474 | every parsed entry is non-empty and trimmed |
| MediaModal.ParsedEntriesClean | public/js/main.js:474 | no parsed entry holds a comma |
| MediaModal.TrimInside | public/js/main.js:474 | trimming only removes characters |
| MediaModal.CleanOfClean | public/js/main.js:474 | cleaning already clean pieces changes nothing |
| MediaModal.ParseJoin | public/js/main.js:474 | joining clean entries with commas and parsing gives them back |
| MediaModal.ParseIdempotent | public/js/main.js:474 | parsing a re-joined parse gives the same list |
| MediaModal.IsVideoFileLowerCase | public/js/main.js:422-425 | a file is a video iff its lower-cased name ends in .mp4, .mov, .webm or .avi; the capitalised spellings never match |
| MediaModal.IsVideoFile | public/js/main.js:422-425 | `isVideoFile`: some listed extension ends the lower-cased name (`MediaModal.IsVideoFileLowerCase`) |
| MediaModal.Classify | public/js/main.js:482-485 | each mixed entry keeps its source and is a video iff `isVideoFile` says so |
| MediaModal.ListOf | public/js/main.js:472-478 | the list a branch loads: a string parsed at commas, an array as it is, `null` as the one entry "null" (`MediaModal.ParseSourceList`) |
| MediaModal.Initial | public/js/main.js:409-419 | the page-load state satisfies the index invariant |
| MediaModal.Step | public/js/main.js:623-653 | a next/previous step stays inside the list |
| MediaModal.OpenYouTube | public/js/main.js:441-469 | the YouTube branch of `openModal` (`MediaModal.OpenYouTubeLoads`) |
| MediaModal.OpenMixed | public/js/main.js:470-496 | the mixed branch of `openModal` (`MediaModal.OpenListLoads`) |
| MediaModal.OpenVideos | public/js/main.js:497-518 | the video branch of `openModal` (`MediaModal.OpenListLoads`) |
| MediaModal.OpenImages | public/js/main.js:519-539 | the image branch, taken for every other media type (`MediaModal.OpenListLoads`) |
| MediaModal.OpenedKind | public/js/main.js:441-519 | the branch `openModal` takes: YouTube only with an id, then mixed, video, and images for anything else |
| MediaModal.HideAll | public/js/main.js:429-439 | every container, the buttons and the counter hidden |
| MediaModal.OpenThrows | public/js/main.js:470-485 | the mixed branch given `null` throws in `isVideoFile` after the containers are hidden |
| MediaModal.OpenStep | public/js/main.js:427-545 | `openModal` as a transition: hide everything, then load the branch's list and show the modal, or stop after hiding when the mixed branch throws (`MediaModal.OpenRevealsNavIffMany`, `MediaModal.OpenKeepsInv`) |
| MediaModal.ShowStep | public/js/main.js:623-653 | next and previous for one kind: a cyclic step of that list's index, an empty list left alone (`MediaModal.ShowMovesCyclically`) |
| MediaModal.ButtonTarget | public/js/main.js:764-794 | the list the buttons move: several shown YouTube ids first, then mixed media, then shown videos, then images (`MediaModal.OpenThenButtonsMoveOpened`) |
| MediaModal.ButtonStep | public/js/main.js:764-794 | a button click steps the list `ButtonTarget` picks |
| MediaModal.ArrowTarget | public/js/main.js:801-816 | the list the first keydown listener moves, only one with more than one entry (`MediaModal.ArrowKeysSkipShortLists`) |
| MediaModal.CloseStep | public/js/main.js:709-725 | `closeModalFn`: drops `show` and starts one reset timer |
| MediaModal.ModalKeyStep | public/js/main.js:797-824 | the first keydown listener: Escape closes, arrows step `ArrowTarget` |
| MediaModal.YouTubeKeyStep | public/js/main.js:1253-1267 | the second keydown listener: Escape closes a shown modal, arrows step several shown YouTube ids (`MediaModal.ArrowKeysMoveYouTube`) |
| MediaModal.KeyStep | public/js/main.js:797-824 | a keydown seen by both listeners in registration order (`MediaModal.EscapeClosesOnce`) |
| MediaModal.FinishCloseStep | public/js/main.js:726-744 | the reset timer: every list emptied, every index 0, the modal hidden (`MediaModal.CloseResetsEverything`) |
| MediaModal.OpenCancellingResetStep | public/js/main.js:709-745 | corrected open that cancels the pending reset timers (`MediaModal.ReopenCancellingResetKeepsMedia`) |
| MediaModal.ShowMixedItemPicksContainer | public/js/main.js:579-614 | a video item shows the video container with its source, an image item the image container |
| MediaModal.OpenKeepsInv | public/js/main.js:427-545 | opening keeps every index inside its list |
| MediaModal.ShowKeepsInv | public/js/main.js:623-653 | next and previous keep the invariant |
| MediaModal.CloseKeepsInv | public/js/main.js:709-745 | closing and the close timer keep the invariant |
| MediaModal.ModalKeyKeepsInv | public/js/main.js:797-824 | the first keydown listener keeps the invariant |
| MediaModal.YouTubeKeyKeepsInv | public/js/main.js:1253-1267 | the YouTube keydown listener keeps the invariant |
| MediaModal.KeyKeepsInv | public/js/main.js:797-824 | a keydown through both listeners keeps the invariant |
| MediaModal.ShowMovesCyclically | public/js/main.js:623-653 | a step moves only its own list's index, cyclically, changes no list, and leaves an empty list alone |
| MediaModal.PrevUndoesNextInModal | public/js/main.js:623-653 | previous undoes next and next undoes previous |
| MediaModal.ShowForwardIndex | public/js/main.js:623-629 | k presses of next move the index k steps around the list |
| MediaModal.NextCyclesThroughList | public/js/main.js:623-629 | n presses of next through n entries return to the start |
| MediaModal.ShowDisplaysCurrent | public/js/main.js:547-621 | after a step the element shows the entry at the new index and the counter reads its position out of the length |
| MediaModal.RevealNavIffMany | public/js/main.js:491-496 | the buttons and counter appear iff the list has more than one entry, the counter at 1 of n |
| MediaModal.OpenYouTubeLoads | public/js/main.js:441-469 | YouTube ids load at index 0, the player gets the current id, and navigation shows iff there are several |
| MediaModal.OpenListLoads | public/js/main.js:470-540 | image, video and mixed lists load at index 0 with their container shown and navigation iff several |
| MediaModal.OpenRevealsNavIffMany | public/js/main.js:427-545 | opening shows the modal with the requested list at index 0 and navigation iff it has more than one entry; mixed media given `null` only hides the containers and keeps every list |
| MediaModal.OpenThenButtonsMoveOpened | public/js/main.js:764-794 | after a reset, the buttons move the list that was opened |
| MediaModal.ArrowKeysSkipShortLists | public/js/main.js:801-816 | arrow keys move only a list with more than one entry, never the YouTube ids |
| MediaModal.EscapeClosesOnce | public/js/main.js:799-800 | Escape closes a shown modal once although both listeners see it |
| MediaModal.ArrowKeysMoveYouTube | public/js/main.js:1260-1266 | when the first listener moves nothing, arrows step the YouTube ids iff several and shown |
| MediaModal.CloseResetsEverything | public/js/main.js:709-745 | once the close timer runs every list is empty, every index 0, and no YouTube id is current |
| MediaModal.ReopenWithinCloseDelayIsWiped | public/js/main.js:709-745 | as written, a modal reopened within 300 ms of closing is emptied and hidden while still marked shown |
| MediaModal.ReopenCancellingResetKeepsMedia | public/js/main.js:709-745 | corrected, reopening cancels the pending reset and keeps the loaded list |
| MediaModal.Modal.LoadYouTube | public/js/main.js:441-469 | the state moves as `OpenYouTube` |
| MediaModal.Modal.LoadMixed | public/js/main.js:470-496 | the state moves as `OpenMixed` |
| MediaModal.Modal.LoadVideos | public/js/main.js:497-518 | the state moves as `OpenVideos` |
| MediaModal.Modal.LoadImages | public/js/main.js:519-539 | the state moves as `OpenImages` |
| MediaModal.Modal.OpenModal | public/js/main.js:427-545 | the state moves as `OpenStep`, including the `null` source, and keeps the invariant |
| MediaModal.Modal.ShowImage | public/js/main.js:680-694 | the state moves as `ShowStep` on images |
| MediaModal.Modal.ShowVideo | public/js/main.js:639-653 | the state moves as `ShowStep` on videos |
| MediaModal.Modal.ShowMixed | public/js/main.js:623-637 | the state moves as `ShowStep` on mixed media |
| MediaModal.Modal.ShowYouTube | public/js/main.js:1196-1236 | the state moves as `ShowStep` on YouTube ids |
| MediaModal.Modal.OnNavButton | public/js/main.js:764-794 | the state moves as `ButtonStep` and keeps the invariant |
| MediaModal.Modal.CloseModal | public/js/main.js:709-725 | the state moves as `CloseStep` |
| MediaModal.Modal.OnModalKeyDown | public/js/main.js:797-824 | the state moves as `ModalKeyStep` |
| MediaModal.Modal.OnYouTubeKeyDown | public/js/main.js:1253-1267 | the state moves as `YouTubeKeyStep` |
| MediaModal.Modal.OnKeyDown | public/js/main.js:797-824 | the state moves as `KeyStep` |
| MediaModal.Modal.OnCloseTimer | public/js/main.js:726-744 | the state moves as `FinishCloseStep` |
| MediaModal.CleanPieces | public/js/main.js:474 | `.map(s => s.trim()).filter(s => s)`: never longer than its input, every entry non-empty and trimmed; `MediaModal.CleanPiecesAppend` and `MediaModal.CleanOfClean` state the rest |
| MediaModal.RevealNav | public/js/main.js:491-496 | buttons and counter shown, at 1 of n, for more than one entry; `MediaModal.RevealNavIffMany` states both directions |
| MediaModal.ShowMixedItem | public/js/main.js:579-614 | the current mixed item shown in the container of its kind; `MediaModal.ShowMixedItemPicksContainer` states it |
| MediaModal.Load | public/js/main.js:441-539 | the branch of `openModal` for one kind: `OpenYouTube`, `OpenMixed`, `OpenVideos` or `OpenImages` on the parsed list; `MediaModal.OpenKeepsInv` and `MediaModal.OpenRevealsNavIffMany` state its effect |
| MediaModal.Modal.constructor | public/js/main.js:405-419 | the page-load modal: empty lists at index 0, no current id, hidden, nothing pending; the state is `Initial` and satisfies the invariant |
| MediaModal.Modal.LoadKind | public/js/main.js:441-539 | the state moves as `Load` for the kind chosen |
| MediaModal.Modal.Show | public/js/main.js:623-694 | the state moves as `ShowStep` for the kind, and the invariant is kept |
| SiteMain.Rem60 | public/js/main.js:658 | JavaScript's `% 60` keeps the sign of the operand and stays below 60 in size |
| SiteMain.FormatTime | public/js/main.js:655-660 | `formatTime`: "0:00" for NaN, else minutes, a colon and two-digit seconds (`SiteMain.FormatTimeSplitsMinutes`, `SiteMain.FormatTimeReadsBack`) |
| SiteMain.FormatTimeSplitsMinutes | public/js/main.js:655-660 | for a time of at least 0, the text is the whole minutes, a colon and the whole seconds mod 60 in two digits |
| SiteMain.FormatTimeReadsBack | public/js/main.js:655-660 | reading the text back gives minutes and a two-digit second under 60 that together make the whole seconds |
| SiteMain.NaNShowsAsZero | public/js/main.js:656 | NaN shows as zero seconds do |
| SiteMain.ClockReadsBack | public/js/main.js:657-659 | the clock text of whole seconds reads back to them |
| SiteMain.IsEmail | public/js/main.js:354 | the e-mail decision: one `@`, a non-empty local part, no white space, and a dot with text on both sides after the `@` (`SiteMain.EmailPatternIff`) |
| SiteMain.EmailPatternIff | public/js/main.js:354 | the decision agrees with `/^[^\s@]+@[^\s@]+\.[^\s@]+$/` on every string, both ways |
| SiteMain.IsEmailMatches | public/js/main.js:354 | every accepted address matches the pattern |
| SiteMain.MatchIsEmail | public/js/main.js:354 | every match of the pattern is accepted |
| SiteMain.MissingKeys | public/js/main.js:341-350 | no more reports than entries |
| SiteMain.FirstValue | public/js/main.js:353 | `formData.get` finds a value iff some entry has the key |
| SiteMain.MissingKeysExact | public/js/main.js:341-350 | the reported keys are never the skipped ones, and none are reported iff nothing checked is blank |
| SiteMain.EmailRejected | public/js/main.js:353-358 | the e-mail check fails: a non-empty first `email` value whose trimmed text the pattern rejects |
| SiteMain.Accepted | public/js/main.js:341-359 | the form goes ahead: no checked field is blank and the e-mail is not rejected (`SiteMain.ValidateSubmission`) |
| SiteMain.CheckRequired | public/js/main.js:341-350 | the loop reports exactly the blank checked keys and is valid iff there are none |
| SiteMain.ValidateSubmission | public/js/main.js:333-369 | the form goes ahead iff nothing is missing and the e-mail is not rejected |
| SiteMain.SlideAfter | public/js/main.js:256-261 | the new slide index is in range |
| SiteMain.SlideDirectionsUndo | public/js/main.js:256-261 | next then prev (and prev then next) return; three nexts go round |
| SiteMain.HeroSlider.UpdateSlide | public/js/main.js:256-268 | the index steps as `SlideAfter`, the image fades out and one swap is scheduled |
| SiteMain.HeroSlider.OnSwapTimer | public/js/main.js:269-273 | the image takes the slide that is current when the timer fires, and shows |
| SiteMain.StartRotation | public/js/main.js:1318-1323 | a new interval runs and its id replaces the stored one |
| SiteMain.ClearRotation | public/js/main.js:1332 | clearing keeps the stored id naming only a running interval |
| SiteMain.ClickRotation | public/js/main.js:1307-1314 | the indicator click keeps the rotation well formed |
| SiteMain.EnterRotation | public/js/main.js:1331-1333 | `mouseenter` stops the running interval but keeps its id set (`SiteMain.HoverClickLeaveDoublesRotation`) |
| SiteMain.EnterClearingRotation | public/js/main.js:1331-1333 | corrected `mouseenter`: the interval stops and its id is dropped (`SiteMain.ClearingEnterKeepsOneRotation`) |
| SiteMain.LeaveRotation | public/js/main.js:1335-1337 | `mouseleave` starts one more interval (`SiteMain.ClearingEnterKeepsOneRotation`) |
| SiteMain.HoverClickLeaveDoublesRotation | public/js/main.js:1307-1337 | as written, hover, indicator click and leave leave two intervals running |
| SiteMain.ClearingEnterKeepsOneRotation | public/js/main.js:1307-1337 | corrected, every pointer event keeps one interval outside hover and none inside |
| SiteMain.CommentCarousel.UpdateIndicators | public/js/main.js:1281-1291 | exactly the indicator at the index is active |
| SiteMain.CommentCarousel.ShowComment | public/js/main.js:1293-1298 | the shown comment becomes the index and the timers are untouched |
| SiteMain.CommentCarousel.OnRotateTimer | public/js/main.js:1319-1322 | an auto-rotate tick shows the cyclically next comment |
| SiteMain.CommentCarousel.OnIndicatorClick | public/js/main.js:1307-1314 | a click shows that comment and restarts the timers as `ClickRotation` |
| SiteMain.CommentCarousel.OnMouseEnter | public/js/main.js:1331-1333 | the timers move as `EnterRotation` |
| SiteMain.CommentCarousel.OnMouseEnterClearingHandle | public/js/main.js:1331-1333 | the corrected handler moves the timers as `EnterClearingRotation` |
| SiteMain.CommentCarousel.OnMouseLeave | public/js/main.js:1335-1337 | the timers move as `LeaveRotation` |
| SiteMain.SidePanel.ApplyPanelState | public/js/main.js:201-206 | the four `open`/`no-scroll` classes move together to the requested state |
| SiteMain.SidePanel.TogglePanel | public/js/main.js:208-211 | toggling flips the panel state |
| SiteMain.SidePanel.ClosePanel | public/js/main.js:213 | closing leaves the panel closed |
| SiteMain.SidePanel.HandleNavClickAsWritten | public/js/main.js:221-237 | as written, `this` is not the link: every link loses `active`, the handler throws, and the panel stays as it was |
| SiteMain.SidePanel.HandleNavClick | public/js/main.js:221-228 | corrected, with the clicked link as `this`: the clicked link becomes the only active one and the panel ends closed |
| SiteMain.Skipped | public/js/main.js:343 | the hidden `form-name` and the honeypot `bot-field` are never checked |
| SiteMain.Missing | public/js/main.js:343-345 | an entry is reported when it is checked and blank after `trim()`; `SiteMain.MissingKeysExact` states the loop's result by it |
| SiteMain.PatternSplit | public/js/main.js:354 | one match of `^[^\s@]+@[^\s@]+\.[^\s@]+$`: the `@` and the escaped dot, with a non-empty run of the class before, between and after |
| SiteMain.MatchesEmailPattern | public/js/main.js:354 | the regular expression's test, as it reads: some split matches; `SiteMain.EmailPatternIff` proves it equal to `IsEmail` |
| SiteMain.HeroSlider.constructor | public/js/main.js:238-240 | the slider starts on slide 0, showing the markup's image, with no swap pending |
| SiteMain.CommentCarousel.constructor | public/js/main.js:1277-1326 | with at least one card, the carousel shows comment 0 and then runs exactly one auto-rotate interval |
| SiteMain.SidePanel.constructor | public/js/main.js:187-199 | the panel starts closed, with the four classes in step |
| CmsLoader.SourcePrefixRule | public/js/cms-loader.js:104-112 | the result is servable, ends with the input, and equals it iff the input was already servable, else gets the uploads prefix |
| CmsLoader.CoverPrefixRule | public/js/cms-loader.js:141-151 | the cover and slider rule: `http` kept, `/media/uploads/` kept, anything else prefixed (`CmsLoader.PrefixRulesAgree`) |
| CmsLoader.PrefixRulesAgree | public/js/cms-loader.js:141-151 | the cover rule (http tested first) and the source rule agree on every URL |
| CmsLoader.SourcePrefixRuleIdempotent | public/js/cms-loader.js:104-112 | applying the rule twice is applying it once |
| CmsLoader.NormalizeSource | public/js/cms-loader.js:90-114 | a kept source is servable and ends with the entry's text |
| CmsLoader.SourceText | public/js/cms-loader.js:94-101 | the text of one source: a string itself, an object's `url` or `src` or `String(source)`, and `String` of anything else (`CmsLoader.NullBecomesSource`) |
| CmsLoader.NormalizeSourceDrops | public/js/cms-loader.js:104-113 | an entry is dropped iff its text is blank |
| CmsLoader.ServableNotBlank | public/js/cms-loader.js:104-112 | a servable URL starts with `/` or `h` and is never blank |
| CmsLoader.NormalizeSources | public/js/cms-loader.js:90-114 | at most one source per entry, each servable |
| CmsLoader.NormalizeSourcesAppend | public/js/cms-loader.js:90-114 | normalisation keeps the entry order |
| CmsLoader.NormalizeSourcesEmpty | public/js/cms-loader.js:90-114 | no source survives iff every entry's text is blank |
| CmsLoader.NormalizeServableText | public/js/cms-loader.js:104-108 | a servable string is its own normal form |
| CmsLoader.NormalizeSourcesIdempotent | public/js/cms-loader.js:90-114 | normalising the normalised sources changes nothing |
| CmsLoader.MediaSrcsAttribute | public/js/cms-loader.js:87-119 | the attribute is absent iff every entry's text is blank |
| CmsLoader.ServableKeptWhole | public/js/cms-loader.js:104-118 | a single servable source is written to the attribute unchanged |
| CmsLoader.ParseTwoPieces | public/js/main.js:474 | two clean pieces joined by a comma parse back into the two |
| CmsLoader.CommaInUrlSplits | public/js/cms-loader.js:116-118 | as written, an absolute URL with a comma is written whole but the modal reads it as two sources |
| CmsLoader.NullBecomesSource | public/js/cms-loader.js:99-110 | as written, a `null` entry becomes `/media/uploads/null` |
| CmsLoader.EmptyRecordBecomesSource | public/js/cms-loader.js:96-110 | as written, an object without `url` or `src` becomes `/media/uploads/[object Object]` |
| CmsLoader.EncodeCommas | public/js/cms-loader.js:116-118 | the encoding leaves no comma, keeps non-empty text non-empty with related ends, and leaves comma-free text alone |
| CmsLoader.PrefixRuleKeepsTrimmed | public/js/cms-loader.js:104-112 | the rule keeps trimmed text trimmed |
| CmsLoader.EncodeKeepsTrimmed | public/js/cms-loader.js:116-118 | encoding keeps trimmed text trimmed |
| CmsLoader.EncodedIsClean | public/js/cms-loader.js:104-118 | a trimmed source, prefixed and encoded, is an entry the modal keeps whole |
| CmsLoader.CorrectedSource | public/js/cms-loader.js:90-114 | a corrected source is non-empty, trimmed and comma-free |
| CmsLoader.CorrectedSources | public/js/cms-loader.js:90-114 | every corrected source is clean |
| CmsLoader.CorrectedDropsNullAndEmptyRecord | public/js/cms-loader.js:94-114 | corrected, `null` and an empty object are dropped |
| CmsLoader.CorrectedSourcesRoundTrip | public/js/cms-loader.js:116-118 | corrected, the modal parses back exactly the list the tile wrote |
| CmsLoader.CoverString | public/js/cms-loader.js:133-138 | a chosen cover string is non-empty |
| CmsLoader.ServableIsNotPlaceholder | public/js/cms-loader.js:156 | no servable URL is the placeholder |
| CmsLoader.CoverSrc | public/js/cms-loader.js:133-157 | the cover is never empty; it is the placeholder iff no cover string was found, otherwise servable |
| CmsLoader.CoverPrefersCoverImageUrl | public/js/cms-loader.js:133 | a usable `coverImageUrl` decides the cover alone |
| CmsLoader.CoverFallsBackToCoverImage | public/js/cms-loader.js:133-138 | an unusable `coverImageUrl` falls through to `coverImage` |
| CmsLoader.CreateTile | public/js/cms-loader.js:80-176 | media type defaults to "image"; sources are the attribute; YouTube id and thumbnail present iff an id is; the default thumbnail is the first id; the cover is non-empty; the small label and title sizes apply above 8 and 25 characters |
| CmsLoader.FirstPieceIsPrefix | public/js/cms-loader.js:123 | the first piece of a split is a prefix of the string |
| CmsLoader.ThumbnailOfFirstId | public/js/cms-loader.js:121-124 | with several ids and no stored thumbnail, the thumbnail is the first id |
| CmsLoader.SourcelessTileInModal | public/js/cms-loader.js:363-368 | a tile without `data-media-srcs` hands `null` to `openModal`: an image or video tile opens on the one entry "null", a mixed tile never opens the modal |
| CmsLoader.PayloadFormatsAgree | public/js/cms-loader.js:23 | a bare array and an object holding it give the same list; an object without it gives none |
| CmsLoader.Unwrap | public/js/cms-loader.js:23 | a bare array as it is, otherwise the list under the key, or `[]` when that is missing, as also at lines 185 and 270 (`CmsLoader.PayloadFormatsAgree`) |
| CmsLoader.IndividualProjects | public/js/cms-loader.js:43-48 | the individual-file fallback yields no project |
| CmsLoader.LoadProjects | public/js/cms-loader.js:16-40 | projects render iff the response is ok, with the unwrapped list |
| CmsLoader.LoadList | public/js/cms-loader.js:179-192 | comments and slides render iff the response is ok, with the unwrapped list |
| CmsLoader.ProjectsLoadLikeOtherLists | public/js/cms-loader.js:16-40 | the empty fallback makes projects load exactly as the other lists, an ok empty list included |
| CmsLoader.SwapDown | public/js/cms-loader.js:62 | a swap exchanges two neighbours and keeps the elements |
| CmsLoader.InsertDown | public/js/cms-loader.js:62 | inserting into a sorted prefix keeps it sorted, keeps the elements and leaves the rest alone |
| CmsLoader.SortBy | public/js/cms-loader.js:62 | the in-place sort leaves the array ascending by key with the same elements |
| CmsLoader.AppendEach | public/js/cms-loader.js:68-71 | the built elements come one per array element, in array order |
| CmsLoader.Grid.RenderProjects | public/js/cms-loader.js:51-77 | without a grid nothing changes; otherwise the projects are sorted by id in place and the tiles are exactly one `CreateTile` per project, in that order |
| CmsLoader.BuildIndicators | public/js/cms-loader.js:248-260 | `count` dots numbered from 0, only the first active |
| CmsLoader.CommentsSection.UpdateCommentIndicators | public/js/cms-loader.js:232-261 | without the section nothing changes; a container exists iff it did or can be appended; it holds exactly `count` dots, only the first active |
| CmsLoader.CommentsSection.RenderComments | public/js/cms-loader.js:194-230 | without the wrapper nothing changes; otherwise the comments are sorted by id, become the cards in order, and the indicators are rebuilt as `updateCommentIndicators` does: unchanged without the section, a container iff one existed or can be appended, then `|cards|` dots numbered from 0 with only the first active |
| CmsLoader.SliderSrc | public/js/cms-loader.js:295-308 | empty iff both fields are; otherwise servable and ending with the field chosen |
| CmsLoader.SlideImageAt | public/js/cms-loader.js:310-313 | only the first image is visible; it carries the slide's alt and source |
| CmsLoader.SliderView.RenderSlider | public/js/cms-loader.js:279-328 | without the slider nothing changes; otherwise the slides are sorted by order and the images are one per slide, in order, only the first visible |
| CmsLoader.IsServable | public/js/cms-loader.js:104-108 | a URL kept as it is: an upload path or an `http` address; `CmsLoader.SourcePrefixRule` always returns one |
| CmsLoader.Truthy | public/js/cms-loader.js:133 | JavaScript truthiness of a cover field: missing and empty are falsy, an object is truthy; `CmsLoader.CoverPrefersCoverImageUrl` and `CmsLoader.CoverFallsBackToCoverImage` rely on it |
| CmsLoader.TileMediaArg | public/js/cms-loader.js:365 | the `data-media-srcs` attribute read back: `null` when absent, otherwise its text; `CmsLoader.SourcelessTileInModal` follows the `null` into the modal |
| CmsLoader.TileYouTubeArg | public/js/cms-loader.js:366 | the `data-youtube-id` attribute read back, an absent one as the empty id |
| CmsLoader.CorrectedSourceText | public/js/cms-loader.js:94-101 | corrected: `null` and an object without `url` and `src` give empty text and are dropped (`CmsLoader.CorrectedDropsNullAndEmptyRecord`) |
| CmsLoader.NullSourcesOpen | public/js/main.js:427-545 | `openModal` given `null` sources: an image or video open loads ["null"] and opens; a mixed open keeps the classes and every list |
| CmsLoader.ProjectId | public/js/cms-loader.js:62 | the key of `(a, b) => a.id - b.id`; `CmsLoader.SortBy` sorts ascending by it |
| CmsLoader.CommentId | public/js/cms-loader.js:199 | the key of `(a, b) => a.id - b.id` for comments |
| CmsLoader.SlideOrder | public/js/cms-loader.js:284 | the key of `(a, b) => a.order - b.order` for slides |

## Left out

- **Effects not modelled:** DOM rendering, Tailwind class strings and `innerHTML` markup. They decide appearance only.
- **String lengths:** JavaScript's `.length` counts UTF-16 code units, while `|s|` counts Dafny characters. The label-size flags of `CmsLoader.CreateTile` (`cms-loader.js:127-128`) therefore differ for text outside the Basic Multilingual Plane: a category of 8 characters holding one emoji has 9 code units and gets the small label in the browser, but not in the model.
- **Inputs become parameters:** `fetch` and JSON parsing. A loader receives the response as a value (`Response`, `Payload`).
- **Exceptions:** a project without a `category` or `title` string makes `createProjectTile` throw. The model's records always carry strings.
- **Type checks on records:** projects, comments and slides carry typed fields. Non-string `url`/`src` fields, NaN ids and orders, and a slide image field that is not a string are outside the model.
- **Sort order:** `Array.prototype.sort` is stable. `CmsLoader.SortBy` promises only ascending order and the same elements, not the relative order of equal keys.
- **Timers and animation frames** are methods the caller invokes in some order. Time itself, debouncing (`clearTimeout(resizeTimer)`) and the 100 ms boot delay are not modelled. The 5 s rotation interval is not modelled either; only the number of running intervals is.
- **Players and cursor:** the YouTube player and HTML video element (play, pause, seek, volume, mute, player state, progress updates and `updateVideoSeek`) and the custom cursor. These are foreign player APIs and pointer effects.
- **The Space key:** it only toggles playback.
- **Listeners rebuilt after loading:** the static tile click listeners (`main.js:748-761`), the cloning in `reinitializeProjectTiles` and `initImageSlider`. The arguments a rebuilt tile passes to `openModal` are modelled (`CmsLoader.TileMediaArg`, `CmsLoader.SourcelessTileInModal`); the cloning and `initImageSlider` only rewire listeners.
- **The `commentsLoaded` event:** no listener for it exists in these scripts.
- **About page:** the side panel's open and close (`about-me.js:19-39`) set attributes and focus, and only the focus trap is modelled. The social-icon hover transforms (`main.js:280-288`) are not modelled.
- **Shared `no-scroll` class:** the side panel and the modal both set `no-scroll` on the body. `SiteMain.SidePanel` and `MediaModal.Modal` each track their own copy, so the interference between them is not captured.
- **SiteMain.FormatTime:** stated for NaN and non-negative finite times only. Negative times and Infinity (the duration of an unbounded stream, which prints as `Infinity:NaN`) are not modelled.
- **Marquee.Engine.CalculateSetWidth:** takes the measured widths as given. `rect.width || offsetWidth || 0` is folded into one number per child.
- **Marquee.GetGap:** `parseFloat` is a parameter (`parsed`, `fontSize`), not a parser over the text.
- **Number width:** JavaScript numbers are modelled as unbounded integers and reals. Floating-point rounding is not modelled, so the marquee's offsets are exact.

## Findings

| source | as written | input that shows it | evidently intended | confidence | as-written member | corrected member |
|---|---|---|---|---|---|---|
| public/js/about-me.js:385-393 | the resize handler sets `originalItemCount = 0` while the clones are still in the track, so `init` counts them as originals | a track of n items that started; then one resize and a successful measurement | the track keeps n originals and 3n children | high, not executed | Marquee.ResizeTriplesTrack | Marquee.ResizeStrippingClonesKeepsTrack |
| public/js/main.js:709-745 | the 300 ms close timer is never cancelled, so it empties the lists and hides a modal reopened within the delay | close, then open a gallery within 300 ms | the reopened modal keeps its media | high, not executed | MediaModal.ReopenWithinCloseDelayIsWiped | MediaModal.ReopenCancellingResetKeepsMedia |
| public/js/main.js:1307-1337 | `mouseenter` clears the interval but leaves its id set, so an indicator click while hovering starts a new interval and `mouseleave` starts another | hover the comments, click an indicator, leave | one auto-rotate interval outside hover | high, not executed | SiteMain.HoverClickLeaveDoublesRotation | SiteMain.ClearingEnterKeepsOneRotation |
| public/js/cms-loader.js:116-118 | sources are joined with commas unescaped, and the modal splits on commas | a source `https://cdn.example/a,b.jpg` | the modal receives the one URL | medium, not executed | CmsLoader.CommaInUrlSplits | CmsLoader.CorrectedSourcesRoundTrip |
| public/js/cms-loader.js:94-114 | `String(null)` and `String({})` are non-blank, so a null entry or an object without `url`/`src` becomes an uploads URL | `mediaSources: [null]` or `[{}]` | such entries are dropped like blank ones | medium, not executed | CmsLoader.NullBecomesSource | CmsLoader.CorrectedDropsNullAndEmptyRecord |
| public/js/main.js:221-237 | the link listeners call `handleNavClick(e, links)` as a plain function, so `this.classList.add` throws after every link loses `active` | open the side panel and click a mobile nav link | the clicked link becomes active and the panel closes | high, not executed | SiteMain.SidePanel.HandleNavClickAsWritten | SiteMain.SidePanel.HandleNavClick |
