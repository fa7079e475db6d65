/** The project media modal of public/js/main.js: parsing the comma-separated
    source lists, telling videos from images, stepping through images,
    videos, mixed media and YouTube ids, choosing the list a button or an
    arrow key moves, and the reset after closing.

    The YouTube player and the HTML video element are foreign objects: the
    model only records which id the player was last created with and which
    source each element shows. The 300 ms reset after closing is a timer
    whose callback is `FinishCloseStep`. */
module MediaModal {
  import opened Wrappers
  import opened JsText
  import opened Lists
  import Cyclic

  // ---------------------------------------------------------------------
  // Source lists
  // ---------------------------------------------------------------------

  /** One piece trimmed, `None` when nothing is left. */
  function TrimmedPiece(p: string): (r: Option<string>)
    ensures r.Some? ==> r.value != [] && IsTrimmed(r.value)
  {
    var t := Trim(p);
    if |t| == 0 then None else Some(t)
  }

  /** An entry of a parsed source list. */
  predicate IsParsedEntry(u: string) {
    u != [] && IsTrimmed(u)
  }

  /** What the parser keeps of a list: non-empty, trimmed and comma-free,
      so that a comma-join of such entries splits back into them. */
  predicate IsCleanEntry(u: string) {
    IsParsedEntry(u) && ',' !in u
  }

  /** Trims every piece and drops those that are then empty. */
  function CleanPieces(pieces: seq<string>): (r: seq<string>)
    ensures |r| <= |pieces|
    ensures forall i :: 0 <= i < |r| ==> IsParsedEntry(r[i])
  {
    FilterMapAll(TrimmedPiece, pieces, IsParsedEntry);
    FilterMap(TrimmedPiece, pieces)
  }

  /** Cleaning works piece by piece: it keeps the order of the input. */
  lemma CleanPiecesAppend(a: seq<string>, b: seq<string>)
    ensures CleanPieces(a + b) == CleanPieces(a) + CleanPieces(b)
  {
    FilterMapAppend(TrimmedPiece, a, b);
  }

  /** `s.split(',').map(x => x.trim()).filter(x => x)`. */
  function ParseSourceList(s: string): (r: seq<string>)
    ensures forall i :: 0 <= i < |r| ==> IsParsedEntry(r[i])
  {
    CleanPieces(Split(s, ','))
  }

  /** No parsed entry contains a comma. */
  lemma CleanPiecesNoComma(pieces: seq<string>)
    requires forall i :: 0 <= i < |pieces| ==> ',' !in pieces[i]
    ensures forall i :: 0 <= i < |CleanPieces(pieces)| ==> IsCleanEntry(CleanPieces(pieces)[i])
  {
    forall i | 0 <= i < |pieces| {
      TrimInside(pieces[i]);
    }
    FilterMapAll(TrimmedPiece, pieces, IsCleanEntry);
  }

  /** What `Trim` keeps is a slice of its input. */
  lemma TrimInside(s: string)
    ensures forall c :: c in Trim(s) ==> c in s
  {
    var t := TrimStart(s);
    assert forall c :: c in TrimEnd(t) ==> c in t;
    assert forall c :: c in t ==> c in s;
  }

  /** Parsed entries are non-empty, trimmed and comma-free. */
  lemma ParsedEntriesClean(s: string)
    ensures forall i :: 0 <= i < |ParseSourceList(s)| ==> IsCleanEntry(ParseSourceList(s)[i])
  {
    CleanPiecesNoComma(Split(s, ','));
  }

  /** Cleaning already clean pieces changes nothing. */
  lemma CleanOfClean(xs: seq<string>)
    requires forall i :: 0 <= i < |xs| ==> IsParsedEntry(xs[i])
    ensures CleanPieces(xs) == xs
  {
    forall i | 0 <= i < |xs| {
      TrimOfTrimmed(xs[i]);
    }
    FilterMapTotal(TrimmedPiece, xs, xs);
  }

  /** Joining clean entries with commas and parsing gives them back. */
  lemma ParseJoin(xs: seq<string>)
    requires forall i :: 0 <= i < |xs| ==> IsCleanEntry(xs[i])
    ensures ParseSourceList(Join(xs, ',')) == xs
  {
    if |xs| == 0 {
      assert Split([], ',') == [[]];
      assert Trim([]) == [];
      assert TrimmedPiece([]) == None;
    } else {
      SplitJoin(xs, ',');
      CleanOfClean(xs);
    }
  }

  /** Parsing twice is parsing once. */
  lemma ParseIdempotent(s: string)
    ensures ParseSourceList(Join(ParseSourceList(s), ',')) == ParseSourceList(s)
  {
    ParsedEntriesClean(s);
    ParseJoin(ParseSourceList(s));
  }

  // ---------------------------------------------------------------------
  // isVideoFile and mixed media
  // ---------------------------------------------------------------------

  /** The extension list of `isVideoFile`, upper-case spellings included. */
  const VideoExtensions: seq<string> := [".mp4", ".MP4", ".mov", ".MOV", ".webm", ".WEBM", ".avi", ".AVI"]

  /** `isVideoFile(src)`: the lower-cased source ends in one of the
      extensions. */
  predicate IsVideoFile(src: string) {
    exists i :: 0 <= i < |VideoExtensions| && EndsWith(ToLower(src), VideoExtensions[i])
  }

  /** No upper-case ASCII letter is left after `ToLower`. */
  predicate IsLowerCased(s: string) {
    forall i :: 0 <= i < |s| ==> !('A' <= s[i] <= 'Z')
  }

  lemma ToLowerIsLowerCased(s: string)
    ensures IsLowerCased(ToLower(s))
  {
  }

  /** A lower-cased string cannot end in an extension spelled in capitals. */
  lemma LowerMissesUpperExtension(low: string, ext: string)
    requires IsLowerCased(low)
    requires |ext| >= 2 && 'A' <= ext[1] <= 'Z'
    ensures !EndsWith(low, ext)
  {
    if |ext| <= |low| {
      assert low[|low| - |ext|..][1] == ext[1] || low[|low| - |ext|..] != ext;
    }
  }

  /** Since the source is lower-cased first, the upper-case spellings of
      the list never match: a file is a video exactly when its lower-cased
      name ends in `.mp4`, `.mov`, `.webm` or `.avi`. */
  lemma IsVideoFileLowerCase(src: string)
    ensures var low := ToLower(src);
      IsVideoFile(src) <==>
        EndsWith(low, ".mp4") || EndsWith(low, ".mov") || EndsWith(low, ".webm") || EndsWith(low, ".avi")
  {
    var low := ToLower(src);
    ToLowerIsLowerCased(src);
    LowerMissesUpperExtension(low, ".MP4");
    LowerMissesUpperExtension(low, ".MOV");
    LowerMissesUpperExtension(low, ".WEBM");
    LowerMissesUpperExtension(low, ".AVI");
    assert VideoExtensions[0] == ".mp4" && VideoExtensions[2] == ".mov";
    assert VideoExtensions[4] == ".webm" && VideoExtensions[6] == ".avi";
  }

  datatype ItemKind = Image | Video

  /** An entry of `currentMixedMedia`. */
  datatype MediaItem = MediaItem(src: string, kind: ItemKind)

  /** The `map` that types each mixed source. */
  function Classify(srcs: seq<string>): (r: seq<MediaItem>)
    ensures |r| == |srcs|
    ensures forall i :: 0 <= i < |r| ==> r[i].src == srcs[i] && (r[i].kind == Video <==> IsVideoFile(srcs[i]))
  {
    seq(|srcs|, i requires 0 <= i < |srcs| => MediaItem(srcs[i], if IsVideoFile(srcs[i]) then Video else Image))
  }

  /** The `mediaSrcs` argument: a string to parse, an array used as-is,
      or `null` (what a tile without `data-media-srcs` passes), which
      `openModal` wraps as `[mediaSrcs]`. */
  datatype MediaArg = Text(s: string) | Items(items: seq<string>) | Null

  /** The list an image or video branch loads. The `null` entry is only
      ever assigned to an element's `src`, which stores it as the text
      "null". */
  function ListOf(arg: MediaArg): seq<string> {
    match arg
    case Text(s) => ParseSourceList(s)
    case Items(xs) => xs
    case Null => ["null"]
  }

  // ---------------------------------------------------------------------
  // The modal's state and its transitions
  // ---------------------------------------------------------------------

  datatype MediaKind = Images | Videos | Mixed | YouTube

  /** A media list with its current index (`currentImages` with
      `currentImageIndex`, and so on). */
  datatype Cursor<T> = Cursor(items: seq<T>, index: nat)

  /** What the shared counter spans last showed: position and total. */
  datatype Counter = Counter(position: nat, total: nat)

  /** The DOM state the modal drives: which containers are shown, whether
      the prev/next buttons and the counter are shown, what the image and
      video elements display, the id the YouTube player was last created
      with, and the modal's `show` and `hidden` classes. */
  datatype View = View(
    imageShown: bool, videoShown: bool, youTubeShown: bool, navShown: bool,
    counter: Option<Counter>, imageSrc: string, videoSrc: string, playerId: Option<string>,
    open: bool, hidden: bool)

  /** The module variables of the modal, the DOM state and the number of
      pending close timers. */
  datatype ModalState = ModalState(
    images: Cursor<string>, videos: Cursor<string>, mixed: Cursor<MediaItem>,
    youTube: Cursor<string>, youTubeId: Option<string>,
    view: View, pendingResets: nat)

  /** Every index stays inside its list (0 for an empty list), and the
      current YouTube id is the one at the YouTube index. */
  predicate Inv(s: ModalState) {
    && Cyclic.InRange(s.images.index, |s.images.items|)
    && Cyclic.InRange(s.videos.index, |s.videos.items|)
    && Cyclic.InRange(s.mixed.index, |s.mixed.items|)
    && Cyclic.InRange(s.youTube.index, |s.youTube.items|)
    && (|s.youTube.items| == 0 ==> s.youTubeId.None?)
    && (|s.youTube.items| > 0 ==> s.youTubeId == Some(s.youTube.items[s.youTube.index]))
  }

  /** The page as loaded: nothing open, every list empty. */
  function Initial(): (s: ModalState)
    ensures Inv(s)
  {
    ModalState(Cursor([], 0), Cursor([], 0), Cursor([], 0), Cursor([], 0), None,
               View(false, false, false, false, None, "", "", None, false, true), 0)
  }

  function Len(s: ModalState, kind: MediaKind): nat {
    match kind
    case Images => |s.images.items|
    case Videos => |s.videos.items|
    case Mixed => |s.mixed.items|
    case YouTube => |s.youTube.items|
  }

  function Index(s: ModalState, kind: MediaKind): nat {
    match kind
    case Images => s.images.index
    case Videos => s.videos.index
    case Mixed => s.mixed.index
    case YouTube => s.youTube.index
  }

  /** One step forward or back around a list of length `n`. */
  function Step(i: nat, n: nat, forward: bool): (r: nat)
    requires n > 0
    ensures r < n
  {
    if forward then Cyclic.Next(i, n) else Cyclic.Prev(i, n)
  }

  /** Shows the buttons and the counter, at position 1, when a list has
      more than one entry. */
  function RevealNav(v: View, n: nat): View {
    if n > 1 then v.(navShown := true, counter := Some(Counter(1, n))) else v
  }

  /** `updateMixedMedia()`: show the current mixed item in the container
      of its kind. */
  function ShowMixedItem(v: View, mixed: Cursor<MediaItem>): View {
    if mixed.index < |mixed.items| then
      var item := mixed.items[mixed.index];
      if item.kind == Video then v.(imageShown := false, videoShown := true, videoSrc := item.src)
      else v.(videoShown := false, imageShown := true, imageSrc := item.src)
    else v
  }

  function OpenYouTube(s: ModalState, id: string): ModalState {
    if Includes(id, ",") then
      var ids := ParseSourceList(id);
      var current := if |ids| == 0 then None else Some(ids[0]);
      s.(youTube := Cursor(ids, 0), youTubeId := current,
         view := RevealNav(s.view, |ids|).(youTubeShown := true, playerId := current))
    else
      s.(youTube := Cursor([id], 0), youTubeId := Some(id),
         view := s.view.(youTubeShown := true, playerId := Some(id)))
  }

  function OpenMixed(s: ModalState, srcs: seq<string>): ModalState {
    var mixed := Cursor(Classify(srcs), 0);
    s.(mixed := mixed, view := RevealNav(ShowMixedItem(s.view, mixed), |srcs|))
  }

  function OpenVideos(s: ModalState, srcs: seq<string>): ModalState {
    var v := if |srcs| > 0 then s.view.(videoSrc := srcs[0]) else s.view;
    s.(videos := Cursor(srcs, 0), view := RevealNav(v.(videoShown := true), |srcs|))
  }

  function OpenImages(s: ModalState, srcs: seq<string>): ModalState {
    var v := if |srcs| > 0 then s.view.(imageSrc := srcs[0]) else s.view;
    s.(images := Cursor(srcs, 0), view := RevealNav(v.(imageShown := true), |srcs|))
  }

  /** The kind `openModal` loads for its arguments; an absent YouTube id
      is the empty string, and every media type other than `youtube`,
      `mixed` and `video` opens as images. */
  function OpenedKind(mediaType: string, youTubeId: string): MediaKind {
    if mediaType == "youtube" && |youTubeId| > 0 then YouTube
    else if mediaType == "mixed" then Mixed
    else if mediaType == "video" then Videos
    else Images
  }

  /** Every container, the buttons and the counter hidden. */
  function HideAll(s: ModalState): ModalState {
    s.(view := s.view.(imageShown := false, videoShown := false, youTubeShown := false, navShown := false))
  }

  /** Loads the list of one kind into a modal whose containers are hidden. */
  function Load(s: ModalState, kind: MediaKind, srcs: MediaArg, youTubeId: string): ModalState {
    match kind
    case YouTube => OpenYouTube(s, youTubeId)
    case Mixed => OpenMixed(s, ListOf(srcs))
    case Videos => OpenVideos(s, ListOf(srcs))
    case Images => OpenImages(s, ListOf(srcs))
  }

  /** The mixed branch given `null`: `isVideoFile(null)` throws at
      `toLowerCase`, so `openModal` stops once every container is hidden
      and before any list changes. */
  predicate OpenThrows(mediaType: string, srcs: MediaArg, youTubeId: string) {
    OpenedKind(mediaType, youTubeId) == Mixed && srcs.Null?
  }

  /** `openModal(mediaType, mediaSrcs, youtubeId)`. */
  function OpenStep(s: ModalState, mediaType: string, srcs: MediaArg, youTubeId: string): ModalState {
    if OpenThrows(mediaType, srcs, youTubeId) then HideAll(s)
    else
      var s1 := Load(HideAll(s), OpenedKind(mediaType, youTubeId), srcs, youTubeId);
      s1.(view := s1.view.(hidden := false, open := true))
  }

  /** `showNext*` (forward) and `showPrev*` for one kind: an empty list is
      left alone. */
  function ShowStep(s: ModalState, kind: MediaKind, forward: bool): ModalState {
    if Len(s, kind) == 0 then s
    else
      var n := Len(s, kind);
      var i := Step(Index(s, kind), n, forward);
      var counted := s.view.(counter := Some(Counter(i + 1, n)));
      match kind
      case Images => s.(images := s.images.(index := i), view := counted.(imageSrc := s.images.items[i]))
      case Videos => s.(videos := s.videos.(index := i), view := counted.(videoSrc := s.videos.items[i]))
      case Mixed =>
        var mixed := s.mixed.(index := i);
        s.(mixed := mixed, view := ShowMixedItem(counted, mixed))
      case YouTube =>
        var id := s.youTube.items[i];
        var v := if n > 1 then counted else s.view;
        s.(youTube := s.youTube.(index := i), youTubeId := Some(id), view := v.(playerId := Some(id)))
  }

  /** The list the prev/next buttons move. */
  function ButtonTarget(s: ModalState): MediaKind {
    if |s.youTube.items| > 1 && s.view.youTubeShown then YouTube
    else if |s.mixed.items| > 0 then Mixed
    else if s.view.videoShown then Videos
    else Images
  }

  /** A click on the next (forward) or previous button. */
  function ButtonStep(s: ModalState, forward: bool): ModalState {
    ShowStep(s, ButtonTarget(s), forward)
  }

  /** The list the arrow keys move, if any. */
  function ArrowTarget(s: ModalState): Option<MediaKind> {
    if |s.mixed.items| > 1 then Some(Mixed)
    else if s.view.videoShown && |s.videos.items| > 1 then Some(Videos)
    else if |s.images.items| > 1 then Some(Images)
    else None
  }

  /** `closeModalFn()` up to its timer: the `show` class goes and the
      reset is scheduled. */
  function CloseStep(s: ModalState): ModalState {
    s.(view := s.view.(open := false), pendingResets := s.pendingResets + 1)
  }

  /** The first document keydown listener, which acts only while the
      modal is shown; its space bar only toggles video playback, which is
      not modelled. */
  function ModalKeyStep(s: ModalState, key: string): ModalState {
    if !s.view.open then s
    else if key == "Escape" then CloseStep(s)
    else if key == "ArrowRight" || key == "ArrowLeft" then
      match ArrowTarget(s)
      case Some(kind) => ShowStep(s, kind, key == "ArrowRight")
      case None => s
    else s
  }

  /** The second keydown listener: Escape closes a shown modal, and the
      arrow keys step through more than one YouTube id while their
      container is visible, whether or not the modal is shown. Its space
      bar only toggles the YouTube player, which is not modelled. */
  function YouTubeKeyStep(s: ModalState, key: string): ModalState {
    if key == "Escape" && s.view.open then CloseStep(s)
    else if (key == "ArrowRight" || key == "ArrowLeft") && |s.youTube.items| > 1 && s.view.youTubeShown then
      ShowStep(s, YouTube, key == "ArrowRight")
    else s
  }

  /** A keydown: both listeners, in the order they were registered. */
  function KeyStep(s: ModalState, key: string): ModalState {
    YouTubeKeyStep(ModalKeyStep(s, key), key)
  }

  /** The close timer: hide the modal and empty every list. */
  function FinishCloseStep(s: ModalState): ModalState
    requires s.pendingResets > 0
  {
    s.(images := Cursor([], 0), videos := Cursor([], 0), mixed := Cursor([], 0),
       youTube := Cursor([], 0), youTubeId := None,
       view := s.view.(hidden := true, imageSrc := "", videoSrc := ""),
       pendingResets := s.pendingResets - 1)
  }

  /** Opening with the pending close timers cancelled. */
  function OpenCancellingResetStep(s: ModalState, mediaType: string, srcs: MediaArg, youTubeId: string): ModalState {
    OpenStep(s, mediaType, srcs, youTubeId).(pendingResets := 0)
  }

  // ---------------------------------------------------------------------
  // Properties
  // ---------------------------------------------------------------------

  /** Showing a mixed item picks the container of its kind. */
  lemma ShowMixedItemPicksContainer(v: View, mixed: Cursor<MediaItem>)
    requires mixed.index < |mixed.items|
    ensures var r := ShowMixedItem(v, mixed); var item := mixed.items[mixed.index];
      && (item.kind == Video ==> r.videoShown && !r.imageShown && r.videoSrc == item.src)
      && (item.kind == Image ==> r.imageShown && !r.videoShown && r.imageSrc == item.src)
  {
  }

  /** Every transition keeps the index invariant. */
  lemma OpenYouTubeKeepsInv(s: ModalState, id: string)
    requires Inv(s)
    ensures Inv(OpenYouTube(s, id))
  {
  }

  lemma OpenListKeepsInv(s: ModalState, srcs: seq<string>)
    requires Inv(s)
    ensures Inv(OpenMixed(s, srcs)) && Inv(OpenVideos(s, srcs)) && Inv(OpenImages(s, srcs))
  {
  }

  lemma LoadKeepsInv(s: ModalState, kind: MediaKind, srcs: MediaArg, youTubeId: string)
    requires Inv(s)
    ensures Inv(Load(s, kind, srcs, youTubeId))
  {
    match kind
    case YouTube => OpenYouTubeKeepsInv(s, youTubeId);
    case _ => OpenListKeepsInv(s, ListOf(srcs));
  }

  lemma OpenKeepsInv(s: ModalState, mediaType: string, srcs: MediaArg, youTubeId: string)
    requires Inv(s)
    ensures Inv(OpenStep(s, mediaType, srcs, youTubeId))
    ensures Inv(OpenCancellingResetStep(s, mediaType, srcs, youTubeId))
  {
    if !OpenThrows(mediaType, srcs, youTubeId) {
      var s1 := Load(HideAll(s), OpenedKind(mediaType, youTubeId), srcs, youTubeId);
      LoadKeepsInv(HideAll(s), OpenedKind(mediaType, youTubeId), srcs, youTubeId);
      assert OpenStep(s, mediaType, srcs, youTubeId) == s1.(view := s1.view.(hidden := false, open := true));
    }
  }

  lemma ShowKeepsInv(s: ModalState, kind: MediaKind, forward: bool)
    requires Inv(s)
    ensures Inv(ShowStep(s, kind, forward))
  {
    match kind
    case Images =>
    case Videos =>
    case Mixed =>
    case YouTube =>
  }

  lemma CloseKeepsInv(s: ModalState)
    requires Inv(s)
    ensures Inv(CloseStep(s))
    ensures s.pendingResets > 0 ==> Inv(FinishCloseStep(s))
  {
  }

  lemma ModalKeyKeepsInv(s: ModalState, key: string)
    requires Inv(s)
    ensures Inv(ModalKeyStep(s, key))
  {
    match ArrowTarget(s)
    case Some(kind) => ShowKeepsInv(s, kind, key == "ArrowRight");
    case None =>
  }

  lemma YouTubeKeyKeepsInv(s: ModalState, key: string)
    requires Inv(s)
    ensures Inv(YouTubeKeyStep(s, key))
  {
    ShowKeepsInv(s, YouTube, key == "ArrowRight");
  }

  /** A keydown reaching both listeners keeps the invariant. */
  lemma KeyKeepsInv(s: ModalState, key: string)
    requires Inv(s)
    ensures Inv(KeyStep(s, key))
  {
    ModalKeyKeepsInv(s, key);
    YouTubeKeyKeepsInv(ModalKeyStep(s, key), key);
  }

  /** Next moves the index one step around the list, previous one step
      back; an empty list is left unchanged. Only the stepped kind's index
      moves, and no list changes. */
  lemma ShowMovesCyclically(s: ModalState, kind: MediaKind, forward: bool)
    ensures var r := ShowStep(s, kind, forward);
      && r.images.items == s.images.items && r.videos.items == s.videos.items
      && r.mixed.items == s.mixed.items && r.youTube.items == s.youTube.items
      && (Len(s, kind) == 0 ==> r == s)
      && (Len(s, kind) > 0 ==> Index(r, kind) == Step(Index(s, kind), Len(s, kind), forward))
      && (forall other :: other != kind ==> Index(r, other) == Index(s, other))
  {
  }

  /** Previous undoes next and next undoes previous. */
  lemma PrevUndoesNextInModal(s: ModalState, kind: MediaKind)
    requires Inv(s)
    ensures Index(ShowStep(ShowStep(s, kind, true), kind, false), kind) == Index(s, kind)
    ensures Index(ShowStep(ShowStep(s, kind, false), kind, true), kind) == Index(s, kind)
  {
    ShowMovesCyclically(s, kind, true);
    ShowMovesCyclically(s, kind, false);
    ShowMovesCyclically(ShowStep(s, kind, true), kind, false);
    ShowMovesCyclically(ShowStep(s, kind, false), kind, true);
    if Len(s, kind) > 0 {
      Cyclic.PrevUndoesNext(Index(s, kind), Len(s, kind));
      Cyclic.NextUndoesPrev(Index(s, kind), Len(s, kind));
    }
  }

  /** `k` presses of next. */
  function ShowForward(s: ModalState, kind: MediaKind, k: nat): ModalState {
    if k == 0 then s else ShowStep(ShowForward(s, kind, k - 1), kind, true)
  }

  lemma {:induction false} ShowForwardIndex(s: ModalState, kind: MediaKind, k: nat)
    requires Len(s, kind) > 0 && Index(s, kind) < Len(s, kind)
    ensures Len(ShowForward(s, kind, k), kind) == Len(s, kind)
    ensures Index(ShowForward(s, kind, k), kind) == Cyclic.Forward(Index(s, kind), Len(s, kind), k)
  {
    if k > 0 {
      ShowForwardIndex(s, kind, k - 1);
      ShowMovesCyclically(ShowForward(s, kind, k - 1), kind, true);
    }
  }

  /** `n` presses of next through a list of `n` entries return to where
      they started. */
  lemma NextCyclesThroughList(s: ModalState, kind: MediaKind)
    requires Inv(s) && Len(s, kind) > 0
    ensures Index(ShowForward(s, kind, Len(s, kind)), kind) == Index(s, kind)
  {
    ShowForwardIndex(s, kind, Len(s, kind));
    Cyclic.FullCycle(Index(s, kind), Len(s, kind));
  }

  /** After a step the element of that kind shows the entry at the new
      index and the counter shows its position out of the list length
      (for YouTube only with more than one id). */
  lemma ShowDisplaysCurrent(s: ModalState, kind: MediaKind, forward: bool)
    requires Len(s, kind) > 0
    ensures var r := ShowStep(s, kind, forward); var i := Index(r, kind);
      && (kind == Images ==> r.view.imageSrc == r.images.items[i])
      && (kind == Videos ==> r.view.videoSrc == r.videos.items[i])
      && (kind == YouTube ==> r.youTubeId == Some(r.youTube.items[i]) && r.view.playerId == r.youTubeId)
      && (kind == Mixed ==>
            (r.mixed.items[i].kind == Video ==> r.view.videoShown && r.view.videoSrc == r.mixed.items[i].src)
            && (r.mixed.items[i].kind == Image ==> r.view.imageShown && r.view.imageSrc == r.mixed.items[i].src))
      && (kind != YouTube || Len(s, kind) > 1 ==> r.view.counter == Some(Counter(i + 1, Len(s, kind))))
  {
  }

  /** The length of the list `openModal` loads for its arguments. */
  function OpenedCount(mediaType: string, srcs: MediaArg, youTubeId: string): nat {
    if mediaType == "youtube" && |youTubeId| > 0 then
      (if Includes(youTubeId, ",") then |ParseSourceList(youTubeId)| else 1)
    else |ListOf(srcs)|
  }

  /** The buttons and the counter after `RevealNav`, from hidden ones. */
  lemma RevealNavIffMany(v: View, n: nat)
    requires !v.navShown
    ensures RevealNav(v, n).navShown <==> n > 1
    ensures n > 1 ==> RevealNav(v, n).counter == Some(Counter(1, n))
  {
  }

  /** Opening YouTube ids loads them at index 0 and creates the player
      with the first one. */
  lemma OpenYouTubeLoads(s: ModalState, id: string)
    requires !s.view.navShown
    ensures var r := OpenYouTube(s, id);
      var n := if Includes(id, ",") then |ParseSourceList(id)| else 1;
      && |r.youTube.items| == n && r.youTube.index == 0
      && r.view.youTubeShown && r.view.playerId == r.youTubeId
      && (r.view.navShown <==> n > 1)
      && (n > 1 ==> r.view.counter == Some(Counter(1, n)))
  {
    if Includes(id, ",") {
      RevealNavIffMany(s.view, |ParseSourceList(id)|);
    }
  }

  /** Opening a list of images, videos or mixed media loads it at index 0
      and shows its container. */
  lemma OpenListLoads(s: ModalState, srcs: seq<string>)
    requires !s.view.navShown
    ensures var r := OpenImages(s, srcs);
      && r.images == Cursor(srcs, 0) && r.view.imageShown
      && (r.view.navShown <==> |srcs| > 1) && (|srcs| > 1 ==> r.view.counter == Some(Counter(1, |srcs|)))
    ensures var r := OpenVideos(s, srcs);
      && r.videos == Cursor(srcs, 0) && r.view.videoShown
      && (r.view.navShown <==> |srcs| > 1) && (|srcs| > 1 ==> r.view.counter == Some(Counter(1, |srcs|)))
    ensures var r := OpenMixed(s, srcs);
      && r.mixed == Cursor(Classify(srcs), 0)
      && (r.view.navShown <==> |srcs| > 1) && (|srcs| > 1 ==> r.view.counter == Some(Counter(1, |srcs|)))
  {
    var v := if |srcs| > 0 then s.view.(imageSrc := srcs[0]) else s.view;
    RevealNavIffMany(v.(imageShown := true), |srcs|);
    var w := if |srcs| > 0 then s.view.(videoSrc := srcs[0]) else s.view;
    RevealNavIffMany(w.(videoShown := true), |srcs|);
    RevealNavIffMany(ShowMixedItem(s.view, Cursor(Classify(srcs), 0)), |srcs|);
  }

  /** Opening loads the list of the requested kind at index 0, shows the
      buttons and the counter exactly when it has more than one entry,
      and starts the counter at 1 of its length. Mixed media given `null`
      only hides the containers, the buttons and the counter: the modal
      keeps its classes and every list. */
  lemma OpenRevealsNavIffMany(s: ModalState, mediaType: string, srcs: MediaArg, youTubeId: string)
    ensures var r := OpenStep(s, mediaType, srcs, youTubeId);
      OpenThrows(mediaType, srcs, youTubeId) ==>
        && r.view.open == s.view.open && r.view.hidden == s.view.hidden
        && (forall kind :: Len(r, kind) == Len(s, kind) && Index(r, kind) == Index(s, kind))
        && !r.view.imageShown && !r.view.videoShown && !r.view.youTubeShown && !r.view.navShown
    ensures var r := OpenStep(s, mediaType, srcs, youTubeId);
      var kind := OpenedKind(mediaType, youTubeId);
      var n := OpenedCount(mediaType, srcs, youTubeId);
      !OpenThrows(mediaType, srcs, youTubeId) ==>
      && r.view.open && !r.view.hidden
      && Len(r, kind) == n && Index(r, kind) == 0
      && (kind == Mixed ==> r.mixed.items == Classify(ListOf(srcs)))
      && (kind == Videos ==> r.videos.items == ListOf(srcs) && r.view.videoShown)
      && (kind == Images ==> r.images.items == ListOf(srcs) && r.view.imageShown)
      && (kind == YouTube ==> r.view.youTubeShown && r.view.playerId == r.youTubeId)
      && (r.view.navShown <==> n > 1)
      && (n > 1 ==> r.view.counter == Some(Counter(1, n)))
  {
    if !OpenThrows(mediaType, srcs, youTubeId) {
      var kind := OpenedKind(mediaType, youTubeId);
      var s0 := HideAll(s);
      var s1 := Load(s0, kind, srcs, youTubeId);
      assert OpenStep(s, mediaType, srcs, youTubeId) == s1.(view := s1.view.(hidden := false, open := true));
      match kind
      case YouTube => OpenYouTubeLoads(s0, youTubeId);
      case _ => OpenListLoads(s0, ListOf(srcs));
    }
  }

  /** After a reset, opening a list with more than one entry makes the
      buttons move that list. */
  lemma OpenThenButtonsMoveOpened(s: ModalState, mediaType: string, srcs: MediaArg, youTubeId: string)
    requires |s.mixed.items| == 0
    requires OpenedCount(mediaType, srcs, youTubeId) > 1
    ensures ButtonTarget(OpenStep(s, mediaType, srcs, youTubeId)) == OpenedKind(mediaType, youTubeId)
  {
    assert !OpenThrows(mediaType, srcs, youTubeId) by {
      if srcs.Null? {
        assert |ListOf(srcs)| == 1;
      }
    }
    var kind := OpenedKind(mediaType, youTubeId);
    var s1 := Load(HideAll(s), kind, srcs, youTubeId);
    assert OpenStep(s, mediaType, srcs, youTubeId) == s1.(view := s1.view.(hidden := false, open := true));
    if kind == YouTube {
      OpenYouTubeLoads(HideAll(s), youTubeId);
    } else {
      LoadedListIsButtonTarget(HideAll(s), kind, ListOf(srcs));
    }
  }

  /** From hidden containers and no mixed media, a loaded list of images,
      videos or mixed media with more than one entry is the one the
      buttons move. */
  lemma LoadedListIsButtonTarget(s: ModalState, kind: MediaKind, srcs: seq<string>)
    requires kind != YouTube && |srcs| > 1
    requires |s.mixed.items| == 0 && !s.view.youTubeShown && !s.view.videoShown
    ensures kind == Mixed ==> ButtonTarget(OpenMixed(s, srcs)) == Mixed
    ensures kind == Videos ==> ButtonTarget(OpenVideos(s, srcs)) == Videos
    ensures kind == Images ==> ButtonTarget(OpenImages(s, srcs)) == Images
  {
  }

  /** Arrow keys only move a list with more than one entry, and never the
      YouTube ids. */
  lemma ArrowKeysSkipShortLists(s: ModalState)
    ensures ArrowTarget(s).Some? ==> Len(s, ArrowTarget(s).value) > 1 && ArrowTarget(s).value != YouTube
    ensures ArrowTarget(s).None? ==>
      |s.mixed.items| <= 1 && |s.images.items| <= 1 && (s.view.videoShown ==> |s.videos.items| <= 1)
  {
  }

  /** Escape on a shown modal closes it once: the second listener sees
      the modal already closed by the first. */
  lemma EscapeClosesOnce(s: ModalState)
    requires s.view.open
    ensures KeyStep(s, "Escape") == CloseStep(s)
  {
  }

  /** When the first listener finds no list to move, an arrow key steps
      through the YouTube ids exactly when there is more than one and
      their container is shown. */
  lemma ArrowKeysMoveYouTube(s: ModalState, forward: bool)
    requires ArrowTarget(s).None?
    ensures var key := if forward then "ArrowRight" else "ArrowLeft";
      KeyStep(s, key) ==
        if |s.youTube.items| > 1 && s.view.youTubeShown then ShowStep(s, YouTube, forward) else s
  {
  }

  /** Closing, once its timer has run, empties every list, resets every
      index and clears the current YouTube id. */
  lemma CloseResetsEverything(s: ModalState)
    ensures var r := FinishCloseStep(CloseStep(s));
      && !r.view.open && r.view.hidden
      && (forall kind :: Len(r, kind) == 0 && Index(r, kind) == 0)
      && r.youTubeId == None && r.pendingResets == s.pendingResets
  {
  }

  /** As written: a modal reopened within the close delay is emptied by
      the earlier close's timer, which also hides it while it still has
      the `show` class (mixed media given `null` never reopens it). */
  lemma ReopenWithinCloseDelayIsWiped(s: ModalState, mediaType: string, srcs: MediaArg, youTubeId: string)
    ensures var r := FinishCloseStep(OpenStep(CloseStep(s), mediaType, srcs, youTubeId));
      && (r.view.open <==> !OpenThrows(mediaType, srcs, youTubeId)) && r.view.hidden
      && forall kind :: Len(r, kind) == 0
  {
  }

  /** Corrected: cancelling the pending reset on open leaves the reopened
      modal shown with the list it loaded, whatever was pending before
      (mixed media given `null` still stops before opening). */
  lemma ReopenCancellingResetKeepsMedia(s: ModalState, mediaType: string, srcs: MediaArg, youTubeId: string)
    ensures OpenCancellingResetStep(CloseStep(s), mediaType, srcs, youTubeId).pendingResets == 0
    ensures var r := OpenCancellingResetStep(CloseStep(s), mediaType, srcs, youTubeId);
      !OpenThrows(mediaType, srcs, youTubeId) ==>
      && r.view.open && !r.view.hidden && r.pendingResets == 0
      && Len(r, OpenedKind(mediaType, youTubeId)) == OpenedCount(mediaType, srcs, youTubeId)
  {
    OpenRevealsNavIffMany(CloseStep(s), mediaType, srcs, youTubeId);
  }

  // ---------------------------------------------------------------------
  // The modal, in place
  // ---------------------------------------------------------------------

  /** The modal's module variables; each handler is a method whose new
      state is the matching transition above. */
  class Modal {
    var images: Cursor<string>
    var videos: Cursor<string>
    var mixed: Cursor<MediaItem>
    var youTube: Cursor<string>
    var youTubeId: Option<string>
    var view: View
    var pendingResets: nat

    ghost function State(): ModalState
      reads this
    {
      ModalState(images, videos, mixed, youTube, youTubeId, view, pendingResets)
    }

    ghost predicate Valid()
      reads this
    {
      Inv(State())
    }

    constructor ()
      ensures Valid() && State() == Initial()
    {
      images, videos, mixed, youTube := Cursor([], 0), Cursor([], 0), Cursor([], 0), Cursor([], 0);
      youTubeId := None;
      view := View(false, false, false, false, None, "", "", None, false, true);
      pendingResets := 0;
    }

    /** The YouTube branch of `openModal`: one id, or a comma-separated
        list of them. */
    method LoadYouTube(id: string)
      modifies this
      ensures State() == OpenYouTube(old(State()), id)
    {
      if Includes(id, ",") {
        var ids := ParseSourceList(id);
        youTube := Cursor(ids, 0);
        youTubeId := if |ids| == 0 then None else Some(ids[0]);
        view := RevealNav(view, |ids|);
      } else {
        youTube := Cursor([id], 0);
        youTubeId := Some(id);
      }
      view := view.(youTubeShown := true, playerId := youTubeId);
    }

    /** The mixed branch of `openModal`. */
    method LoadMixed(list: seq<string>)
      modifies this
      ensures State() == OpenMixed(old(State()), list)
    {
      mixed := Cursor(Classify(list), 0);
      view := ShowMixedItem(view, mixed);
      view := RevealNav(view, |list|);
    }

    /** The video branch of `openModal`. */
    method LoadVideos(list: seq<string>)
      modifies this
      ensures State() == OpenVideos(old(State()), list)
    {
      videos := Cursor(list, 0);
      if |list| > 0 {
        view := view.(videoSrc := list[0]);
      }
      view := RevealNav(view.(videoShown := true), |list|);
    }

    /** The image branch of `openModal`, taken for every other media type. */
    method LoadImages(list: seq<string>)
      modifies this
      ensures State() == OpenImages(old(State()), list)
    {
      images := Cursor(list, 0);
      if |list| > 0 {
        view := view.(imageSrc := list[0]);
      }
      view := RevealNav(view.(imageShown := true), |list|);
    }

    /** The branch of `openModal` for one kind of media. */
    method LoadKind(kind: MediaKind, srcs: MediaArg, youTubeIdArg: string)
      modifies this
      ensures State() == Load(old(State()), kind, srcs, youTubeIdArg)
    {
      match kind {
        case YouTube => LoadYouTube(youTubeIdArg);
        case Mixed => LoadMixed(ListOf(srcs));
        case Videos => LoadVideos(ListOf(srcs));
        case Images => LoadImages(ListOf(srcs));
      }
    }

    /** `openModal(mediaType, mediaSrcs, youtubeId)`. */
    method OpenModal(mediaType: string, srcs: MediaArg, youTubeIdArg: string)
      requires Valid()
      modifies this
      ensures Valid() && State() == OpenStep(old(State()), mediaType, srcs, youTubeIdArg)
    {
      var kind := OpenedKind(mediaType, youTubeIdArg);
      LoadKeepsInv(HideAll(State()), kind, srcs, youTubeIdArg);
      view := view.(imageShown := false, videoShown := false, youTubeShown := false, navShown := false);
      if kind == Mixed && srcs.Null? {
        return;
      }
      LoadKind(kind, srcs, youTubeIdArg);
      view := view.(hidden := false, open := true);
    }

    /** `showNextImage` (forward) and `showPrevImage`. */
    method ShowImage(forward: bool)
      modifies this
      ensures State() == ShowStep(old(State()), Images, forward)
    {
      if |images.items| > 0 {
        var i := Step(images.index, |images.items|, forward);
        images := images.(index := i);
        view := view.(counter := Some(Counter(i + 1, |images.items|)), imageSrc := images.items[i]);
      }
    }

    /** `showNextVideo` (forward) and `showPrevVideo`. */
    method ShowVideo(forward: bool)
      modifies this
      ensures State() == ShowStep(old(State()), Videos, forward)
    {
      if |videos.items| > 0 {
        var i := Step(videos.index, |videos.items|, forward);
        videos := videos.(index := i);
        view := view.(counter := Some(Counter(i + 1, |videos.items|)), videoSrc := videos.items[i]);
      }
    }

    /** `showNextMixed` (forward) and `showPrevMixed`. */
    method ShowMixed(forward: bool)
      modifies this
      ensures State() == ShowStep(old(State()), Mixed, forward)
    {
      if |mixed.items| > 0 {
        var i := Step(mixed.index, |mixed.items|, forward);
        mixed := mixed.(index := i);
        view := ShowMixedItem(view.(counter := Some(Counter(i + 1, |mixed.items|))), mixed);
      }
    }

    /** `showNextYouTube` (forward) and `showPrevYouTube`: the player is
        created again with the new id. */
    method ShowYouTube(forward: bool)
      modifies this
      ensures State() == ShowStep(old(State()), YouTube, forward)
    {
      if |youTube.items| > 0 {
        var i := Step(youTube.index, |youTube.items|, forward);
        youTube := youTube.(index := i);
        youTubeId := Some(youTube.items[i]);
        if |youTube.items| > 1 {
          view := view.(counter := Some(Counter(i + 1, |youTube.items|)));
        }
        view := view.(playerId := youTubeId);
      }
    }

    /** One step forward or back through the list of `kind`. */
    method Show(kind: MediaKind, forward: bool)
      requires Valid()
      modifies this
      ensures Valid() && State() == ShowStep(old(State()), kind, forward)
    {
      ShowKeepsInv(State(), kind, forward);
      match kind {
        case Images => ShowImage(forward);
        case Videos => ShowVideo(forward);
        case Mixed => ShowMixed(forward);
        case YouTube => ShowYouTube(forward);
      }
    }

    /** The next (`forward`) and previous button handlers. */
    method OnNavButton(forward: bool)
      requires Valid()
      modifies this
      ensures Valid() && State() == ButtonStep(old(State()), forward)
    {
      if |youTube.items| > 1 && view.youTubeShown {
        Show(YouTube, forward);
      } else if |mixed.items| > 0 {
        Show(Mixed, forward);
      } else if view.videoShown {
        Show(Videos, forward);
      } else {
        Show(Images, forward);
      }
    }

    /** `closeModalFn()` up to its timer. */
    method CloseModal()
      requires Valid()
      modifies this
      ensures Valid() && State() == CloseStep(old(State()))
    {
      view := view.(open := false);
      pendingResets := pendingResets + 1;
    }

    /** The first document keydown listener. */
    method OnModalKeyDown(key: string)
      requires Valid()
      modifies this
      ensures Valid() && State() == ModalKeyStep(old(State()), key)
    {
      ModalKeyKeepsInv(State(), key);
      if !view.open {
        return;
      }
      if key == "Escape" {
        CloseModal();
      } else if key == "ArrowRight" || key == "ArrowLeft" {
        var forward := key == "ArrowRight";
        if |mixed.items| > 1 {
          Show(Mixed, forward);
        } else if view.videoShown && |videos.items| > 1 {
          Show(Videos, forward);
        } else if |images.items| > 1 {
          Show(Images, forward);
        }
      }
    }

    /** The second document keydown listener, the YouTube one. */
    method OnYouTubeKeyDown(key: string)
      requires Valid()
      modifies this
      ensures Valid() && State() == YouTubeKeyStep(old(State()), key)
    {
      if key == "Escape" && view.open {
        CloseModal();
      } else if (key == "ArrowRight" || key == "ArrowLeft") && |youTube.items| > 1 && view.youTubeShown {
        Show(YouTube, key == "ArrowRight");
      }
    }

    /** A keydown reaching both listeners. */
    method OnKeyDown(key: string)
      requires Valid()
      modifies this
      ensures Valid() && State() == KeyStep(old(State()), key)
    {
      OnModalKeyDown(key);
      OnYouTubeKeyDown(key);
    }

    /** The 300 ms timer `closeModalFn` starts. */
    method OnCloseTimer()
      requires Valid() && pendingResets > 0
      modifies this
      ensures Valid() && State() == FinishCloseStep(old(State()))
    {
      view := view.(hidden := true, imageSrc := "", videoSrc := "");
      images, videos, mixed, youTube := Cursor([], 0), Cursor([], 0), Cursor([], 0), Cursor([], 0);
      youTubeId := None;
      pendingResets := pendingResets - 1;
    }
  }
}
