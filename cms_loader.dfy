/** The content loader of the site (public/js/cms-loader.js): how media
    URLs from the content store are normalised, how a project becomes a
    grid tile, how the three JSON payloads are unwrapped and sorted, and
    how the grid, the testimonial cards with their indicators and the
    hero images are rebuilt from them. */
module CmsLoader {
  import opened Wrappers
  import opened JsText
  import opened Lists
  import MediaModal

  // ---------------------------------------------------------------------
  // The media-URL prefix rule
  // ---------------------------------------------------------------------

  /** Where uploaded media is served from. */
  const UploadsPrefix: string := "/media/uploads/"

  /** A URL the page can load as it is: an upload path or an absolute
      `http`/`https` address. */
  predicate IsServable(u: string) {
    StartsWith(u, UploadsPrefix) || StartsWith(u, "http")
  }

  /** The rule applied to media sources: an upload path or an `http`
      address is kept, anything else is taken as a file name under the
      uploads directory. The upload prefix is tested first. */
  function SourcePrefixRule(url: string): (r: string)
    ensures IsServable(r)
    ensures r == url || r == UploadsPrefix + url
    ensures EndsWith(r, url)
    ensures r == url <==> IsServable(url)
  {
    if StartsWith(url, UploadsPrefix) then url
    else if StartsWith(url, "http") then url
    else
      assert (UploadsPrefix + url)[..|UploadsPrefix|] == UploadsPrefix;
      assert (UploadsPrefix + url)[|UploadsPrefix|..] == url;
      UploadsPrefix + url
  }

  /** The same rule as the cover and hero images write it, with `http`
      tested first. */
  function CoverPrefixRule(url: string): (r: string)
  {
    if StartsWith(url, "http") then url
    else if StartsWith(url, UploadsPrefix) then url
    else UploadsPrefix + url
  }

  /** The order of the two tests does not matter: no URL starts with both
      prefixes, so the two spellings of the rule agree everywhere. */
  lemma PrefixRulesAgree(url: string)
    ensures CoverPrefixRule(url) == SourcePrefixRule(url)
  {
    assert StartsWith(url, "http") ==> url[0] == 'h';
    assert StartsWith(url, UploadsPrefix) ==> url[0] == '/';
  }

  /** Applying the rule a second time changes nothing. */
  lemma SourcePrefixRuleIdempotent(url: string)
    ensures SourcePrefixRule(SourcePrefixRule(url)) == SourcePrefixRule(url)
  {
  }

  // ---------------------------------------------------------------------
  // Media sources of a project
  // ---------------------------------------------------------------------

  /** One entry of a project's `mediaSources` as the content store saves
      it: a plain string, an object with `url`/`src` fields (the empty
      string standing for a missing field), JSON `null`, or another
      scalar given by its `String()` form. */
  datatype SourceEntry =
    | Text(s: string)
    | Record(url: string, src: string)
    | Null
    | Scalar(text: string)

  /** The string the tile code takes from an entry: `url || src ||
      String(source)` for an object, `String(source)` for anything that is
      neither a string nor an object. */
  function SourceText(e: SourceEntry): string {
    match e
    case Text(s) => s
    case Record(url, src) => if url != "" then url else if src != "" then src else "[object Object]"
    case Null => "null"
    case Scalar(t) => t
  }

  /** One entry normalised: `None` (later filtered out) when its text is
      blank after trimming, otherwise the prefix rule applied to the
      untrimmed text. */
  function NormalizeSource(e: SourceEntry): (r: Option<string>)
    ensures r.Some? ==> IsServable(r.value) && EndsWith(r.value, SourceText(e))
  {
    var url := SourceText(e);
    if |Trim(url)| == 0 then None else Some(SourcePrefixRule(url))
  }

  /** An entry is dropped exactly when its text is blank. */
  lemma NormalizeSourceDrops(e: SourceEntry)
    ensures NormalizeSource(e).None? <==> IsBlank(SourceText(e))
  {
  }

  /** A servable URL starts with `/` or `h`, so it is never blank. */
  lemma ServableNotBlank(u: string)
    requires IsServable(u)
    ensures !IsBlank(u) && u[0] in {'/', 'h'}
  {
    if StartsWith(u, "http") {
      assert u[..4][0] == 'h';
    } else {
      assert u[..|UploadsPrefix|][0] == '/';
    }
  }

  /** The `map` and `filter` over `mediaSources`. */
  function NormalizeSources(xs: seq<SourceEntry>): (r: seq<string>)
    ensures |r| <= |xs|
    ensures forall i :: 0 <= i < |r| ==> IsServable(r[i])
  {
    FilterMapAll(NormalizeSource, xs, IsServable);
    FilterMap(NormalizeSource, xs)
  }

  /** Normalisation keeps the input order: the sources of two
      concatenated lists are the concatenated sources. */
  lemma NormalizeSourcesAppend(xs: seq<SourceEntry>, ys: seq<SourceEntry>)
    ensures NormalizeSources(xs + ys) == NormalizeSources(xs) + NormalizeSources(ys)
  {
    FilterMapAppend(NormalizeSource, xs, ys);
  }

  /** Every entry survives unless its text is blank. */
  lemma NormalizeSourcesEmpty(xs: seq<SourceEntry>)
    ensures |NormalizeSources(xs)| == 0 <==> forall i :: 0 <= i < |xs| ==> IsBlank(SourceText(xs[i]))
  {
    FilterMapEmpty(NormalizeSource, xs);
    forall i | 0 <= i < |xs| {
      NormalizeSourceDrops(xs[i]);
    }
  }

  /** The entries of a list of strings. */
  function Texts(ss: seq<string>): (r: seq<SourceEntry>)
    ensures |r| == |ss| && forall i :: 0 <= i < |ss| ==> r[i] == Text(ss[i])
  {
    seq(|ss|, i requires 0 <= i < |ss| => Text(ss[i]))
  }

  /** A servable string is its own normal form. */
  lemma NormalizeServableText(u: string)
    requires IsServable(u)
    ensures NormalizeSource(Text(u)) == Some(u)
  {
    ServableNotBlank(u);
  }

  /** Normalising is idempotent on whole lists: the normalised sources,
      read again as strings, normalise to themselves. */
  lemma NormalizeSourcesIdempotent(xs: seq<SourceEntry>)
    ensures NormalizeSources(Texts(NormalizeSources(xs))) == NormalizeSources(xs)
  {
    var ss := NormalizeSources(xs);
    forall i | 0 <= i < |ss| {
      NormalizeServableText(ss[i]);
    }
    FilterMapTotal(NormalizeSource, Texts(ss), ss);
  }

  /** The tile's `data-media-srcs` attribute: the comma-join of the
      normalised sources, absent when none survives. */
  function MediaSrcsAttribute(xs: seq<SourceEntry>): (r: Option<string>)
    ensures r.None? <==> forall i :: 0 <= i < |xs| ==> IsBlank(SourceText(xs[i]))
  {
    NormalizeSourcesEmpty(xs);
    var n := NormalizeSources(xs);
    if |n| > 0 then Some(Join(n, ',')) else None
  }

  // ---------------------------------------------------------------------
  // Findings about the media sources
  // ---------------------------------------------------------------------

  /** As written, a URL that itself holds a comma (an image CDN's
      `w_400,h_300` transformation, say) is kept whole by the tile but
      split in two when the modal parses `data-media-srcs` back. */
  lemma CommaInUrlSplits(p: string, q: string)
    requires StartsWith(p, "http")
    requires IsTrimmed(p) && IsTrimmed(q) && q != []
    requires ',' !in p && ',' !in q
    ensures MediaSrcsAttribute([Text(p + [','] + q)]) == Some(p + [','] + q)
    ensures MediaModal.ParseSourceList(p + [','] + q) == [p, q]
  {
    assert StartsWith(p + [','] + q, "http") by {
      assert (p + [','] + q)[..4] == p[..4];
    }
    ServableKeptWhole(p + [','] + q);
    assert p != [] by {
      assert |p| >= 4;
    }
    ParseTwoPieces(p, q);
  }

  /** Two clean pieces joined by a comma parse back into the two. */
  lemma ParseTwoPieces(p: string, q: string)
    requires p != [] && IsTrimmed(p) && ',' !in p
    requires q != [] && IsTrimmed(q) && ',' !in q
    ensures MediaModal.ParseSourceList(p + [','] + q) == [p, q]
  {
    var pieces := [p, q];
    assert Join(pieces, ',') == p + [','] + q by {
      assert pieces[1..] == [q];
    }
    assert forall i :: 0 <= i < |pieces| ==> pieces[i] == p || pieces[i] == q;
    MediaModal.ParseJoin(pieces);
  }

  /** A single servable source is written to the attribute unchanged. */
  lemma ServableKeptWhole(u: string)
    requires IsServable(u)
    ensures MediaSrcsAttribute([Text(u)]) == Some(u)
  {
    NormalizeServableText(u);
    FilterMapTotal(NormalizeSource, [Text(u)], [u]);
    assert Join([u], ',') == u;
  }

  /** As written, a `null` entry is not dropped: it becomes a source
      named after its string form. */
  lemma NullBecomesSource()
    ensures NormalizeSources([Null]) == [UploadsPrefix + "null"]
  {
    var text := "null";
    assert !IsBlank(text) by {
      assert !IsSpace(text[0]);
    }
    assert !StartsWith(text, UploadsPrefix) && !StartsWith(text, "http") by {
      assert text[0] != UploadsPrefix[0] && text[0] != "http"[0];
    }
    FilterMapTotal(NormalizeSource, [Null], [UploadsPrefix + text]);
  }

  /** As written, an object with neither `url` nor `src` is not dropped
      either: it becomes a source named after its string form. */
  lemma EmptyRecordBecomesSource()
    ensures NormalizeSources([Record("", "")]) == [UploadsPrefix + "[object Object]"]
  {
    var text := "[object Object]";
    assert !IsBlank(text) by {
      assert !IsSpace(text[0]);
    }
    assert !StartsWith(text, UploadsPrefix) && !StartsWith(text, "http") by {
      assert text[0] != UploadsPrefix[0] && text[0] != "http"[0];
    }
    FilterMapTotal(NormalizeSource, [Record("", "")], [UploadsPrefix + text]);
  }

  /** `encodeURIComponent` restricted to the comma. */
  function EncodeCommas(s: string): (r: string)
    ensures ',' !in r
    ensures s != [] ==> r != []
    ensures s != [] ==> r[0] == (if s[0] == ',' then '%' else s[0])
    ensures s != [] ==> r[|r| - 1] == (if s[|s| - 1] == ',' then 'C' else s[|s| - 1])
    ensures ',' !in s ==> r == s
  {
    if s == [] then []
    else
      var head := if s[0] == ',' then "%2C" else [s[0]];
      var rest := EncodeCommas(s[1..]);
      assert s[1..] != [] ==> s[1..][|s[1..]| - 1] == s[|s| - 1];
      assert ',' !in s ==> [s[0]] + s[1..] == s;
      head + rest
  }

  /** The string a corrected tile takes from an entry: `null` and an
      object without `url` and `src` give nothing. */
  function CorrectedSourceText(e: SourceEntry): string {
    match e
    case Text(s) => s
    case Record(url, src) => if url != "" then url else src
    case Null => ""
    case Scalar(t) => t
  }

  /** The prefix rule keeps a trimmed non-empty string trimmed. */
  lemma PrefixRuleKeepsTrimmed(t: string)
    requires t != [] && IsTrimmed(t)
    ensures SourcePrefixRule(t) != [] && IsTrimmed(SourcePrefixRule(t))
  {
    var u := SourcePrefixRule(t);
    if u != t {
      assert u[0] == UploadsPrefix[0];
      assert u[|u| - 1] == t[|t| - 1];
    }
  }

  /** Encoding commas keeps a trimmed string trimmed: the ends either
      stay or become `%` and `C`. */
  lemma EncodeKeepsTrimmed(s: string)
    requires s != [] && IsTrimmed(s)
    ensures IsTrimmed(EncodeCommas(s))
  {
  }

  /** A trimmed non-empty string, prefixed and encoded, is clean. */
  lemma EncodedIsClean(t: string)
    requires t != [] && IsTrimmed(t)
    ensures MediaModal.IsCleanEntry(EncodeCommas(SourcePrefixRule(t)))
  {
    PrefixRuleKeepsTrimmed(t);
    EncodeKeepsTrimmed(SourcePrefixRule(t));
  }

  /** A corrected entry: the trimmed text under the prefix rule, with its
      commas percent-encoded so that the comma-joined attribute can be
      split again. */
  function CorrectedSource(e: SourceEntry): (r: Option<string>)
    ensures r.Some? ==> MediaModal.IsCleanEntry(r.value)
  {
    var t := Trim(CorrectedSourceText(e));
    if |t| == 0 then None
    else
      EncodedIsClean(t);
      Some(EncodeCommas(SourcePrefixRule(t)))
  }

  function CorrectedSources(xs: seq<SourceEntry>): (r: seq<string>)
    ensures forall i :: 0 <= i < |r| ==> MediaModal.IsCleanEntry(r[i])
  {
    FilterMapAll(CorrectedSource, xs, MediaModal.IsCleanEntry);
    FilterMap(CorrectedSource, xs)
  }

  /** With the correction, `null` and an empty object are dropped. */
  lemma CorrectedDropsNullAndEmptyRecord()
    ensures CorrectedSources([Null]) == []
    ensures CorrectedSources([Record("", "")]) == []
  {
    FilterMapEmpty(CorrectedSource, [Null]);
    FilterMapEmpty(CorrectedSource, [Record("", "")]);
  }

  /** With the correction, the modal reads back exactly the list the tile
      wrote. */
  lemma CorrectedSourcesRoundTrip(xs: seq<SourceEntry>)
    ensures MediaModal.ParseSourceList(Join(CorrectedSources(xs), ',')) == CorrectedSources(xs)
  {
    MediaModal.ParseJoin(CorrectedSources(xs));
  }

  // ---------------------------------------------------------------------
  // Cover image
  // ---------------------------------------------------------------------

  /** The value of a project's `coverImageUrl` or `coverImage` field:
      missing, a string, an object with `url`/`src` fields, or another
      JSON value with its truthiness. */
  datatype CoverValue =
    | NoCover
    | CoverText(s: string)
    | CoverObject(url: string, src: string)
    | CoverOther(truthy: bool)

  predicate Truthy(v: CoverValue) {
    match v
    case NoCover => false
    case CoverText(s) => s != ""
    case CoverObject(_, _) => true
    case CoverOther(t) => t
  }

  /** The tile's image when no cover is usable: an inline SVG reading
      "No Image". */
  const Placeholder: string := "data:" + PlaceholderBody

  const PlaceholderBody: string :=
    "image/svg+xml,%3Csvg xmlns=\"http://www.w3.org/2000/svg\" width=\"400\" height=\"400\"%3E%3Crect fill=\"%23f3f3f3\" width=\"400\" height=\"400\"/%3E%3Ctext fill=\"%23999\" font-family=\"sans-serif\" font-size=\"18\" dy=\"10.5\" font-weight=\"bold\" x=\"50%25\" y=\"50%25\" text-anchor=\"middle\"%3ENo Image%3C/text%3E%3C/svg%3E"

  /** The cover string before the prefix rule: `coverImageUrl ||
      coverImage`, an object unwrapped to `url || src`; `None` when the
      result is empty or not a string. */
  function CoverString(coverImageUrl: CoverValue, coverImage: CoverValue): (r: Option<string>)
    ensures r.Some? ==> r.value != ""
  {
    var picked := if Truthy(coverImageUrl) then coverImageUrl else coverImage;
    match picked
    case CoverText(s) => if s != "" then Some(s) else None
    case CoverObject(url, src) => if url != "" then Some(url) else if src != "" then Some(src) else None
    case _ => None
  }

  /** The placeholder is no upload path and no `http` address. */
  lemma ServableIsNotPlaceholder(u: string)
    requires IsServable(u)
    ensures u != Placeholder
  {
    ServableNotBlank(u);
    assert Placeholder[0] == 'd';
  }

  /** The `src` of the tile's cover image. */
  function CoverSrc(coverImageUrl: CoverValue, coverImage: CoverValue): (r: string)
    ensures r != ""
    ensures r == Placeholder <==> CoverString(coverImageUrl, coverImage).None?
    ensures r != Placeholder ==> IsServable(r)
  {
    match CoverString(coverImageUrl, coverImage)
    case None => Placeholder
    case Some(u) =>
      PrefixRulesAgree(u);
      ServableIsNotPlaceholder(CoverPrefixRule(u));
      CoverPrefixRule(u)
  }

  /** A usable `coverImageUrl` wins: `coverImage` is then not looked at. */
  lemma CoverPrefersCoverImageUrl(coverImageUrl: CoverValue, a: CoverValue, b: CoverValue)
    requires Truthy(coverImageUrl)
    ensures CoverSrc(coverImageUrl, a) == CoverSrc(coverImageUrl, b)
  {
  }

  /** An unusable `coverImageUrl` falls through to `coverImage`. */
  lemma CoverFallsBackToCoverImage(coverImageUrl: CoverValue, coverImage: CoverValue)
    requires !Truthy(coverImageUrl)
    ensures CoverSrc(coverImageUrl, coverImage) == CoverSrc(coverImage, NoCover)
  {
  }

  // ---------------------------------------------------------------------
  // Project tiles
  // ---------------------------------------------------------------------

  /** The fields of a project record the tile reads; an empty string
      stands for a missing field. */
  datatype Project = Project(
    id: int,
    mediaType: string,
    mediaSources: seq<SourceEntry>,
    youtubeId: string,
    youtubeThumbnail: string,
    category: string,
    subcategory: string,
    title: string,
    description: string,
    coverImageUrl: CoverValue,
    coverImage: CoverValue)

  /** What a tile carries: its data attributes, its image and its text,
      with the two size choices of its labels. */
  datatype Tile = Tile(
    mediaType: string,
    mediaSrcs: Option<string>,
    youTubeId: Option<string>,
    youTubeThumbnail: Option<string>,
    coverSrc: string,
    category: string,
    subcategory: string,
    title: string,
    description: string,
    smallLabels: bool,
    smallTitle: bool)

  /** `createProjectTile`. */
  function CreateTile(p: Project): (t: Tile)
    ensures t.mediaType != "" && (p.mediaType != "" ==> t.mediaType == p.mediaType)
    ensures t.mediaSrcs == MediaSrcsAttribute(p.mediaSources)
    ensures t.youTubeId.Some? <==> p.youtubeId != ""
    ensures t.youTubeThumbnail.Some? <==> p.youtubeId != ""
    ensures t.youTubeThumbnail.Some? && p.youtubeThumbnail == "" ==>
      StartsWith(p.youtubeId, t.youTubeThumbnail.value) && ',' !in t.youTubeThumbnail.value
    ensures t.coverSrc != "" && t.title == p.title
    ensures t.smallLabels <==> |p.category| > 8
    ensures t.smallTitle <==> |p.title| > 25
  {
    var thumbnail :=
      if p.youtubeId == "" then None
      else if p.youtubeThumbnail != "" then Some(p.youtubeThumbnail)
      else Some(Split(p.youtubeId, ',')[0]);
    assert p.youtubeId != "" && p.youtubeThumbnail == "" ==> StartsWith(p.youtubeId, thumbnail.value) by {
      if p.youtubeId != "" && p.youtubeThumbnail == "" {
        FirstPieceIsPrefix(p.youtubeId, ',');
      }
    }
    Tile(
      if p.mediaType != "" then p.mediaType else "image",
      MediaSrcsAttribute(p.mediaSources),
      if p.youtubeId != "" then Some(p.youtubeId) else None,
      thumbnail,
      CoverSrc(p.coverImageUrl, p.coverImage),
      p.category, p.subcategory, p.title, p.description,
      |p.category| > 8,
      |p.title| > 25)
  }

  /** The first piece of a split is a prefix of the string. */
  lemma FirstPieceIsPrefix(s: string, sep: char)
    ensures StartsWith(s, Split(s, sep)[0])
  {
    var r := Split(s, sep);
    if |r| > 1 {
      assert r == [r[0]] + r[1..];
      assert Join(r, sep) == r[0] + [sep] + Join(r[1..], sep);
    }
  }

  /** With no stored thumbnail, a tile with several YouTube ids shows the
      thumbnail of the first. */
  lemma ThumbnailOfFirstId(p: Project, first: string, rest: string)
    requires p.youtubeThumbnail == "" && first != [] && ',' !in first
    requires p.youtubeId == first + [','] + rest
    ensures CreateTile(p).youTubeThumbnail == Some(first)
  {
    SplitAfterPiece(first, ',', rest);
  }

  /** What a rebuilt tile's click passes to `openModal` as `mediaSrcs`:
      `getAttribute('data-media-srcs')`, `null` when the tile has none. */
  function TileMediaArg(t: Tile): MediaModal.MediaArg {
    match t.mediaSrcs
    case None => MediaModal.Null
    case Some(srcs) => MediaModal.Text(srcs)
  }

  /** `getAttribute('data-youtube-id')`, its `null` read as the empty id. */
  function TileYouTubeArg(t: Tile): string {
    t.youTubeId.GetOr("")
  }

  /** A project whose every media source is blank gives a tile without
      `data-media-srcs`. Clicked, an image or video tile opens the modal on
      the one entry "null", and a mixed tile never opens it: the modal
      keeps its classes and its lists. */
  lemma SourcelessTileInModal(p: Project, s: MediaModal.ModalState)
    requires forall i :: 0 <= i < |p.mediaSources| ==> IsBlank(SourceText(p.mediaSources[i]))
    ensures var t := CreateTile(p);
      var r := MediaModal.OpenStep(s, t.mediaType, TileMediaArg(t), TileYouTubeArg(t));
      && (p.mediaType == "" || p.mediaType == "image" ==> r.images.items == ["null"] && r.view.open)
      && (p.mediaType == "video" ==> r.videos.items == ["null"] && r.view.open)
      && (p.mediaType == "mixed" ==>
            r.view.open == s.view.open && r.view.hidden == s.view.hidden &&
            forall kind :: MediaModal.Len(r, kind) == MediaModal.Len(s, kind))
  {
    var t := CreateTile(p);
    assert TileMediaArg(t) == MediaModal.Null;
    assert t.mediaType == if p.mediaType == "" then "image" else p.mediaType;
    NullSourcesOpen(s, t.mediaType, TileYouTubeArg(t));
  }

  /** `openModal` called with `null` sources, by media type. */
  lemma NullSourcesOpen(s: MediaModal.ModalState, m: string, y: string)
    ensures var r := MediaModal.OpenStep(s, m, MediaModal.Null, y);
      && (m == "image" ==> r.images.items == ["null"] && r.view.open)
      && (m == "video" ==> r.videos.items == ["null"] && r.view.open)
      && (m == "mixed" ==>
            r.view.open == s.view.open && r.view.hidden == s.view.hidden &&
            forall kind :: MediaModal.Len(r, kind) == MediaModal.Len(s, kind))
  {
    if m == "image" {
      assert MediaModal.OpenedKind(m, y) == MediaModal.Images;
      MediaModal.OpenRevealsNavIffMany(s, m, MediaModal.Null, y);
    } else if m == "video" {
      assert MediaModal.OpenedKind(m, y) == MediaModal.Videos;
      MediaModal.OpenRevealsNavIffMany(s, m, MediaModal.Null, y);
    } else if m == "mixed" {
      assert MediaModal.OpenThrows(m, MediaModal.Null, y);
      MediaModal.OpenRevealsNavIffMany(s, m, MediaModal.Null, y);
    }
  }

  // ---------------------------------------------------------------------
  // Payloads
  // ---------------------------------------------------------------------

  /** A parsed JSON payload: a bare array, or an object whose list sits
      under one key (`projects`, `comments` or `slider`), `None` when that
      key is missing or null. */
  datatype Payload<T> = ArrayPayload(items: seq<T>) | ObjectPayload(entry: Option<seq<T>>)

  /** `Array.isArray(data) ? data : (data.key || [])`. */
  function Unwrap<T>(p: Payload<T>): seq<T> {
    match p
    case ArrayPayload(xs) => xs
    case ObjectPayload(e) => e.GetOr([])
  }

  /** Both payload formats carry the same list, and an object without the
      key carries the empty list. */
  lemma PayloadFormatsAgree<T>(xs: seq<T>)
    ensures Unwrap(ArrayPayload(xs)) == Unwrap(ObjectPayload(Some(xs))) == xs
    ensures Unwrap<T>(ObjectPayload(None)) == []
  {
  }

  /** What a `fetch` of a data file yields: a network or parse failure, a
      response that is not `ok`, or a parsed payload. */
  datatype Response<T> = Failed | NotOk | Ok(payload: Payload<T>)

  /** The render call a loader makes, if any. */
  datatype RenderCall<T> = Render(items: seq<T>) | NoRender

  /** `loadIndividualProjects`: no list of individual files exists, so it
      yields nothing. */
  function IndividualProjects(): (r: seq<Project>)
    ensures |r| == 0
  {
    []
  }

  /** `loadProjects`: the aggregated file, then the individual-file
      fallback, rendered only when non-empty. */
  function LoadProjects(r: Response<Project>): (c: RenderCall<Project>)
    ensures c.Render? <==> r.Ok?
    ensures r.Ok? ==> c.items == Unwrap(r.payload)
  {
    match r
    case Ok(p) => Render(Unwrap(p))
    case _ =>
      var fallback := IndividualProjects();
      if |fallback| > 0 then Render(fallback) else NoRender
  }

  /** `loadComments` and `loadSlider`: render the unwrapped list of an ok
      response, do nothing otherwise. */
  function LoadList<T>(r: Response<T>): (c: RenderCall<T>)
    ensures c.Render? <==> r.Ok?
    ensures r.Ok? ==> c.items == Unwrap(r.payload)
  {
    match r
    case Ok(p) => Render(Unwrap(p))
    case _ => NoRender
  }

  /** The fallback of `loadProjects` never renders, so projects load like
      comments and slides: a failure leaves the page as it was, while an
      ok payload, even an empty one, replaces the content. */
  lemma ProjectsLoadLikeOtherLists(r: Response<Project>)
    ensures LoadProjects(r) == LoadList(r)
    ensures r.Ok? && |Unwrap(r.payload)| == 0 ==> LoadProjects(r) == Render([])
  {
  }

  // ---------------------------------------------------------------------
  // Sorting
  // ---------------------------------------------------------------------

  /** Ascending by `key`. */
  predicate SortedBy<T>(s: seq<T>, key: T -> int) {
    forall m, n :: 0 <= m < n < |s| ==> key(s[m]) <= key(s[n])
  }

  /** Exchanges `a[j - 1]` and `a[j]`. */
  method SwapDown<T>(a: array<T>, j: nat)
    requires 0 < j < a.Length
    modifies a
    ensures a[..] == old(a[..])[j - 1 := old(a[j])][j := old(a[j - 1])]
    ensures multiset(a[..]) == multiset(old(a[..]))
  {
    a[j - 1], a[j] := a[j], a[j - 1];
  }

  /** Moves `a[i]` down into the sorted prefix `a[..i]`. */
  method InsertDown<T>(a: array<T>, i: nat, key: T -> int)
    requires i < a.Length && SortedBy(a[..i], key)
    modifies a
    ensures SortedBy(a[..i + 1], key)
    ensures multiset(a[..]) == multiset(old(a[..]))
    ensures a[i + 1..] == old(a[i + 1..])
  {
    var j := i;
    while j > 0 && key(a[j - 1]) > key(a[j])
      invariant 0 <= j <= i
      invariant forall m, n :: 0 <= m < n <= i && m != j && n != j ==> key(a[m]) <= key(a[n])
      invariant forall n :: j < n <= i ==> key(a[j]) < key(a[n])
      invariant multiset(a[..]) == multiset(old(a[..]))
      invariant a[i + 1..] == old(a[i + 1..])
    {
      SwapDown(a, j);
      j := j - 1;
    }
  }

  /** `array.sort((a, b) => key(a) - key(b))`: sorts in place, ascending
      by the key, keeping the same elements. */
  method SortBy<T>(a: array<T>, key: T -> int)
    modifies a
    ensures SortedBy(a[..], key)
    ensures multiset(a[..]) == multiset(old(a[..]))
  {
    var i := 0;
    while i < a.Length
      invariant 0 <= i <= a.Length
      invariant SortedBy(a[..i], key)
      invariant multiset(a[..]) == multiset(old(a[..]))
    {
      InsertDown(a, i, key);
      i := i + 1;
    }
    assert a[..a.Length] == a[..];
  }

  function ProjectId(p: Project): int { p.id }

  /** `a.forEach((x, i) => parent.appendChild(build(x, i)))` on an
      emptied parent: the built elements, in array order. */
  method AppendEach<A, B>(a: array<A>, build: (A, nat) -> B) returns (r: seq<B>)
    ensures |r| == a.Length
    ensures forall i :: 0 <= i < a.Length ==> r[i] == build(a[i], i)
  {
    r := [];
    for i := 0 to a.Length
      invariant |r| == i
      invariant forall k :: 0 <= k < i ==> r[k] == build(a[k], k)
    {
      r := r + [build(a[i], i)];
    }
  }

  // ---------------------------------------------------------------------
  // The project grid
  // ---------------------------------------------------------------------

  /** The projects grid and the tiles in it. */
  class Grid {
    /** Whether the page has a grid the selectors find. */
    const present: bool
    var tiles: seq<Tile>

    constructor (present: bool, tiles: seq<Tile>)
      ensures this.present == present && this.tiles == tiles
    {
      this.present := present;
      this.tiles := tiles;
    }

    /** `renderProjects`: without a grid nothing happens, not even the
        sort; otherwise the projects are sorted by id in place and the old
        tiles are replaced by one tile per project, in that order. */
    method RenderProjects(projects: array<Project>)
      modifies this, projects
      ensures !present ==> tiles == old(tiles) && projects[..] == old(projects[..])
      ensures present ==> SortedBy(projects[..], ProjectId)
      ensures multiset(projects[..]) == multiset(old(projects[..]))
      ensures present ==> |tiles| == projects.Length
      ensures present ==> forall i :: 0 <= i < |tiles| ==> tiles[i] == CreateTile(projects[i])
    {
      if !present {
        return;
      }
      SortBy(projects, ProjectId);
      tiles := AppendEach(projects, (p, i) => CreateTile(p));
    }
  }

  // ---------------------------------------------------------------------
  // Testimonials and their indicators
  // ---------------------------------------------------------------------

  datatype Comment = Comment(id: int, quote: string, author: string, title: string)

  function CommentId(c: Comment): int { c.id }

  /** One indicator dot: its `data-index` and whether it is the active one. */
  datatype Indicator = Indicator(index: nat, active: bool)

  /** The loop of `updateCommentIndicators`: `count` dots numbered from
      0, of which only the first is active. */
  method BuildIndicators(count: nat) returns (row: seq<Indicator>)
    ensures |row| == count
    ensures forall i :: 0 <= i < count ==> row[i].index == i && (row[i].active <==> i == 0)
  {
    row := [];
    for i := 0 to count
      invariant |row| == i
      invariant forall k :: 0 <= k < i ==> row[k].index == k && (row[k].active <==> k == 0)
    {
      row := row + [Indicator(i, i == 0)];
    }
  }

  /** The testimonial section: its card wrapper and its indicator
      container. */
  class CommentsSection {
    /** Whether the page has the card wrapper. */
    const wrapperPresent: bool
    /** Whether the page has the testimonial section. */
    const sectionPresent: bool
    /** Whether the section has the element a new indicator container is
        appended to. */
    const parentPresent: bool
    var cards: seq<Comment>
    /** The indicator container on the page and its dots; `None` while
        the page has none. */
    var indicators: Option<seq<Indicator>>

    constructor (wrapperPresent: bool, sectionPresent: bool, parentPresent: bool,
                 cards: seq<Comment>, indicators: Option<seq<Indicator>>)
      ensures this.wrapperPresent == wrapperPresent && this.sectionPresent == sectionPresent
      ensures this.parentPresent == parentPresent
      ensures this.cards == cards && this.indicators == indicators
    {
      this.wrapperPresent := wrapperPresent;
      this.sectionPresent := sectionPresent;
      this.parentPresent := parentPresent;
      this.cards := cards;
      this.indicators := indicators;
    }

    /** `updateCommentIndicators(count)`: without the section nothing
        changes; a missing container is created, and it reaches the page
        only when there is a parent to append it to; the container on the
        page then holds exactly `count` dots, only the first active. */
    method UpdateCommentIndicators(count: nat)
      modifies this
      ensures cards == old(cards)
      ensures !sectionPresent ==> indicators == old(indicators)
      ensures sectionPresent ==> (indicators.Some? <==> old(indicators).Some? || parentPresent)
      ensures sectionPresent && indicators.Some? ==>
        |indicators.value| == count &&
        forall i :: 0 <= i < count ==>
          indicators.value[i].index == i && (indicators.value[i].active <==> i == 0)
    {
      if !sectionPresent {
        return;
      }
      var row := BuildIndicators(count);
      if indicators.Some? || parentPresent {
        indicators := Some(row);
      }
    }

    /** `renderComments`: without the wrapper nothing happens; otherwise
        the comments are sorted by id in place, become the cards in that
        order, and the indicators are rebuilt for their number exactly as
        `updateCommentIndicators` does. */
    method RenderComments(comments: array<Comment>)
      modifies this, comments
      ensures !wrapperPresent ==> cards == old(cards) && indicators == old(indicators)
      ensures !wrapperPresent ==> comments[..] == old(comments[..])
      ensures multiset(comments[..]) == multiset(old(comments[..]))
      ensures wrapperPresent ==> SortedBy(comments[..], CommentId) && cards == comments[..]
      ensures wrapperPresent && !sectionPresent ==> indicators == old(indicators)
      ensures wrapperPresent && sectionPresent ==>
        (indicators.Some? <==> old(indicators).Some? || parentPresent)
      ensures wrapperPresent && sectionPresent && indicators.Some? ==>
        |indicators.value| == |cards| &&
        forall i :: 0 <= i < |cards| ==>
          indicators.value[i].index == i && (indicators.value[i].active <==> i == 0)
    {
      if !wrapperPresent {
        return;
      }
      SortBy(comments, CommentId);
      cards := AppendEach(comments, (c, i) => c);
      assert cards == comments[..];
      UpdateCommentIndicators(comments.Length);
    }
  }

  // ---------------------------------------------------------------------
  // Hero slider images
  // ---------------------------------------------------------------------

  /** A slide record. An empty `imageUrl` or `image` stands for a missing
      field; `alt` is taken as present, since a missing one would be
      written to the image as the text "undefined". */
  datatype Slide = Slide(order: int, imageUrl: string, image: string, alt: string)

  function SlideOrder(s: Slide): int { s.order }

  /** An image element of the slider. */
  datatype SlideImage = SlideImage(src: string, alt: string, visible: bool)

  /** The `src` of a slide's image: `imageUrl || image` under the prefix
      rule, the empty string when both are missing. */
  function SliderSrc(imageUrl: string, image: string): (r: string)
    ensures r == "" <==> imageUrl == "" && image == ""
    ensures r != "" ==> IsServable(r)
    ensures imageUrl != "" ==> EndsWith(r, imageUrl)
    ensures imageUrl == "" && image != "" ==> EndsWith(r, image)
  {
    var url := if imageUrl != "" then imageUrl else image;
    if url == "" then "" else PrefixRulesAgree(url); CoverPrefixRule(url)
  }

  /** The image built for the slide at `index`: only the first one starts
      with opacity 1. */
  function SlideImageAt(s: Slide, index: nat): (img: SlideImage)
    ensures img.visible <==> index == 0
    ensures img.alt == s.alt && img.src == SliderSrc(s.imageUrl, s.image)
  {
    SlideImage(SliderSrc(s.imageUrl, s.image), s.alt, index == 0)
  }

  /** The hero slider's images. */
  class SliderView {
    /** Whether the page has the slider element. */
    const present: bool
    var images: seq<SlideImage>

    constructor (present: bool, images: seq<SlideImage>)
      ensures this.present == present && this.images == images
    {
      this.present := present;
      this.images := images;
    }

    /** `renderSlider`: without the slider nothing happens; otherwise the
        slides are sorted by `order` in place and the old images are
        replaced by one image per slide, in that order, only the first
        one visible. */
    method RenderSlider(slides: array<Slide>)
      modifies this, slides
      ensures !present ==> images == old(images) && slides[..] == old(slides[..])
      ensures multiset(slides[..]) == multiset(old(slides[..]))
      ensures present ==> SortedBy(slides[..], SlideOrder)
      ensures present ==> |images| == slides.Length
      ensures present ==> forall i :: 0 <= i < |images| ==> images[i] == SlideImageAt(slides[i], i)
    {
      if !present {
        return;
      }
      SortBy(slides, SlideOrder);
      images := AppendEach(slides, SlideImageAt);
    }
  }
}
