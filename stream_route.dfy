/**
 * The `/stream` handler of the server: id validation, the cached or freshly
 * fetched video info, the audio format choice and the reply headers,
 * including the range reply. The video library (`validateID`, `getInfo`,
 * `chooseFormat`) enters as parameters: a predicate, the fetch outcome and a
 * format-choosing function.
 */
module StreamRoute {
  import opened Wrappers
  import opened JsText
  import opened InfoCache
  import opened ByteRange
  import opened StreamErrors

  /** What the handler reads of the chosen audio format. */
  datatype AudioFormat = AudioFormat(mimeType: Option<string>, contentLength: Option<nat>)

  /** What the handler answers. */
  datatype StreamReply =
    | JsonError(status: int, error: string)
    | RangeNotSatisfiable(unsatisfiedRange: string)
    | Audio(status: int, contentType: string, contentRange: Option<string>, contentLength: Option<nat>)

  const DefaultContentType := "audio/webm"
  const InvalidIdError := "Valid Video ID is required"
  const NoFormatError := "No suitable audio format found for this video"

  /** `audioFormat.mimeType || 'audio/webm'`. */
  function ContentType(format: AudioFormat): (t: string)
    ensures t != []
    ensures format.mimeType.Some? && format.mimeType.value != [] ==> t == format.mimeType.value
  {
    if format.mimeType.Some? && format.mimeType.value != [] then format.mimeType.value else DefaultContentType
  }

  /** `range && audioFormat.contentLength`: a non-empty header and a known length. */
  predicate RangeApplies(format: AudioFormat, range: Option<string>)
  {
    range.Some? && range.value != [] && format.contentLength.Some?
  }

  /**
   * The reply once a format is chosen: the whole stream with status 200, or,
   * for a range request on a stream of known length, the checked range with
   * status 206 (or 416 when it selects nothing).
   */
  function AudioReply(format: AudioFormat, range: Option<string>): (r: StreamReply)
    ensures !RangeApplies(format, range) ==> r == Audio(200, ContentType(format), None, None)
    ensures RangeApplies(format, range) ==> r.RangeNotSatisfiable? || (r.Audio? && r.status == 206)
    ensures r.Audio? ==> r.contentType == ContentType(format)
    ensures r.Audio? && r.status == 206 ==>
      && r.contentLength.Some? && r.contentRange.Some?
      && 0 < r.contentLength.value <= format.contentLength.value
  {
    if RangeApplies(format, range) then
      match ResolveRange(range.value, format.contentLength.value)
      case Satisfiable(_, _, length, text) => Audio(206, ContentType(format), Some(text), Some(length))
      case Unsatisfiable(text) => RangeNotSatisfiable(text)
    else
      Audio(200, ContentType(format), None, None)
  }

  /** An in-bounds range gets exactly the headers the handler writes: status 206, `bytes start-end/size`, `end - start + 1`. */
  lemma InBoundsRangeReply(format: AudioFormat, range: string)
    requires format.contentLength.Some? && range != []
    requires var h := PartialHeadersFor(range, format.contentLength.value);
      h.start.Num? && h.end.Num? && 0 <= h.start.value <= h.end.value < format.contentLength.value
    ensures var h := PartialHeadersFor(range, format.contentLength.value);
      AudioReply(format, Some(range))
        == Audio(206, ContentType(format), Some(h.contentRange), Some(h.end.value - h.start.value + 1))
  {
    var size := format.contentLength.value;
    var h := PartialHeadersFor(range, size);
    ResolveRangeAgrees(range, size);
    SatisfiableReply(format, range, h.start.value, h.end.value, h.end.value - h.start.value + 1, h.contentRange);
  }

  /** The reply once the corrected range is known to be satisfiable. */
  lemma SatisfiableReply(format: AudioFormat, range: string, first: nat, last: nat, length: nat, text: string)
    requires format.contentLength.Some? && range != []
    requires ResolveRange(range, format.contentLength.value) == Satisfiable(first, last, length, text)
    ensures AudioReply(format, Some(range)) == Audio(206, ContentType(format), Some(text), Some(length))
  {
  }

  /** The reply once the video info is at hand: 404 when the video has no audio-only format. */
  function InfoReply<Info>(info: Info, chooseFormat: Info -> Option<AudioFormat>, range: Option<string>): (r: StreamReply)
    ensures chooseFormat(info).None? ==> r == JsonError(404, NoFormatError)
    ensures chooseFormat(info).Some? ==> r == AudioReply(chooseFormat(info).value, range)
  {
    match chooseFormat(info)
    case None => JsonError(404, NoFormatError)
    case Some(format) => AudioReply(format, range)
  }

  /** `!videoId || !ytdl.validateID(videoId)`. */
  predicate IsUsableId(videoId: Option<string>, isValidId: string -> bool)
  {
    videoId.Some? && videoId.value != [] && isValidId(videoId.value)
  }

  /**
   * One `/stream` request. `now` is the clock at the lookup, `fetched` what
   * `getInfo` yields on a miss (its error message on failure) and `fetchedAt`
   * the clock when it returns.
   */
  method Stream<Info>(cache: VideoInfoCache<Info>, videoId: Option<string>, isValidId: string -> bool,
                      now: int, fetched: Result<Info, string>, fetchedAt: int,
                      chooseFormat: Info -> Option<AudioFormat>, range: Option<string>)
    returns (reply: StreamReply)
    modifies cache
    ensures !IsUsableId(videoId, isValidId) ==>
      reply == JsonError(400, InvalidIdError) && cache.entries == old(cache.entries)
    ensures IsUsableId(videoId, isValidId) ==>
      match CachedInfo(old(cache.entries), videoId.value, now)
      case Some(info) =>
        reply == InfoReply(info, chooseFormat, range) && cache.entries == old(cache.entries)
      case None =>
        match fetched
        case Failure(message) =>
          reply == JsonError(500, StreamErrorMessage(message)) && cache.entries == old(cache.entries)
        case Success(info) =>
          reply == InfoReply(info, chooseFormat, range)
          && cache.entries == old(cache.entries)[videoId.value := Entry(info, fetchedAt)]
  {
    if videoId.None? || videoId.value == [] || !isValidId(videoId.value) {
      return JsonError(400, InvalidIdError);
    }
    var id := videoId.value;
    var cached := cache.Lookup(id, now);
    var info: Info;
    if cached.Some? {
      info := cached.value;
    } else {
      match fetched {
        case Failure(message) =>
          return JsonError(500, StreamErrorMessage(message));
        case Success(got) =>
          info := got;
          cache.Store(id, info, fetchedAt);
      }
    }
    reply := InfoReply(info, chooseFormat, range);
  }
}
