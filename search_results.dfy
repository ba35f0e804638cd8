/**
 * The `/search` route: keep the search results that look like music videos,
 * take the first fifteen and map each to the track shape the client renders.
 * The YouTube search itself is foreign code; its outcome is a parameter.
 */
module SearchResults {
  import opened Wrappers
  import opened JsText
  import opened Seqs

  /** The channel of a search result, as far as the route reads it. */
  datatype Channel = Channel(name: Option<string>, verified: Option<bool>)

  /**
   * One search result; `title` is missing when the result carries none,
   * `duration` is in milliseconds, `thumbnailUrl` is `thumbnail?.url`.
   */
  datatype Video = Video(id: string, title: Option<string>, duration: int, channel: Option<Channel>, thumbnailUrl: Option<string>)

  /** The track record the route sends back for each kept result. */
  datatype Track = Track(id: string, title: string, artist: string, album: string, art: string, durationSeconds: int)

  /** At most this many tracks are returned. */
  const MaxTracks: nat := 15

  /**
   * The filter of the route: one to fifteen minutes long, no shorts, no
   * livestreams, no unverified channel. It is only ever applied to results
   * that have a title (see `AllTitled`).
   */
  predicate IsMusicVideo(v: Video)
    ensures IsMusicVideo(v) ==> v.title.Some? && 60000 <= v.duration <= 900000
  {
    var duration := v.duration as real / 1000.0;
    var title := Lower(if v.title.Some? then v.title.value else "");
    && v.title.Some?
    && duration >= 60.0 && duration <= 900.0
    && !Includes(title, "#shorts")
    && !Includes(title, "livestream")
    && !(v.channel.Some? && v.channel.value.verified == Some(false))
  }

  /** `x || fallback` on an optional string: the fallback replaces a missing or empty string. */
  function OrElse(x: Option<string>, fallback: string): (r: string)
    ensures x.Some? && x.value != "" ==> r == x.value
    ensures !(x.Some? && x.value != "") ==> r == fallback
  {
    if x.Some? && x.value != "" then x.value else fallback
  }

  /**
   * The mapping of one kept result to a track: the id, the title or
   * "Unknown Title", the channel name or "Unknown Artist", the album
   * "YouTube", the thumbnail or the default cover, and the whole seconds.
   */
  function ToTrack(v: Video): (r: Track)
    ensures r.id == v.id && r.album == "YouTube"
    ensures r.title == (if v.title.Some? && v.title.value != "" then v.title.value else "Unknown Title")
    ensures var name := if v.channel.Some? then v.channel.value.name else None;
      r.artist == (if name.Some? && name.value != "" then name.value else "Unknown Artist")
    ensures r.art == (if v.thumbnailUrl.Some? && v.thumbnailUrl.value != "" then v.thumbnailUrl.value else "covers/default.jpg")
    ensures r.artist != "" && r.art != ""
    ensures r.durationSeconds == v.duration / 1000
  {
    FlooredSeconds(v.duration);
    Track(
      v.id,
      OrElse(v.title, "Unknown Title"),
      OrElse(if v.channel.Some? then v.channel.value.name else None, "Unknown Artist"),
      "YouTube",
      OrElse(v.thumbnailUrl, "covers/default.jpg"),
      (v.duration as real / 1000.0).Floor)
  }

  /** `Math.floor(ms / 1000)` is the integer quotient of the milliseconds by 1000. */
  lemma FlooredSeconds(ms: int)
    ensures (ms as real / 1000.0).Floor == ms / 1000
  {
    var q := ms / 1000;
    assert ms == q * 1000 + ms % 1000;
    assert q as real <= ms as real / 1000.0 < q as real + 1.0;
  }

  /** The filter step on its own: the results that look like music videos, in order. */
  function MusicVideos(vs: seq<Video>): (r: seq<Video>)
    ensures |r| <= |vs|
    ensures forall i :: 0 <= i < |r| ==> r[i] in vs && IsMusicVideo(r[i])
    ensures forall i :: 0 <= i < |vs| && IsMusicVideo(vs[i]) ==> vs[i] in r
  {
    Filter(IsMusicVideo, vs)
  }

  /** The whole pipeline: filter, `slice(0, 15)`, map. */
  function FormattedTracks(vs: seq<Video>): (r: seq<Track>)
    ensures |r| == if |MusicVideos(vs)| < MaxTracks then |MusicVideos(vs)| else MaxTracks
    ensures forall i :: 0 <= i < |r| ==> r[i] == ToTrack(MusicVideos(vs)[i])
    ensures forall i :: 0 <= i < |r| ==> r[i].album == "YouTube" && 60 <= r[i].durationSeconds <= 900
  {
    var kept := Take(MusicVideos(vs), MaxTracks);
    seq(|kept|, i requires 0 <= i < |kept| => ToTrack(kept[i]))
  }

  /** The filter is exact: a result is kept iff it meets all four conditions, stated in milliseconds. */
  lemma IsMusicVideoIff(v: Video)
    ensures IsMusicVideo(v) <==>
      && v.title.Some?
      && 60000 <= v.duration <= 900000
      && !Includes(Lower(v.title.value), "#shorts")
      && !Includes(Lower(v.title.value), "livestream")
      && (v.channel.None? || v.channel.value.verified != Some(false))
  {
  }

  /** Each kept result becomes a track of 60 to 900 whole seconds, titled with its own title. */
  lemma TrackDuration(v: Video)
    requires IsMusicVideo(v)
    ensures 60 <= ToTrack(v).durationSeconds <= 900
    ensures ToTrack(v).title == v.title.value || (v.title.value == "" && ToTrack(v).title == "Unknown Title")
  {
    IsMusicVideoIff(v);
  }

  /** Only the first fifteen kept results matter: results after them never change the reply. */
  lemma LaterResultsIgnored(vs: seq<Video>, more: seq<Video>)
    requires |MusicVideos(vs)| >= MaxTracks
    ensures FormattedTracks(vs + more) == FormattedTracks(vs)
  {
    FilterConcat(IsMusicVideo, vs, more);
    assert MusicVideos(vs + more)[..MaxTracks] == MusicVideos(vs)[..MaxTracks];
  }

  /** The reply of `/search`. */
  datatype SearchReply = Tracks(tracks: seq<Track>) | SearchError(status: nat, error: string)

  /** Every result has a title: the filter reads `video.title.toLowerCase()` of each one and throws otherwise. */
  predicate AllTitled(vs: seq<Video>)
  {
    forall i :: 0 <= i < |vs| ==> vs[i].title.Some?
  }

  /**
   * The `/search` handler: 400 without a query; 500 when the search throws or
   * the filter throws on a result without a title; else the tracks.
   */
  function HandleSearch(query: Option<string>, results: Result<seq<Video>, string>): (r: SearchReply)
    ensures (query.None? || query.value == "") ==> r == SearchError(400, "Search query is required")
    ensures query.Some? && query.value != "" && (results.Failure? || !AllTitled(results.value)) ==>
              r == SearchError(500, "Failed to fetch search results from YouTube")
    ensures query.Some? && query.value != "" && results.Success? && AllTitled(results.value) ==>
              r == Tracks(FormattedTracks(results.value))
  {
    if query.None? || query.value == "" then SearchError(400, "Search query is required")
    else
      match results
      case Failure(_) => SearchError(500, "Failed to fetch search results from YouTube")
      case Success(vs) =>
        if AllTitled(vs) then Tracks(FormattedTracks(vs))
        else SearchError(500, "Failed to fetch search results from YouTube")
  }

  /** One result without a title turns the whole reply into the 500, whatever else was found. */
  lemma UntitledResultFailsSearch(query: string, vs: seq<Video>, k: int)
    requires query != "" && 0 <= k < |vs| && vs[k].title.None?
    ensures HandleSearch(Some(query), Success(vs)) == SearchError(500, "Failed to fetch search results from YouTube")
  {
  }

  /** So every track of a successful reply has its result's own title or, for an empty title, "Unknown Title". */
  lemma RepliedTitles(query: string, vs: seq<Video>)
    requires query != ""
    requires HandleSearch(Some(query), Success(vs)).Tracks?
    ensures var ts := HandleSearch(Some(query), Success(vs)).tracks;
      forall i :: 0 <= i < |ts| ==>
        && MusicVideos(vs)[i].title.Some?
        && ts[i].title == (if MusicVideos(vs)[i].title.value != "" then MusicVideos(vs)[i].title.value else "Unknown Title")
  {
  }

  /** Without a query the reply does not depend on the search at all: no search is made. */
  lemma MissingQueryDoesNotSearch(query: Option<string>, a: Result<seq<Video>, string>, b: Result<seq<Video>, string>)
    requires query.None? || query.value == ""
    ensures HandleSearch(query, a) == HandleSearch(query, b)
  {
  }
}
