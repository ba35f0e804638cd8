/**
 * The leaner `MusicPlayer` of `app.js`: the same cursor and play state as the
 * Sync-in client, over songs that arrive from the server and are never
 * changed in place (its favourite and playlist methods have no bodies), so a
 * song is a value here. Song ids are whatever the server sent: a string or a number.
 */
module LeanPlayer {
  import opened Wrappers
  import opened JsText
  import opened Cursor
  import opened Seqs

  /** A JavaScript song id: a string (a video id) or a number. */
  datatype JsId = StrId(s: string) | NumId(n: int)

  /** The fields of a song the player reads. */
  datatype Track = Track(id: JsId, title: string, streamUrl: Option<string>, isFavorite: bool)

  datatype Playlist = Playlist(id: int, name: string, songs: seq<Track>)

  datatype View = Home | Favorites | PlaylistView(playlistId: int) | OtherView(name: string)

  /** `${song.id}`: the text a song row carries in its `data-id` attribute. */
  function RenderedId(id: JsId): string
  {
    match id
    case StrId(s) => s
    case NumId(n) => IntToString(n)
  }

  /** `s.id === key` for a number `key`: a string id never equals a number, and NaN equals nothing. */
  predicate StrictEqualsNumber(id: JsId, key: JsNumber)
  {
    id.NumId? && key.Num? && id.n == key.value
  }

  /** `songs.findIndex(s => s.id === parseInt(dataId))`, the lookup of the click handler as written. */
  function ClickIndexAsWritten(songs: seq<Track>, dataId: string): (r: int)
    ensures -1 <= r < |songs|
    ensures r >= 0 ==> StrictEqualsNumber(songs[r].id, ParseInt(dataId))
    ensures r >= 0 ==> forall j :: 0 <= j < r ==> !StrictEqualsNumber(songs[j].id, ParseInt(dataId))
    ensures r == -1 <==> forall j :: 0 <= j < |songs| ==> !StrictEqualsNumber(songs[j].id, ParseInt(dataId))
  {
    var key := ParseInt(dataId);
    FindIndex((s: Track) => StrictEqualsNumber(s.id, key), songs)
  }

  /** As written, a click on a song whose id is a string never finds it. */
  lemma StringIdsNeverClickable(songs: seq<Track>, dataId: string)
    requires forall j :: 0 <= j < |songs| ==> songs[j].id.StrId?
    ensures ClickIndexAsWritten(songs, dataId) == -1
  {
  }

  /** For instance the row of the search result `dQw4w9WgXcQ`, the only song in view. */
  lemma SearchResultNotClickable(songs: seq<Track>, videoId: string)
    requires videoId == "dQw4w9WgXcQ"
    requires songs == [Track(StrId(videoId), "Never Gonna Give You Up", None, false)]
    ensures RenderedId(songs[0].id) == videoId
    ensures ClickIndexAsWritten(songs, RenderedId(songs[0].id)) == -1
  {
    StringIdsNeverClickable(songs, videoId);
  }

  /** The corrected lookup: the first song whose rendered id is the row's `data-id`. */
  function ClickIndex(songs: seq<Track>, dataId: string): (r: int)
    ensures -1 <= r < |songs|
    ensures r >= 0 ==> RenderedId(songs[r].id) == dataId && forall j :: 0 <= j < r ==> RenderedId(songs[j].id) != dataId
    ensures r == -1 <==> forall j :: 0 <= j < |songs| ==> RenderedId(songs[j].id) != dataId
  {
    FindIndex((s: Track) => RenderedId(s.id) == dataId, songs)
  }

  /** Corrected: clicking a row selects the first song that rendered it, whatever the kind of its id. */
  lemma ClickFindsRenderedSong(songs: seq<Track>, k: int)
    requires 0 <= k < |songs|
    requires forall j :: 0 <= j < k ==> RenderedId(songs[j].id) != RenderedId(songs[k].id)
    ensures ClickIndex(songs, RenderedId(songs[k].id)) == k
  {
  }

  /** On numeric ids the correction agrees with the handler as written. */
  lemma {:induction false} ClickIndexAgreesOnNumbers(songs: seq<Track>, dataId: string)
    requires forall j :: 0 <= j < |songs| ==> songs[j].id.NumId?
    requires exists n :: dataId == IntToString(n)
    ensures ClickIndex(songs, dataId) == ClickIndexAsWritten(songs, dataId)
    decreases |songs|
  {
    var n :| dataId == IntToString(n);
    ParseIntOfIntToString(n);
    if |songs| > 0 {
      var m := songs[0].id.n;
      if IntToString(m) == dataId {
        IntToStringInjective(m, n);
      }
      ClickIndexAgreesOnNumbers(songs[1..], dataId);
    }
  }

  /** `playlists.find(p => p.id === id)` as a position, or -1. */
  function PlaylistIndex(playlists: seq<Playlist>, id: int): (r: int)
    ensures -1 <= r < |playlists|
    ensures r >= 0 ==> playlists[r].id == id && forall j :: 0 <= j < r ==> playlists[j].id != id
    ensures r == -1 <==> forall j :: 0 <= j < |playlists| ==> playlists[j].id != id
  {
    FindIndex((p: Playlist) => p.id == id, playlists)
  }

  /** `songs.filter(song => song.isFavorite)`. */
  function FavoriteTracks(songs: seq<Track>): (r: seq<Track>)
    ensures |r| <= |songs|
    ensures forall i :: 0 <= i < |r| ==> r[i] in songs && r[i].isFavorite
    ensures forall i :: 0 <= i < |songs| && songs[i].isFavorite ==> songs[i] in r
  {
    Filter(IsFavorite, songs)
  }

  /** The test `song => song.isFavorite`. */
  predicate IsFavorite(t: Track)
  {
    t.isFavorite
  }

  /** The favourites keep their order: the favourites of a joined list are the joined favourites. */
  lemma FavoriteTracksConcat(xs: seq<Track>, ys: seq<Track>)
    ensures FavoriteTracks(xs + ys) == FavoriteTracks(xs) + FavoriteTracks(ys)
  {
    FilterConcat(IsFavorite, xs, ys);
  }

  class MusicPlayer {
    var currentSong: Option<Track>
    var currentIndex: int
    var isPlaying: bool
    var audioSrc: Option<string>
    var songs: seq<Track>
    var playlists: seq<Playlist>

    /** The cursor is a position or the -1 an unknown click leaves; playing needs a loaded song. */
    ghost predicate Valid()
      reads this
    {
      currentIndex >= -1 && (isPlaying ==> currentSong.Some?)
    }

    /** The player as the page starts it: nothing loaded, nothing listed (home only draws). */
    constructor ()
      ensures Valid()
      ensures currentSong == None && currentIndex == 0 && !isPlaying && audioSrc == None
      ensures songs == [] && playlists == []
    {
      currentSong := None;
      currentIndex := 0;
      isPlaying := false;
      audioSrc := None;
      songs := [];
      playlists := [];
    }

    /** `loadSong(song)`: nothing for no song; otherwise load it, the source is always its `streamUrl`. */
    method LoadSong(song: Option<Track>)
      requires Valid()
      modifies this
      ensures Valid()
      ensures song.None? ==> currentSong == old(currentSong) && audioSrc == old(audioSrc)
      ensures song.Some? ==> currentSong == song && audioSrc == song.value.streamUrl
      ensures currentIndex == old(currentIndex) && isPlaying == old(isPlaying)
      ensures songs == old(songs) && playlists == old(playlists)
    {
      if song.None? {
        return;
      }
      currentSong := song;
      audioSrc := song.value.streamUrl;
    }

    /** `playSong()`: plays only when a song is loaded. */
    method PlaySong()
      requires Valid()
      modifies this
      ensures Valid()
      ensures isPlaying == (old(isPlaying) || currentSong.Some?)
      ensures currentSong == old(currentSong) && currentIndex == old(currentIndex) && audioSrc == old(audioSrc)
      ensures songs == old(songs) && playlists == old(playlists)
    {
      if currentSong.None? {
        return;
      }
      isPlaying := true;
    }

    /** `pauseSong()`. */
    method PauseSong()
      requires Valid()
      modifies this
      ensures Valid()
      ensures !isPlaying
      ensures currentSong == old(currentSong) && currentIndex == old(currentIndex) && audioSrc == old(audioSrc)
      ensures songs == old(songs) && playlists == old(playlists)
    {
      isPlaying := false;
    }

    /** `togglePlayPause()`. */
    method TogglePlayPause()
      requires Valid()
      modifies this
      ensures Valid()
      ensures currentSong.Some? ==> isPlaying == !old(isPlaying)
      ensures currentSong.None? ==> !isPlaying
      ensures currentSong == old(currentSong) && currentIndex == old(currentIndex) && audioSrc == old(audioSrc)
      ensures songs == old(songs) && playlists == old(playlists)
    {
      if isPlaying {
        PauseSong();
      } else {
        PlaySong();
      }
    }

    /** `nextSong()`: on a non-empty list, step forward with wrap-around (from -1 to 0), load and play. */
    method NextSong()
      requires Valid()
      modifies this
      ensures Valid()
      ensures songs == old(songs) && playlists == old(playlists)
      ensures |songs| == 0 ==>
        currentIndex == old(currentIndex) && currentSong == old(currentSong)
        && isPlaying == old(isPlaying) && audioSrc == old(audioSrc)
      ensures |songs| > 0 ==>
        && currentIndex == NextIndex(old(currentIndex), |songs|)
        && 0 <= currentIndex < |songs|
        && currentSong == Some(songs[currentIndex]) && audioSrc == songs[currentIndex].streamUrl
        && isPlaying
    {
      var n := |songs|;
      if n == 0 {
        return;
      }
      currentIndex := NextIndex(currentIndex, n);
      LoadSong(Some(songs[currentIndex]));
      PlaySong();
    }

    /** `prevSong()`: on a non-empty list, step back with wrap-around, load and play. */
    method PrevSong()
      requires Valid()
      modifies this
      ensures Valid()
      ensures songs == old(songs) && playlists == old(playlists)
      ensures |songs| == 0 ==>
        currentIndex == old(currentIndex) && currentSong == old(currentSong)
        && isPlaying == old(isPlaying) && audioSrc == old(audioSrc)
      ensures |songs| > 0 ==>
        && currentIndex == PrevIndex(old(currentIndex), |songs|)
        && 0 <= currentIndex < |songs|
        && currentSong == Some(songs[currentIndex]) && audioSrc == songs[currentIndex].streamUrl
        && isPlaying
    {
      var n := |songs|;
      if n == 0 {
        return;
      }
      currentIndex := PrevIndex(currentIndex, n);
      LoadSong(Some(songs[currentIndex]));
      PlaySong();
    }

    /**
     * A click on a song row, unguarded: the cursor takes the found position
     * even when it is -1, `loadSong` then gets no song and keeps the loaded
     * one, and `playSong` runs anyway. The lookup is the corrected `ClickIndex`.
     */
    method ClickSong(dataId: string)
      requires Valid()
      modifies this
      ensures Valid()
      ensures songs == old(songs) && playlists == old(playlists)
      ensures currentIndex == ClickIndex(songs, dataId)
      ensures currentIndex == -1 ==>
        currentSong == old(currentSong) && audioSrc == old(audioSrc) && isPlaying == (old(isPlaying) || currentSong.Some?)
      ensures currentIndex >= 0 ==>
        currentSong == Some(songs[currentIndex]) && audioSrc == songs[currentIndex].streamUrl && isPlaying
    {
      var songIndex := ClickIndex(songs, dataId);
      currentIndex := songIndex;
      if 0 <= currentIndex < |songs| {
        LoadSong(Some(songs[currentIndex]));
      } else {
        LoadSong(None);
      }
      PlaySong();
    }

    /**
     * `handleSearch(query)`: a blank query does nothing; otherwise the results
     * of the search request (`online`) replace the list, and a failed request
     * leaves it.
     */
    method HandleSearch(query: string, online: Result<seq<Track>, string>)
      requires Valid()
      modifies this
      ensures Valid()
      ensures Trim(Lower(query)) != [] && online.Success? ==> songs == online.value
      ensures Trim(Lower(query)) == [] || online.Failure? ==> songs == old(songs)
      ensures currentSong == old(currentSong) && currentIndex == old(currentIndex) && isPlaying == old(isPlaying)
      ensures audioSrc == old(audioSrc) && playlists == old(playlists)
    {
      var q := Trim(Lower(query));
      if q == [] {
        return;
      }
      match online {
        case Failure(_) =>
        case Success(results) =>
          songs := results;
      }
    }

    /**
     * `switchView(view)`: the songs the page then lists, or `None` when it
     * lists none (home draws featured playlists). Only a known playlist
     * changes the list in view.
     */
    method SwitchView(view: View) returns (shown: Option<seq<Track>>)
      requires Valid()
      modifies this
      ensures Valid()
      ensures currentSong == old(currentSong) && currentIndex == old(currentIndex) && isPlaying == old(isPlaying)
      ensures audioSrc == old(audioSrc) && playlists == old(playlists)
      ensures view.Favorites? ==> songs == old(songs) && shown == Some(FavoriteTracks(songs))
      ensures view.PlaylistView? ==>
        var k := PlaylistIndex(playlists, view.playlistId);
        && (k >= 0 ==> songs == playlists[k].songs && shown == Some(songs))
        && (k == -1 ==> songs == old(songs) && shown == None)
      ensures view.Home? || view.OtherView? ==> songs == old(songs) && shown == None
    {
      match view {
        case Favorites =>
          shown := Some(FavoriteTracks(songs));
        case PlaylistView(id) =>
          var k := PlaylistIndex(playlists, id);
          if k >= 0 {
            songs := playlists[k].songs;
            shown := Some(songs);
          } else {
            shown := None;
          }
        case Home =>
          shown := None;
        case OtherView(_) =>
          shown := None;
      }
    }
  }

  /** After a click on an unknown row, `nextSong()` lands on the first song. */
  method UnknownClickThenNext(player: MusicPlayer, dataId: string)
    requires player.Valid() && |player.songs| > 0 && ClickIndex(player.songs, dataId) == -1
    modifies player
    ensures player.Valid()
    ensures player.songs == old(player.songs)
    ensures player.currentIndex == 0 && player.currentSong == Some(player.songs[0]) && player.isPlaying
  {
    player.ClickSong(dataId);
    player.NextSong();
    NextFromUnselected(|player.songs|);
  }
}
