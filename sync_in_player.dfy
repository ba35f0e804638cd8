/**
 * The `MusicPlayer` of the Sync-in client (`sync-in/app.js`): the list in
 * view, the cursor into it, the loaded song, the play flag and the audio
 * source, with the playback, click, search, favourite and playlist
 * operations that change them. The `<audio>` element becomes its `src`
 * field; what the page draws is the value `SwitchView` returns.
 */
module SyncInPlayer {
  import opened Wrappers
  import opened JsText
  import opened Cursor
  import opened SyncInLibrary
  import opened Seqs

  /** A playlist: an id (the clock when it was made), a name and its own song array. */
  datatype Playlist = Playlist(id: int, name: string, songs: SongList)

  /** A search result as the search endpoint returns it. */
  datatype TrackJson = TrackJson(id: string, title: string, artist: string, album: string,
                                 streamUrl: Option<string>, isFavorite: bool)

  /** The views of the sidebar. */
  datatype View = Home | Favorites | PlaylistView(playlistId: int) | OtherView(name: string)

  /** `audio.src` after `loadSong(song)`. */
  function SourceAfterLoad(src: Option<string>, song: Song): (r: Option<string>)
    ensures song.provider.Local? ==> r == Some(song.provider.src)
    ensures song.provider.Audius? ==> r == song.streamUrl
    ensures song.provider.Spotify? ==>
      r == if song.streamUrl.Some? && song.streamUrl.value != [] then song.streamUrl else src
  {
    match song.provider
    case Local(path) => Some(path)
    case Audius => song.streamUrl
    case Spotify => if song.streamUrl.Some? && song.streamUrl.value != [] then song.streamUrl else src
  }

  /** The position of the playlist with id `id` in `playlists`, or -1 (`playlists.find`). */
  function PlaylistIndex(playlists: seq<Playlist>, id: int): (r: int)
    ensures -1 <= r < |playlists|
    ensures r >= 0 ==> playlists[r].id == id && forall j :: 0 <= j < r ==> playlists[j].id != id
    ensures r == -1 <==> forall j :: 0 <= j < |playlists| ==> playlists[j].id != id
  {
    FindIndex((p: Playlist) => p.id == id, playlists)
  }

  /** The ids of the eight songs of the local library, in order. */
  const LibraryIds: seq<string> := ["local-1", "local-2", "local-3", "local-4", "local-5", "local-6", "local-7", "local-8"]

  class MusicPlayer {
    var currentSong: Song?
    var currentIndex: int
    var isPlaying: bool
    var audioSrc: Option<string>
    var songs: SongList
    const localSongs: SongList
    var playlists: seq<Playlist>

    /**
     * The cursor never goes below 0, playing needs a loaded song, and every
     * playlist owns a separate array, distinct from the library, with no id twice.
     */
    ghost predicate Valid()
      reads this, set p | p in playlists :: p.songs
    {
      && currentIndex >= 0
      && (isPlaying ==> currentSong != null)
      && (forall p :: p in playlists ==> p.songs != localSongs && DistinctIds(p.songs.items))
      && (forall i, j :: 0 <= i < j < |playlists| ==> playlists[i].songs != playlists[j].songs)
    }

    /** The player as the page starts it: the eight library songs, then the home view. */
    constructor ()
      ensures Valid()
      ensures songs == localSongs && playlists == []
      ensures |localSongs.items| == 8
      ensures forall i :: 0 <= i < 8 ==> localSongs.items[i].id == LibraryIds[i]
      ensures forall i :: 0 <= i < 8 ==> (localSongs.items[i].isFavorite <==> i == 1 || i == 5)
      ensures currentSong == localSongs.items[0] && currentIndex == 0 && !isPlaying
      ensures audioSrc == Some("music/tum-hi-ho.mp3")
    {
      var first := LibraryFirstHalf();
      var second := LibrarySecondHalf();
      var library := new SongList(first + second);
      currentSong := null;
      currentIndex := 0;
      isPlaying := false;
      audioSrc := None;
      songs := library;
      localSongs := library;
      playlists := [];
      new;
      // init(): switchView('home'), which loads the first song of the library
      currentSong := library.items[0];
      audioSrc := SourceAfterLoad(audioSrc, library.items[0]);
    }

    /** Songs 1 to 4 of the library (`sync-in/app.js` lists them in the constructor). */
    static method LibraryFirstHalf() returns (r: seq<Song>)
      ensures |r| == 4
      ensures forall i :: 0 <= i < 4 ==> r[i].id == LibraryIds[i] && (r[i].isFavorite <==> i == 1)
      ensures r[0].provider == Local("music/tum-hi-ho.mp3")
    {
      var s1 := new Song("local-1", Local("music/tum-hi-ho.mp3"), "Tum Hi Ho", "Arijit Singh", "Aashiqui 2", None, false);
      var s2 := new Song("local-2", Local("music/kal-ho-naa-ho.mp3"), "Kal Ho Naa Ho", "Sonu Nigam", "Kal Ho Naa Ho", None, true);
      var s3 := new Song("local-3", Local("music/shape-of-you.mp3"), "Shape of You", "Ed Sheeran", "\U{0E23}\U{0E17} (Divide)", None, false);
      var s4 := new Song("local-4", Local("music/bohemian-rhapsody.mp3"), "Bohemian Rhapsody", "Queen", "A Night at the Opera", None, false);
      r := [s1, s2, s3, s4];
    }

    /** Songs 5 to 8 of the library. */
    static method LibrarySecondHalf() returns (r: seq<Song>)
      ensures |r| == 4
      ensures forall i :: 0 <= i < 4 ==> r[i].id == LibraryIds[i + 4] && (r[i].isFavorite <==> i == 1)
    {
      var s5 := new Song("local-5", Local("music/channa-mereya.mp3"), "Channa Mereya", "Arijit Singh", "Ae Dil Hai Mushkil", None, false);
      var s6 := new Song("local-6", Local("music/perfect.mp3"), "Perfect", "Ed Sheeran", "\U{0E23}\U{0E17} (Divide)", None, true);
      var s7 := new Song("local-7", Local("music/raabta.mp3"), "Raabta", "Arijit Singh", "Agent Vinod", None, false);
      var s8 := new Song("local-8", Local("music/blinding-lights.mp3"), "Blinding Lights", "The Weeknd", "After Hours", None, false);
      r := [s5, s6, s7, s8];
    }

    /** `loadSong(song)`: nothing for no song; otherwise load it and point the audio at its source. */
    method LoadSong(song: Song?)
      requires Valid()
      modifies this
      ensures Valid()
      ensures song == null ==> currentSong == old(currentSong) && audioSrc == old(audioSrc)
      ensures song != null ==> currentSong == song && audioSrc == SourceAfterLoad(old(audioSrc), song)
      ensures currentIndex == old(currentIndex) && isPlaying == old(isPlaying)
      ensures songs == old(songs) && playlists == old(playlists)
    {
      if song == null {
        return;
      }
      currentSong := song;
      audioSrc := SourceAfterLoad(audioSrc, song);
    }

    /** `playSong()`: plays only when a song is loaded. */
    method PlaySong()
      requires Valid()
      modifies this
      ensures Valid()
      ensures isPlaying == (old(isPlaying) || currentSong != null)
      ensures currentSong == old(currentSong) && currentIndex == old(currentIndex) && audioSrc == old(audioSrc)
      ensures songs == old(songs) && playlists == old(playlists)
    {
      if currentSong == null {
        return;
      }
      isPlaying := true;
    }

    /** `pauseSong()`: always leaves the player paused. */
    method PauseSong()
      requires Valid()
      modifies this
      ensures Valid()
      ensures !isPlaying
      ensures currentSong == old(currentSong) && currentIndex == old(currentIndex) && audioSrc == old(audioSrc)
      ensures songs == old(songs) && playlists == old(playlists)
    {
      isPlaying := false;
    }

    /** `togglePlayPause()`: pauses a playing player, otherwise plays if a song is loaded. */
    method TogglePlayPause()
      requires Valid()
      modifies this
      ensures Valid()
      ensures currentSong != null ==> isPlaying == !old(isPlaying)
      ensures currentSong == null ==> !isPlaying
      ensures currentSong == old(currentSong) && currentIndex == old(currentIndex) && audioSrc == old(audioSrc)
      ensures songs == old(songs) && playlists == old(playlists)
    {
      if isPlaying {
        PauseSong();
      } else {
        PlaySong();
      }
    }

    /** `nextSong()`: on a non-empty list, step the cursor forward with wrap-around, load and play. */
    method NextSong()
      requires Valid()
      modifies this
      ensures Valid()
      ensures songs == old(songs) && playlists == old(playlists)
      ensures |songs.items| == 0 ==>
        currentIndex == old(currentIndex) && currentSong == old(currentSong)
        && isPlaying == old(isPlaying) && audioSrc == old(audioSrc)
      ensures |songs.items| > 0 ==>
        && currentIndex == NextIndex(old(currentIndex), |songs.items|)
        && 0 <= currentIndex < |songs.items|
        && currentSong == songs.items[currentIndex]
        && audioSrc == SourceAfterLoad(old(audioSrc), currentSong)
        && isPlaying
    {
      var n := |songs.items|;
      if n == 0 {
        return;
      }
      currentIndex := NextIndex(currentIndex, n);
      LoadSong(songs.items[currentIndex]);
      PlaySong();
    }

    /** `prevSong()`: on a non-empty list, step the cursor back with wrap-around, load and play. */
    method PrevSong()
      requires Valid()
      modifies this
      ensures Valid()
      ensures songs == old(songs) && playlists == old(playlists)
      ensures |songs.items| == 0 ==>
        currentIndex == old(currentIndex) && currentSong == old(currentSong)
        && isPlaying == old(isPlaying) && audioSrc == old(audioSrc)
      ensures |songs.items| > 0 ==>
        && currentIndex == PrevIndex(old(currentIndex), |songs.items|)
        && 0 <= currentIndex < |songs.items|
        && currentSong == songs.items[currentIndex]
        && audioSrc == SourceAfterLoad(old(audioSrc), currentSong)
        && isPlaying
    {
      var n := |songs.items|;
      if n == 0 {
        return;
      }
      currentIndex := PrevIndex(currentIndex, n);
      LoadSong(songs.items[currentIndex]);
      PlaySong();
    }

    /** A click on a song row: select, load and play the first song with that id; nothing for an unknown id. */
    method ClickSong(songId: string)
      requires Valid()
      modifies this
      ensures Valid()
      ensures songs == old(songs) && playlists == old(playlists)
      ensures IndexOfId(songs.items, songId) == -1 ==>
        currentIndex == old(currentIndex) && currentSong == old(currentSong)
        && isPlaying == old(isPlaying) && audioSrc == old(audioSrc)
      ensures IndexOfId(songs.items, songId) >= 0 ==>
        && currentIndex == IndexOfId(songs.items, songId)
        && currentSong == songs.items[currentIndex] && currentSong.id == songId
        && audioSrc == SourceAfterLoad(old(audioSrc), currentSong)
        && isPlaying
    {
      var songIndex := IndexOfId(songs.items, songId);
      if songIndex != -1 {
        currentIndex := songIndex;
        LoadSong(songs.items[currentIndex]);
        PlaySong();
      }
    }

    /**
     * `toggleFavorite(songId)`: flip the flag of the first song with that id in
     * the list in view, else in the library; every list holding that object
     * sees the change, and no other song changes.
     */
    method ToggleFavorite(songId: string)
      modifies set s | s in songs.items + localSongs.items
      ensures var t := LookupSong(songs.items, localSongs.items, songId);
        && (t != null ==> t.isFavorite == !old(t.isFavorite))
        && (forall s :: s in songs.items + localSongs.items && s != t ==> s.isFavorite == old(s.isFavorite))
    {
      var song := LookupSong(songs.items, localSongs.items, songId);
      if song == null {
        return;
      }
      song.isFavorite := !song.isFavorite;
    }

    /** The heart button of the player bar: toggle the loaded song's id, if a song is loaded. */
    method ToggleCurrentFavorite()
      modifies set s | s in songs.items + localSongs.items
      ensures currentSong == null ==> forall s :: s in songs.items + localSongs.items ==> s.isFavorite == old(s.isFavorite)
      ensures currentSong != null ==> var t := LookupSong(songs.items, localSongs.items, currentSong.id);
        && (t != null ==> t.isFavorite == !old(t.isFavorite))
        && (forall s :: s in songs.items + localSongs.items && s != t ==> s.isFavorite == old(s.isFavorite))
    {
      if currentSong != null {
        ToggleFavorite(currentSong.id);
      }
    }

    /** `switchView('home')`: list the library, and load its first song if none is loaded. */
    method ShowHome()
      requires Valid()
      modifies this
      ensures Valid()
      ensures songs == localSongs
      ensures if old(currentSong) == null && |localSongs.items| > 0
              then currentSong == localSongs.items[0] && audioSrc == SourceAfterLoad(old(audioSrc), currentSong)
              else currentSong == old(currentSong) && audioSrc == old(audioSrc)
      ensures playlists == old(playlists) && currentIndex == old(currentIndex) && isPlaying == old(isPlaying)
    {
      songs := localSongs;
      if currentSong == null && |songs.items| > 0 {
        LoadSong(songs.items[0]);
      }
    }

    /**
     * `switchView(view)`: the songs the page then lists, or `None` when it draws
     * nothing new. Home shows the library (and loads its first song if none is
     * loaded), a known playlist its own array; the favourites view changes nothing.
     */
    method SwitchView(view: View) returns (shown: Option<seq<Song>>)
      requires Valid()
      modifies this
      ensures Valid()
      ensures playlists == old(playlists) && currentIndex == old(currentIndex) && isPlaying == old(isPlaying)
      ensures view.Home? ==>
        && songs == localSongs && shown == Some(localSongs.items)
        && (if old(currentSong) == null && |localSongs.items| > 0
            then currentSong == localSongs.items[0] && audioSrc == SourceAfterLoad(old(audioSrc), currentSong)
            else currentSong == old(currentSong) && audioSrc == old(audioSrc))
      ensures view.Favorites? ==>
        && songs == old(songs) && currentSong == old(currentSong) && audioSrc == old(audioSrc)
        && shown == Some(FavoritesView(localSongs.items, songs.items))
      ensures view.PlaylistView? ==>
        var k := PlaylistIndex(playlists, view.playlistId);
        && currentSong == old(currentSong) && audioSrc == old(audioSrc)
        && (k >= 0 ==> songs == playlists[k].songs && shown == Some(songs.items))
        && (k == -1 ==> songs == old(songs) && shown == None)
      ensures view.OtherView? ==>
        songs == old(songs) && currentSong == old(currentSong) && audioSrc == old(audioSrc) && shown == None
    {
      match view {
        case Home =>
          ShowHome();
          shown := Some(songs.items);
        case Favorites =>
          shown := Some(FavoritesView(localSongs.items, songs.items));
        case PlaylistView(id) =>
          var k := PlaylistIndex(playlists, id);
          if k >= 0 {
            songs := playlists[k].songs;
            shown := Some(songs.items);
          } else {
            shown := None;
          }
        case OtherView(_) =>
          shown := None;
      }
    }

    /** `results.map(song => ({ ...song, type: 'audius' }))`: fresh song objects, one per result. */
    static method MakeAudiusSongs(results: seq<TrackJson>) returns (made: seq<Song>)
      ensures |made| == |results|
      ensures forall i :: 0 <= i < |made| ==> fresh(made[i])
      ensures forall i :: 0 <= i < |made| ==>
        && made[i].id == results[i].id && made[i].provider == Audius
        && made[i].title == results[i].title && made[i].artist == results[i].artist
        && made[i].album == results[i].album && made[i].streamUrl == results[i].streamUrl
        && made[i].isFavorite == results[i].isFavorite
    {
      made := [];
      for k := 0 to |results|
        invariant |made| == k
        invariant forall i :: 0 <= i < k ==> fresh(made[i])
        invariant forall i :: 0 <= i < k ==>
          && made[i].id == results[i].id && made[i].provider == Audius
          && made[i].title == results[i].title && made[i].artist == results[i].artist
          && made[i].album == results[i].album && made[i].streamUrl == results[i].streamUrl
          && made[i].isFavorite == results[i].isFavorite
      {
        var r := results[k];
        var song := new Song(r.id, Audius, r.title, r.artist, r.album, r.streamUrl, r.isFavorite);
        made := made + [song];
      }
    }

    /** `this.songs = list`, for a list built by the search: a new array becomes the list in view. */
    method ShowNewList(list: seq<Song>)
      requires Valid()
      modifies this
      ensures Valid()
      ensures fresh(songs) && songs.items == list
      ensures playlists == old(playlists) && currentIndex == old(currentIndex) && isPlaying == old(isPlaying)
      ensures currentSong == old(currentSong) && audioSrc == old(audioSrc)
    {
      songs := new SongList(list);
    }

    /**
     * `handleSearch(query)`: a blank query goes home; otherwise the library's
     * matches become the list in view when there are any, else the online
     * results `online` (what the search request yields for the query) do, and
     * a failed request changes nothing.
     */
    method HandleSearch(query: string, online: Result<seq<TrackJson>, string>)
      requires Valid()
      modifies this
      ensures Valid()
      ensures playlists == old(playlists) && currentIndex == old(currentIndex) && isPlaying == old(isPlaying)
      ensures var q := Trim(Lower(query));
        && (q == [] ==>
             && songs == localSongs
             && (if old(currentSong) == null && |localSongs.items| > 0
                 then currentSong == localSongs.items[0] && audioSrc == SourceAfterLoad(old(audioSrc), currentSong)
                 else currentSong == old(currentSong) && audioSrc == old(audioSrc)))
        && (q != [] ==> currentSong == old(currentSong) && audioSrc == old(audioSrc))
        && (q != [] && LocalMatches(localSongs.items, q) != [] ==>
             fresh(songs) && songs.items == LocalMatches(localSongs.items, q))
        && (q != [] && LocalMatches(localSongs.items, q) == [] && online.Success? ==>
             && fresh(songs) && |songs.items| == |online.value|
             && forall i :: 0 <= i < |songs.items| ==>
                  fresh(songs.items[i]) && songs.items[i].provider == Audius
                  && songs.items[i].id == online.value[i].id && songs.items[i].streamUrl == online.value[i].streamUrl
                  && songs.items[i].title == online.value[i].title && songs.items[i].artist == online.value[i].artist
                  && songs.items[i].album == online.value[i].album
                  && songs.items[i].isFavorite == online.value[i].isFavorite)
        && (q != [] && LocalMatches(localSongs.items, q) == [] && online.Failure? ==> songs == old(songs))
    {
      var q := Trim(Lower(query));
      if q == [] {
        ShowHome();
        return;
      }
      var localResults := LocalMatches(localSongs.items, q);
      if |localResults| > 0 {
        ShowNewList(localResults);
        return;
      }
      match online {
        case Failure(_) =>
        case Success(results) =>
          var made := MakeAudiusSongs(results);
          ShowNewList(made);
      }
    }

    /**
     * `addSongToPlaylist(songId, playlistId)`: push the song (looked up as by
     * `toggleFavorite`) onto the playlist's array unless a song with that id is
     * already there; an unknown song or playlist changes nothing.
     */
    method AddSongToPlaylist(songId: string, playlistId: int)
      requires Valid()
      modifies set p | p in playlists :: p.songs
      ensures Valid()
      ensures localSongs.items == old(localSongs.items)
      ensures var song := LookupSong(songs.items, localSongs.items, songId);
        var k := PlaylistIndex(playlists, playlistId);
        forall j :: 0 <= j < |playlists| ==>
          playlists[j].songs.items ==
            if j == k && song != null && IndexOfId(old(playlists[j].songs.items), songId) == -1
            then old(playlists[j].songs.items) + [song]
            else old(playlists[j].songs.items)
    {
      var song := LookupSong(songs.items, localSongs.items, songId);
      var k := PlaylistIndex(playlists, playlistId);
      if song != null && k >= 0 {
        var target := playlists[k].songs;
        if IndexOfId(target.items, songId) == -1 {
          target.items := target.items + [song];
          assert DistinctIds(target.items) by {
            forall i, j | 0 <= i < j < |target.items| ensures target.items[i].id != target.items[j].id {
              if j == |target.items| - 1 {
                assert old(target.items)[i] == target.items[i];
              } else {
                assert old(target.items)[i] == target.items[i] && old(target.items)[j] == target.items[j];
              }
            }
          }
        }
      }
    }

    /** `createPlaylist()`: append an empty playlist with the trimmed name, unless the name is blank. */
    method CreatePlaylist(name: string, now: int)
      requires Valid()
      modifies this
      ensures Valid()
      ensures Trim(name) == [] ==> playlists == old(playlists)
      ensures Trim(name) != [] ==>
        && |playlists| == |old(playlists)| + 1 && playlists[..|old(playlists)|] == old(playlists)
        && playlists[|old(playlists)|].id == now && playlists[|old(playlists)|].name == Trim(name)
        && fresh(playlists[|old(playlists)|].songs) && playlists[|old(playlists)|].songs.items == []
      ensures songs == old(songs) && currentSong == old(currentSong) && currentIndex == old(currentIndex)
      ensures isPlaying == old(isPlaying) && audioSrc == old(audioSrc)
    {
      var trimmed := Trim(name);
      if trimmed == [] {
        return;
      }
      var list := new SongList([]);
      var before := playlists;
      playlists := before + [Playlist(now, trimmed, list)];
      assert forall i :: 0 <= i < |before| ==> playlists[i] == before[i];
      assert forall p :: p in playlists ==> p in before || p.songs == list;
    }
  }

  /** Toggling the same id twice leaves every favourite flag as it was. */
  method ToggleFavoriteTwice(player: MusicPlayer, songId: string)
    modifies set s | s in player.songs.items + player.localSongs.items
    ensures forall s :: s in player.songs.items + player.localSongs.items ==> s.isFavorite == old(s.isFavorite)
  {
    player.ToggleFavorite(songId);
    player.ToggleFavorite(songId);
  }

  /** `prevSong()` right after `nextSong()` puts the cursor and the loaded song back. */
  method NextThenPrev(player: MusicPlayer)
    requires player.Valid() && 0 <= player.currentIndex < |player.songs.items|
    modifies player
    ensures player.Valid()
    ensures player.songs == old(player.songs) && player.currentIndex == old(player.currentIndex)
    ensures player.currentSong == player.songs.items[player.currentIndex] && player.isPlaying
  {
    player.NextSong();
    player.PrevSong();
    PrevUndoesNext(old(player.currentIndex), |player.songs.items|);
  }
}
