/**
 * The song records of the Sync-in client (`sync-in/app.js`) and the pure
 * queries its `MusicPlayer` runs over them: lookup by id, the search filter
 * over the local library, and the favourites view, which deduplicates by id
 * through a JavaScript `Map` before filtering.
 */
module SyncInLibrary {
  import opened Wrappers
  import opened JsText
  import opened Seqs

  /** The `type` tag of a song, with the local file path a `local` song carries. */
  datatype Provider = Local(src: string) | Audius | Spotify

  /**
   * A song object. Its `isFavorite` flag is flipped in place, and the same
   * object can sit in several lists at once (the local library, the list in
   * view, playlists, the loaded song), so it is a class.
   */
  class Song {
    const id: string
    const provider: Provider
    const title: string
    const artist: string
    const album: string
    const streamUrl: Option<string>
    var isFavorite: bool

    constructor (id: string, provider: Provider, title: string, artist: string, album: string,
                 streamUrl: Option<string>, isFavorite: bool)
      ensures this.id == id && this.provider == provider && this.title == title
      ensures this.artist == artist && this.album == album && this.streamUrl == streamUrl
      ensures this.isFavorite == isFavorite
    {
      this.id := id;
      this.provider := provider;
      this.title := title;
      this.artist := artist;
      this.album := album;
      this.streamUrl := streamUrl;
      this.isFavorite := isFavorite;
    }
  }

  /** A JavaScript array of songs: playlists `push` onto theirs, and `songs` may alias it. */
  class SongList {
    var items: seq<Song>

    constructor (items: seq<Song>)
      ensures this.items == items
    {
      this.items := items;
    }
  }

  /** `findIndex(s => s.id === id)`: the first position holding `id`, or -1. */
  function IndexOfId(xs: seq<Song>, id: string): (r: int)
    ensures -1 <= r < |xs|
    ensures r >= 0 ==> xs[r].id == id && forall j :: 0 <= j < r ==> xs[j].id != id
    ensures r == -1 <==> forall j :: 0 <= j < |xs| ==> xs[j].id != id
  {
    FindIndex(HasId(id), xs)
  }

  /** The test `s => s.id === id`. */
  function HasId(id: string): Song -> bool
  {
    (s: Song) => s.id == id
  }

  /** The last position holding `id`, or -1: the entry a `Map` keeps when keys repeat. */
  function LastIndexOfId(xs: seq<Song>, id: string): (r: int)
    ensures -1 <= r < |xs|
    ensures r >= 0 ==> xs[r].id == id && forall j :: r < j < |xs| ==> xs[j].id != id
    ensures r == -1 <==> forall j :: 0 <= j < |xs| ==> xs[j].id != id
  {
    if |xs| == 0 then -1
    else if xs[|xs| - 1].id == id then |xs| - 1
    else LastIndexOfId(xs[..|xs| - 1], id)
  }

  /** `songs.find(s => s.id === id) || localSongs.find(s => s.id === id)`. */
  function LookupSong(songs: seq<Song>, local: seq<Song>, id: string): (r: Song?)
    ensures r == null <==> IndexOfId(songs, id) == -1 && IndexOfId(local, id) == -1
    ensures r != null && IndexOfId(songs, id) >= 0 ==> r == songs[IndexOfId(songs, id)]
    ensures r != null && IndexOfId(songs, id) == -1 ==> r == local[IndexOfId(local, id)]
  {
    var i := IndexOfId(songs, id);
    if i >= 0 then songs[i]
    else
      var j := IndexOfId(local, id);
      if j >= 0 then local[j] else null
  }

  /** No two songs in `xs` share an id. */
  predicate DistinctIds(xs: seq<Song>)
  {
    forall i, j :: 0 <= i < j < |xs| ==> xs[i].id != xs[j].id
  }

  /** The search test of `handleSearch`: the lower-cased title, artist or album contains `q`. */
  predicate SearchMatches(s: Song, q: string)
  {
    Includes(Lower(s.title), q) || Includes(Lower(s.artist), q) || Includes(Lower(s.album), q)
  }

  /** `localSongs.filter(...)` with the search test. */
  function LocalMatches(local: seq<Song>, q: string): (r: seq<Song>)
    ensures forall i :: 0 <= i < |r| ==> r[i] in local && SearchMatches(r[i], q)
    ensures forall i :: 0 <= i < |local| && SearchMatches(local[i], q) ==> local[i] in r
  {
    Filter(s => SearchMatches(s, q), local)
  }

  /** The matches keep the library's order: filtering two halves and joining is filtering the whole. */
  lemma LocalMatchesInOrder(xs: seq<Song>, ys: seq<Song>, q: string)
    ensures LocalMatches(xs + ys, q) == LocalMatches(xs, q) + LocalMatches(ys, q)
  {
    FilterConcat(s => SearchMatches(s, q), xs, ys);
  }

  /** `map.set(x.id, x)` on the entries of a `Map` kept as a sequence in insertion order. */
  function Upsert(acc: seq<Song>, x: Song): (r: seq<Song>)
  {
    var i := IndexOfId(acc, x.id);
    if i == -1 then acc + [x] else acc[i := x]
  }

  /** The same ids at the same positions give the same `findIndex`. */
  lemma {:induction false} IndexOfSameIds(a: seq<Song>, b: seq<Song>, id: string)
    requires |a| == |b| && forall j :: 0 <= j < |a| ==> a[j].id == b[j].id
    ensures IndexOfId(a, id) == IndexOfId(b, id)
    decreases |a|
  {
    if |a| > 0 && a[0].id != id {
      IndexOfSameIds(a[1..], b[1..], id);
    }
  }

  /** `findIndex` on a sequence with one more song at the end. */
  lemma IndexOfAppend(xs: seq<Song>, x: Song, id: string)
    ensures IndexOfId(xs + [x], id)
         == if IndexOfId(xs, id) >= 0 then IndexOfId(xs, id) else if x.id == id then |xs| else -1
  {
    var ys := xs + [x];
    assert forall j :: 0 <= j < |xs| ==> ys[j] == xs[j];
    var k := IndexOfId(ys, id);
    var i := IndexOfId(xs, id);
    if i >= 0 {
      assert ys[i].id == id;
      assert k != -1 && k <= i;
    } else if x.id == id {
      assert ys[|xs|].id == id;
      assert k != -1;
    } else {
      forall j | 0 <= j < |ys| ensures ys[j].id != id {
        if j < |xs| {
          assert ys[j] == xs[j];
        }
      }
    }
  }

  /** A sequence is its front followed by its last element. */
  lemma LastAppended(xs: seq<Song>)
    requires |xs| > 0
    ensures xs == xs[..|xs| - 1] + [xs[|xs| - 1]]
  {
  }

  /** Setting an entry keeps the ids distinct and adds exactly the new id. */
  lemma UpsertKeepsIds(acc: seq<Song>, x: Song)
    requires DistinctIds(acc)
    ensures DistinctIds(Upsert(acc, x))
    ensures forall i :: 0 <= i < |Upsert(acc, x)| ==> Upsert(acc, x)[i] in acc || Upsert(acc, x)[i] == x
    ensures forall id :: IndexOfId(Upsert(acc, x), id) == -1 <==> IndexOfId(acc, id) == -1 && x.id != id
  {
    var r := Upsert(acc, x);
    var i := IndexOfId(acc, x.id);
    if i != -1 {
      forall id ensures IndexOfId(r, id) == IndexOfId(acc, id) {
        IndexOfSameIds(r, acc, id);
      }
    } else {
      forall id ensures IndexOfId(r, id) == -1 <==> IndexOfId(acc, id) == -1 && x.id != id {
        IndexOfAppend(acc, x, id);
      }
    }
  }

  /**
   * `[...new Map(xs.map(s => [s.id, s])).values()]`: one song per id, ids in
   * the order they first occur, each with the last song that carried it.
   */
  function UniqueById(xs: seq<Song>): (r: seq<Song>)
    ensures DistinctIds(r)
    ensures forall i :: 0 <= i < |r| ==> r[i] in xs
    ensures forall id :: IndexOfId(r, id) == -1 <==> IndexOfId(xs, id) == -1
    decreases |xs|
  {
    if |xs| == 0 then []
    else
      var acc := UniqueById(xs[..|xs| - 1]);
      var x := xs[|xs| - 1];
      UpsertKeepsIds(acc, x);
      LastAppended(xs);
      Upsert(acc, x)
  }

  /** Where `findIndex` finds an id after an entry is set. */
  lemma UpsertIndex(acc: seq<Song>, x: Song, id: string)
    ensures IndexOfId(Upsert(acc, x), id)
         == if IndexOfId(acc, id) >= 0 then IndexOfId(acc, id) else if x.id == id then |acc| else -1
  {
    if IndexOfId(acc, x.id) != -1 {
      IndexOfSameIds(Upsert(acc, x), acc, id);
    } else {
      IndexOfAppend(acc, x, id);
    }
  }

  /** One step of the fold that builds the `Map`. */
  lemma UniqueByIdStep(xs: seq<Song>)
    requires |xs| > 0
    ensures UniqueById(xs) == Upsert(UniqueById(xs[..|xs| - 1]), xs[|xs| - 1])
  {
  }

  /** The `Map` keeps the ids in the order of their first occurrence. */
  lemma {:induction false} UniqueByIdOrder(xs: seq<Song>, a: string, b: string)
    requires IndexOfId(xs, a) >= 0 && IndexOfId(xs, b) >= 0
    ensures IndexOfId(UniqueById(xs), a) < IndexOfId(UniqueById(xs), b) <==> IndexOfId(xs, a) < IndexOfId(xs, b)
    decreases |xs|
  {
    var ys, x := xs[..|xs| - 1], xs[|xs| - 1];
    UniqueByIdStep(xs);
    LastAppended(xs);
    var acc := UniqueById(ys);
    IndexOfAppend(ys, x, a);
    IndexOfAppend(ys, x, b);
    UpsertIndex(acc, x, a);
    UpsertIndex(acc, x, b);
    if IndexOfId(ys, a) >= 0 && IndexOfId(ys, b) >= 0 {
      UniqueByIdOrder(ys, a, b);
    }
  }

  /** For a repeated id the `Map` holds the last song that carried it. */
  lemma {:induction false} UniqueByIdLastWins(xs: seq<Song>, id: string)
    requires IndexOfId(xs, id) >= 0
    ensures IndexOfId(UniqueById(xs), id) >= 0
    ensures UniqueById(xs)[IndexOfId(UniqueById(xs), id)] == xs[LastIndexOfId(xs, id)]
    decreases |xs|
  {
    var ys, x := xs[..|xs| - 1], xs[|xs| - 1];
    UniqueByIdStep(xs);
    LastAppended(xs);
    if x.id == id {
      LastWinsAtEnd(ys, x, id);
    } else {
      IndexOfAppend(ys, x, id);
      UniqueByIdLastWins(ys, id);
      LastWinsBefore(ys, x, id);
    }
  }

  /** The last song carries the id: setting it makes it the entry for that id. */
  lemma LastWinsAtEnd(ys: seq<Song>, x: Song, id: string)
    requires x.id == id
    ensures IndexOfId(Upsert(UniqueById(ys), x), id) >= 0
    ensures Upsert(UniqueById(ys), x)[IndexOfId(Upsert(UniqueById(ys), x), id)] == x
  {
    var acc := UniqueById(ys);
    UpsertIndex(acc, x, id);
  }

  /** The last song carries another id: the entry for `id` stays the one of the front. */
  lemma LastWinsBefore(ys: seq<Song>, x: Song, id: string)
    requires x.id != id && IndexOfId(ys, id) >= 0
    requires IndexOfId(UniqueById(ys), id) >= 0
    requires UniqueById(ys)[IndexOfId(UniqueById(ys), id)] == ys[LastIndexOfId(ys, id)]
    ensures IndexOfId(Upsert(UniqueById(ys), x), id) >= 0
    ensures Upsert(UniqueById(ys), x)[IndexOfId(Upsert(UniqueById(ys), x), id)] == ys[LastIndexOfId(ys, id)]
    ensures LastIndexOfId(ys + [x], id) == LastIndexOfId(ys, id)
  {
    var acc := UniqueById(ys);
    var r := Upsert(acc, x);
    UpsertIndex(acc, x, id);
    var k := IndexOfId(r, id);
    assert (ys + [x])[..|ys|] == ys;
    if IndexOfId(acc, x.id) != -1 {
      assert r[k] == acc[k];
    } else {
      assert r[k] == acc[k];
    }
  }

  /** `filter(song => song.isFavorite)`: the favourites of `xs`, in order. */
  function FavoritesOf(xs: seq<Song>): (r: seq<Song>)
    reads set s | s in xs
    ensures forall i :: 0 <= i < |r| ==> r[i] in xs && r[i].isFavorite
    ensures forall i :: 0 <= i < |xs| && xs[i].isFavorite ==> xs[i] in r
    ensures DistinctIds(xs) ==> DistinctIds(r)
  {
    if xs == [] then []
    else
      var rest := FavoritesOf(xs[1..]);
      assert forall i :: 0 <= i < |rest| ==> rest[i] in xs[1..];
      if xs[0].isFavorite then [xs[0]] + rest else rest
  }

  /**
   * The favourites view: the songs of the local library followed by the list
   * in view, one per id (the last one), keeping the favourites.
   */
  function FavoritesView(local: seq<Song>, inView: seq<Song>): (r: seq<Song>)
    reads set s | s in local + inView
    ensures DistinctIds(r)
    ensures forall i :: 0 <= i < |r| ==> r[i].isFavorite && r[i] in local + inView
  {
    FavoritesOf(UniqueById(local + inView))
  }

  /**
   * A song is listed exactly when its id occurs and the last song carrying
   * that id is a favourite.
   */
  lemma FavoritesViewListsLastFavorites(local: seq<Song>, inView: seq<Song>, id: string)
    requires IndexOfId(local + inView, id) >= 0
    ensures var all := local + inView;
      IndexOfId(FavoritesView(local, inView), id) >= 0 <==> all[LastIndexOfId(all, id)].isFavorite
  {
    var all := local + inView;
    var u := UniqueById(all);
    UniqueByIdLastWins(all, id);
    var k := IndexOfId(u, id);
    if all[LastIndexOfId(all, id)].isFavorite {
      FavoriteListed(u, k);
    } else {
      UnfavoredUnlisted(u, k);
    }
  }

  /** A favourite entry of the list shows in its favourites. */
  lemma FavoriteListed(u: seq<Song>, k: int)
    requires 0 <= k < |u| && u[k].isFavorite
    ensures IndexOfId(FavoritesOf(u), u[k].id) >= 0
  {
    var r := FavoritesOf(u);
    assert u[k] in r;
    var m :| 0 <= m < |r| && r[m] == u[k];
    assert r[m].id == u[k].id;
  }

  /** When the only entry with an id is not a favourite, no favourite has that id. */
  lemma UnfavoredUnlisted(u: seq<Song>, k: int)
    requires DistinctIds(u) && 0 <= k < |u| && !u[k].isFavorite
    ensures IndexOfId(FavoritesOf(u), u[k].id) == -1
  {
    var r := FavoritesOf(u);
    forall m | 0 <= m < |r| ensures r[m].id != u[k].id {
      var n :| 0 <= n < |u| && u[n] == r[m];
      assert u[n].isFavorite;
    }
  }
}
