# Sync-in Music Player — a Dafny model of the player sessions and the stream server

This project models the logic of the Sync-in Music Player that does more than draw the page. That logic lives in three files.

- **`sync-in/app.js`: the Sync-in client's `MusicPlayer`.**
  - State: the list in view (`songs`), the cursor (`currentIndex`), the loaded song (`currentSong`), the play flag (`isPlaying`), the audio source (`audio.src`, here the field `audioSrc`), the local library and the user's playlists.
  - Operations: click-to-play, `loadSong` dispatching on the `local` / `audius` / `spotify` tag, play / pause / toggle, next / previous with wrap-around, the search, the three views, toggling a favourite in place, adding to a playlist and creating one.
  - Songs and song arrays are classes because the client shares them. The library, the list in view, the loaded song and the playlists can all hold the same object, so toggling a favourite through one is seen by all.
  - Module `SyncInPlayer`, with the song records and their pure queries in `SyncInLibrary`.
- **`app.js`: the leaner client's `MusicPlayer`.**
  - It has the same cursor and play state.
  - Its songs come from the server and are never changed in place, so a song is a value.
  - It has the unguarded click handler, the favourites and playlist views, and the search update.
  - Module `LeanPlayer`.
- **`sync-in-backend/server.js`: the server's selection logic.**
  - The `/search` filter, truncation and mapping (module `SearchResults`).
  - The five-minute `videoInfoCache` with lookup, insert and periodic sweep (module `InfoCache`, class `VideoInfoCache`).
  - The `Range` arithmetic of `/stream` (module `ByteRange`).
  - The ordered classification of error messages (module `StreamErrors`).
  - The `/stream` handler that ties these together (module `StreamRoute`).

Supporting modules:
- `JsText` models the JavaScript string and number operations the code relies on: `trim`, ASCII `toLowerCase`, `includes`, `split`, `replace` of the first match, `parseInt`, `String(n)`, NaN and the truncating `%`.
- `Cursor` holds the wrap-around arithmetic shared by both clients.
- `TimeFormat` holds `formatTime`, which is identical in both clients.
- `Seqs` holds a generic filter and a generic `findIndex`.
- `Wrappers` holds `Option` and `Result`.

The browser, the network and the video library do not appear as code. Their outcomes are parameters:
- the result of the search request (`online`);
- the outcome of `getInfo` (`fetched`);
- `validateID` (`isValidId`);
- `chooseFormat`;
- the clock (`now`, `fetchedAt`).

## Model

| member | source | states |
|---|---|---|
| JsText.Trim | sync-in/app.js:113 | `trim()` is empty exactly when the text is all white space, and otherwise neither starts nor ends with white space |
| JsText.TrimIsCore | sync-in/app.js:113 | `trim()` is a slice of the text with only white space before it and only white space after it |
| JsText.Lower | sync-in/app.js:120-122 | `toLowerCase()` keeps the length and lowers each ASCII capital |
| JsText.Includes | sync-in-backend/server.js:42-43 | the empty pattern is always included, and an included pattern is no longer than the text |
| JsText.IncludesIff | sync-in-backend/server.js:42-43 | `includes(t)` holds iff `t` occurs at some position of the text |
| JsText.Split | sync-in-backend/server.js:146 | `split(sep)` yields at least one part, and joining the parts with `sep` gives back the text |
| JsText.SplitJoin | sync-in-backend/server.js:146 | splitting a join of separator-free parts recovers those parts |
| JsText.FirstOccurrence | sync-in-backend/server.js:146 | the leftmost position where the pattern occurs, or -1 exactly when it occurs nowhere |
| JsText.ReplaceFirstLeftmost | sync-in-backend/server.js:146 | `replace(/bytes=/, "")` replaces the leftmost occurrence only, and leaves a text without one unchanged |
| JsText.ParseIntNaN | sync-in-backend/server.js:147-148 | `parseInt` is NaN exactly when no digit follows the leading white space and an optional sign, and is negative only after a minus sign |
| JsText.ParseIntOfIntToString | sync-in-backend/server.js:147-148 | `parseInt(String(n), 10)` is `n` for every integer the model's numbers hold (whole numbers of any size and NaN; see Left out) |
| JsText.IntToStringInjective | app.js:79 | distinct integers print as distinct decimal strings |
| JsText.JsRem | sync-in/app.js:251-252 | JavaScript `%` truncates toward zero: the result lies strictly between `-n` and `n`, is the mathematical remainder for a non-negative dividend, and minus the remainder of `-a` for a negative one |
| JsText.JsRemQuotient | sync-in/app.js:255 | the truncated remainder differs from the dividend by a whole multiple of the divisor |
| Cursor.NextIndex | sync-in/app.js:251 | `(i + 1) % n` lands in `[0, n)` from any cursor `>= -1`, and steps forward with wrap-around from an in-range one |
| Cursor.PrevIndex | sync-in/app.js:252 | `(i - 1 + n) % n` lands in `[0, n)` from any cursor `>= -1`, including a stale one, and steps back with wrap-around |
| Cursor.PrevUndoesNext | sync-in/app.js:251-252 | on an in-range cursor, previous undoes next and next undoes previous |
| Cursor.SingleSongCursor | app.js:231-232 | with one song both directions give index 0 |
| Cursor.NextFromUnselected | app.js:231 | from the cursor -1 that an unknown click leaves (app.js line 86), next gives 0 |
| TimeFormat.FormatTime | sync-in/app.js:255 | NaN shows "0:00"; for `s >= 0` the clock is the decimal minutes, `:`, then the two digits of `s % 60` |
| TimeFormat.FormatTimeRoundTrip | sync-in/app.js:255 | the `m:ss` string of any whole `s >= 0` reads back to `s` |
| TimeFormat.FormatTimeExamples | app.js:235 | 262 s shows "4:22", 5 s shows "0:05", NaN shows "0:00" |
| TimeFormat.FormatTimeNegative | app.js:235 | a negative count keeps the floored minutes and the signed remainder: -5 s shows "-1:0-5" |
| Seqs.FindIndex | sync-in/app.js:96 | `findIndex`: the first position whose element passes the test, or -1 exactly when none does |
| SyncInLibrary.IndexOfId | sync-in/app.js:96 | `findIndex` returns the first position with the id, or -1 exactly when none has it |
| SyncInLibrary.LookupSong | sync-in/app.js:235 | the lookup of `toggleFavorite` takes the first match in the list in view, else the first in the library, else none |
| SyncInLibrary.LocalMatches | sync-in/app.js:119-123 | the local results are exactly the library songs whose lower-cased title, artist or album contains the query |
| SyncInLibrary.LocalMatchesInOrder | sync-in/app.js:119-123 | the results keep the library's order |
| SyncInLibrary.UniqueById | sync-in/app.js:194-195 | the `Map` dedupe leaves no id twice, takes only given songs, and keeps exactly the ids that occur |
| SyncInLibrary.UniqueByIdOrder | sync-in/app.js:195 | ids come out in the order of their first occurrence (both directions) |
| SyncInLibrary.UniqueByIdLastWins | sync-in/app.js:195 | for a repeated id the `Map` holds the last song carrying it |
| SyncInLibrary.FavoritesOf | sync-in/app.js:196 | the filter keeps exactly the favourites, and ids stay distinct |
| SyncInLibrary.FavoritesView | sync-in/app.js:194-196 | the favourites view lists favourites from the library and the list in view, one per id |
| SyncInLibrary.FavoritesViewListsLastFavorites | sync-in/app.js:194-196 | an id is listed iff the last song carrying it in library-then-view order is a favourite |
| SyncInPlayer.SourceAfterLoad | sync-in/app.js:153-165 | the audio source becomes `src` for a local song and `streamUrl` for an audius song; a spotify song without a `streamUrl` leaves it unchanged |
| SyncInPlayer.PlaylistIndex | sync-in/app.js:199 | `find` by playlist id: the first match, or -1 exactly when none matches |
| SyncInPlayer.MusicPlayer.constructor | sync-in/app.js:2-24 | eight library songs with ids `local-1` to `local-8`, favourites 2 and 6, the library in view, the first song loaded, cursor 0, paused |
| SyncInPlayer.MusicPlayer.LoadSong | sync-in/app.js:148-165 | no song changes nothing; otherwise the song is loaded and the source set by its tag; cursor and play flag are kept |
| SyncInPlayer.MusicPlayer.PlaySong | sync-in/app.js:248 | plays iff a song is loaded; nothing else changes |
| SyncInPlayer.MusicPlayer.PauseSong | sync-in/app.js:249 | always paused afterwards, so it is idempotent; nothing else changes |
| SyncInPlayer.MusicPlayer.TogglePlayPause | sync-in/app.js:250 | flips the play flag when a song is loaded, else stays paused |
| SyncInPlayer.MusicPlayer.NextSong | sync-in/app.js:251 | an empty list changes nothing; otherwise the cursor steps forward with wrap-around to a valid index, and that song is loaded and playing |
| SyncInPlayer.MusicPlayer.PrevSong | sync-in/app.js:252 | the same, stepping back |
| SyncInPlayer.MusicPlayer.ClickSong | sync-in/app.js:96-101 | a known id selects, loads and plays its first song; an unknown id changes nothing |
| SyncInPlayer.MusicPlayer.ToggleFavorite | sync-in/app.js:234-237 | flips the flag of the looked-up song object only; an unknown id changes nothing |
| SyncInPlayer.MusicPlayer.ToggleCurrentFavorite | sync-in/app.js:63 | the heart button toggles the loaded song's id, and does nothing without a loaded song |
| SyncInPlayer.MusicPlayer.ShowHome | sync-in/app.js:188-191 | the library becomes the list in view, and its first song is loaded if none was |
| SyncInPlayer.MusicPlayer.SwitchView | sync-in/app.js:187-205 | home as above; favourites shows the favourites view and changes no state; a known playlist's own array becomes the list in view; an unknown playlist or other view changes nothing |
| SyncInPlayer.MusicPlayer.MakeAudiusSongs | sync-in/app.js:140 | one new audius-tagged song object per result, with the result's fields |
| SyncInPlayer.MusicPlayer.HandleSearch | sync-in/app.js:112-146 | a blank query goes home; local matches, if any, become the list in view in library order; otherwise a successful online search's results do, as new audius songs carrying each result's id, stream, title, artist, album and favourite flag; a failure changes nothing; the cursor is kept |
| SyncInPlayer.MusicPlayer.AddSongToPlaylist | sync-in/app.js:258 | appends the looked-up song to the playlist only when no song with that id is in it; every other playlist is unchanged; playlists never hold an id twice |
| SyncInPlayer.MusicPlayer.CreatePlaylist | sync-in/app.js:262 | a blank name changes nothing; otherwise one empty playlist with the trimmed name and id `now` is appended |
| SyncInPlayer.ToggleFavoriteTwice | sync-in/app.js:234-237 | toggling the same id twice restores every favourite flag |
| SyncInPlayer.NextThenPrev | sync-in/app.js:251-252 | next then previous restores the cursor, and the loaded song is the one at it |
| LeanPlayer.ClickIndexAsWritten | app.js:79-85 | the lookup as written finds the first song whose id is a number equal to `parseInt` of the row's `data-id` (read in base 10; see Left out), or -1 exactly when none is |
| LeanPlayer.StringIdsNeverClickable | app.js:79-85 | as written, no song with a string id is ever found |
| LeanPlayer.SearchResultNotClickable | app.js:79-88 | the row of a search result with id `dQw4w9WgXcQ` is not found |
| LeanPlayer.ClickIndex | app.js:85 | corrected lookup: the first song whose rendered id is the row's `data-id`, or -1 exactly when none |
| LeanPlayer.ClickFindsRenderedSong | app.js:85 | corrected: clicking a row selects the first song that rendered it |
| LeanPlayer.ClickIndexAgreesOnNumbers | app.js:79-85 | on numeric ids the correction gives the same result as the code as written |
| LeanPlayer.FavoriteTracks | app.js:154 | the filter keeps exactly the favourites |
| LeanPlayer.FavoriteTracksConcat | app.js:154 | the favourites keep their order |
| LeanPlayer.PlaylistIndex | app.js:157 | `find` by playlist id: the first match, or -1 exactly when none matches |
| LeanPlayer.MusicPlayer.constructor | app.js:2-10 | nothing loaded, nothing listed, cursor 0, paused |
| LeanPlayer.MusicPlayer.LoadSong | app.js:118-125 | no song changes nothing; otherwise the song is loaded and the source is its `streamUrl` |
| LeanPlayer.MusicPlayer.PlaySong | app.js:228 | plays iff a song is loaded |
| LeanPlayer.MusicPlayer.PauseSong | app.js:229 | always paused afterwards |
| LeanPlayer.MusicPlayer.TogglePlayPause | app.js:230 | flips the play flag when a song is loaded, else stays paused |
| LeanPlayer.MusicPlayer.NextSong | app.js:231 | an empty list changes nothing; otherwise the cursor steps forward with wrap-around (from -1 to 0), and that song is loaded and playing |
| LeanPlayer.MusicPlayer.PrevSong | app.js:232 | the same, stepping back |
| LeanPlayer.MusicPlayer.ClickSong | app.js:84-88 | unguarded: the cursor becomes the found index even when it is -1; then the loaded song is kept, but play still runs |
| LeanPlayer.MusicPlayer.HandleSearch | app.js:103-115 | a blank query changes nothing; a successful search replaces the list; a failed one keeps it |
| LeanPlayer.MusicPlayer.SwitchView | app.js:142-163 | favourites shows the filtered list and changes nothing; a known playlist replaces the list; anything else changes nothing |
| LeanPlayer.UnknownClickThenNext | app.js:85-88 | after a click on an unknown row, next plays the first song |
| SearchResults.IsMusicVideo | sync-in-backend/server.js:37-45 | a kept result has a title and lasts 60000 ms to 900000 ms |
| SearchResults.IsMusicVideoIff | sync-in-backend/server.js:37-45 | a result is kept iff it lasts 60 s to 900 s, its lower-cased title has neither "#shorts" nor "livestream", and its channel is not marked unverified |
| SearchResults.OrElse | sync-in-backend/server.js:49-52 | `x \|\| fallback`: a present non-empty string is kept, and the fallback replaces a missing or empty one |
| SearchResults.ToTrack | sync-in-backend/server.js:47-54 | a track keeps the result's id, takes its title or "Unknown Title", its channel's name or "Unknown Artist", its thumbnail url or "covers/default.jpg" (each default for a missing or empty value), so artist and cover are never empty, has album "YouTube", and lasts the whole seconds of the duration |
| SearchResults.FlooredSeconds | sync-in-backend/server.js:53 | `Math.floor(ms / 1000)` is the integer quotient of the milliseconds by 1000 |
| SearchResults.MusicVideos | sync-in-backend/server.js:37-45 | the filter keeps exactly the results that look like music videos |
| SearchResults.FormattedTracks | sync-in-backend/server.js:47-54 | at most 15 tracks, the first kept results in order, each mapped by `ToTrack` with its defaults, album "YouTube", 60 to 900 seconds |
| SearchResults.TrackDuration | sync-in-backend/server.js:53 | `Math.floor(duration / 1000)` is the whole seconds of the duration |
| SearchResults.LaterResultsIgnored | sync-in-backend/server.js:47 | results after the fifteenth kept one never change the reply |
| SearchResults.HandleSearch | sync-in-backend/server.js:22-64 | a missing query gives 400; a failed search, or a result without a title (whose `toLowerCase` throws), gives 500; otherwise the formatted tracks |
| SearchResults.UntitledResultFailsSearch | sync-in-backend/server.js:39 | one result without a title turns the whole reply into the 500, whatever the other results are |
| SearchResults.RepliedTitles | sync-in-backend/server.js:49 | every track of a successful reply has its kept result's own title, or "Unknown Title" for an empty one |
| SearchResults.MissingQueryDoesNotSearch | sync-in-backend/server.js:24-26 | without a query the reply does not depend on the search |
| InfoCache.CachedInfo | sync-in-backend/server.js:80-85 | a lookup hits iff an entry exists and is strictly younger than 300000 ms, and then yields its info |
| InfoCache.Swept | sync-in-backend/server.js:250-256 | the sweep keeps exactly the entries at most `CACHE_DURATION` old, unchanged |
| InfoCache.SweepKeepsHits | sync-in-backend/server.js:253 | a sweep never removes an entry that a lookup at the same time (line 83) would use |
| InfoCache.BoundaryAge | sync-in-backend/server.js:253 | an entry exactly `CACHE_DURATION` old survives the sweep but is no longer a hit for the lookup at line 83 |
| InfoCache.StoredInfoLifetime | sync-in-backend/server.js:113-116 | info stored at `t` is served exactly for lookups before `t + CACHE_DURATION` |
| InfoCache.VideoInfoCache.constructor | sync-in-backend/server.js:18 | the cache starts as an empty `Map` |
| InfoCache.VideoInfoCache.Lookup | sync-in-backend/server.js:80-85 | the lookup method returns what `CachedInfo` says |
| InfoCache.VideoInfoCache.Store | sync-in-backend/server.js:113-116 | the miss stores `{info, timestamp}` under the id and changes no other entry |
| InfoCache.VideoInfoCache.Sweep | sync-in-backend/server.js:252-256 | the loop of deletions leaves exactly `Swept` of the old map |
| ByteRange.PartialHeadersFor | sync-in-backend/server.js:144-154 | as written, the announced length is a number exactly when start and end both are, and is then `end - start + 1` |
| ByteRange.ExplicitEndIgnoresSize | sync-in-backend/server.js:144-154 | as written, a range with an explicit end announces the same start, end and length for every size of the audio: nothing checks it against the size |
| ByteRange.ClosedRange | sync-in-backend/server.js:144-154 | as written, `bytes=a-b` gives start `a`, end `b`, length `b - a + 1` and `bytes a-b/size` |
| ByteRange.OpenRange | sync-in-backend/server.js:148-149 | as written, `bytes=a-` runs to `size - 1`, giving `size - a` bytes |
| ByteRange.RangePastEndAsWritten | sync-in-backend/server.js:148-153 | as written, `bytes=0-1999` on 1000 bytes announces 2000 bytes |
| ByteRange.Resolve | sync-in-backend/server.js:144-154 | corrected, on parsed positions: a satisfiable reply lies inside the stream with length `last - first + 1` and `bytes first-last/size`; otherwise `bytes */size` |
| ByteRange.ResolveRange | sync-in-backend/server.js:144-154 | corrected: a satisfiable range has `first <= last < size`, length `last - first + 1` and a matching `Content-Range`; otherwise `bytes */size` |
| ByteRange.ResolveRangeAgrees | sync-in-backend/server.js:144-154 | for a range inside the stream the correction equals the code as written |
| ByteRange.ResolveClosedRange | sync-in-backend/server.js:146-149 | corrected `bytes=a-b`: clamped to the last byte, or unsatisfiable when `a > b` or `a >= size` |
| ByteRange.ResolveSuffixRange | sync-in-backend/server.js:146-148 | corrected `bytes=-n`: the last `n` bytes, or all of them |
| ByteRange.RangePastEndCorrected | sync-in-backend/server.js:148-153 | corrected, `bytes=0-1999` on 1000 bytes serves bytes 0-999 |
| StreamErrors.StreamErrorMessage | sync-in-backend/server.js:198-207 | the default message is used exactly when none of the four markers occurs, and "Video unavailable" always wins |
| StreamErrors.FirstMatchPicksEarliest | sync-in-backend/server.js:198-207 | the earliest rule whose marker occurs in the message decides |
| StreamErrors.FirstMatchDefault | sync-in-backend/server.js:198 | with no marker present the default message is used |
| StreamErrors.StreamErrorMessageIsFirstMatch | sync-in-backend/server.js:198-207 | the if-else chain is the first-match classifier over the ordered rules |
| StreamErrors.ForbiddenBeatsRateLimit | sync-in-backend/server.js:199-206 | a message containing both 403 and 429, with neither "Video unavailable" nor "410", gets the 403 text |
| StreamErrors.UnavailableBeatsHttpCodes | sync-in-backend/server.js:199-206 | a message containing "Video unavailable" gets the unavailable text even when 403 and 429 also occur |
| StreamErrors.ForbiddenBeatsRateLimitExample | sync-in-backend/server.js:203-206 | the message "HTTP 403 / 429" gets the 403 text |
| StreamRoute.ContentType | sync-in-backend/server.js:138 | `mimeType \|\| 'audio/webm'`: never empty, and the format's own type when it has one |
| StreamRoute.AudioReply | sync-in-backend/server.js:138-154 | 200 without a range or a known length; otherwise 206 with a length between 1 and the size, or 416 |
| StreamRoute.InBoundsRangeReply | sync-in-backend/server.js:144-154 | an in-bounds range gets exactly the status and headers the handler writes |
| StreamRoute.InfoReply | sync-in-backend/server.js:122-133 | no audio-only format gives 404 |
| StreamRoute.Stream | sync-in-backend/server.js:68-216 | an invalid id gives 400 and leaves the cache alone; a hit uses the cached info and leaves the cache alone; a failed fetch gives the classified 500; a successful one stores the info under the id |

## Left out

- DOM rendering and templating, the context menu, the modal, the theme toggle, `alert`, the volume and seek controls: these only draw or forward to the browser. `SwitchView` returns the list the page would draw.
- `fetch` and JSON decoding: the search request's outcome is the parameter `online`. The Sync-in search goes to `/search-audius`, which is not part of `server.js` and not part of this model.
- LeanPlayer.MusicPlayer.HandleSearch: in `handleSearch` (app.js:108-110) an HTTP error reply is not a thrown error, so the error object it returns becomes `songs`. The model has only success or failure, and failure keeps the list.
- The asynchronous interleaving of requests (a search answered after the user moved on): each operation runs to completion.
- `updateProgressBar` / `updateDuration` and `formatTime` on a fractional `currentTime`: these are floating point. Only whole seconds and NaN are modelled.
- Display-only fields (`art`, `durationSeconds`) of the client songs, and the `videoId` and `suggestion` fields of the server's error replies.
- `audio.src = undefined` (an audius song without a `streamUrl`) is modelled as the source `None`.
- `Lower`: models `toLowerCase` on ASCII letters only.
- The leaner client's featured playlists on the home view and `fetchAndDisplayPlaylistSongs` (app.js:182-193): these are network pages, not part of this model.
- The leaner client's stubbed methods (app.js:225-227, app.js:236-242) have no bodies, so there is nothing to model.
- `ytdl.validateID`, `getInfo` and `chooseFormat` are foreign code. They enter `StreamRoute.Stream` as a predicate, a fetch outcome and a function. `chooseFormat` throwing (which would land in the 500 branch) is not modelled.
- `contentLength` is modelled as a number; the library reports it as a numeric string.
- JavaScript numbers are modelled as unbounded whole numbers or NaN. `String(n)` switches to exponent form from 1e21 and `parseInt` loses precision beyond 2^53, so `JsText.ParseIntOfIntToString` and `JsText.IntToStringInjective` hold in the model but only for safe integers in JavaScript. Fractions and infinities are not modelled.
- LeanPlayer.ClickIndexAsWritten: app.js:79 calls `parseInt` without a radix, which reads a `0x` prefix as hexadecimal; the model always reads base 10. The rendered ids are decimal or video ids, so this only matters for a video id starting with `0x`.
- `video.duration` missing (NaN in JavaScript, which fails the duration test) is not modelled: durations are whole milliseconds.
- The constant headers `Accept-Ranges`, `Cache-Control` and CORS, the piping of the audio stream, the stream's `error` handler and `req.on('close')`: these are I/O.
- The body sent after a 206 is the whole stream from byte 0, whatever the range says. The model covers the status and headers only.
- `setInterval` and `Date.now()`: the clock is a parameter and one sweep is modelled. The `/health` and `/test` routes are left out.
- StreamRoute.AudioReply: answers range requests with the corrected `ByteRange.ResolveRange`, not the as-written arithmetic. `StreamRoute.InBoundsRangeReply` shows the two agree for every range inside the stream.
- LeanPlayer.MusicPlayer.ClickSong: looks the row up with the corrected `LeanPlayer.ClickIndex`. With the lookup as written, the cursor would be -1 for every string id; `LeanPlayer.ClickIndexAgreesOnNumbers` shows the two agree on numeric ids.
- In the Sync-in client, the favourites view does not replace `songs` (sync-in/app.js:192-197). Next and previous therefore keep stepping through the list shown before.

## Findings

| source | as written | input that shows it | evidently intended | confidence | as-written member | corrected member |
|---|---|---|---|---|---|---|
| sync-in-backend/server.js:144-154 | the end of the range is taken from the header without being clamped to `contentLength - 1`, and no unsatisfiable range is rejected | `Range: bytes=0-1999` on a 1000-byte format gives `Content-Length: 2000` and `Content-Range: bytes 0-1999/1000` | clamp the last position to `contentLength - 1` and answer 416 with `bytes */size` when nothing is selected (sections 14.1.2 and 14.4 of RFC 9110) | not executed | ByteRange.RangePastEndAsWritten | ByteRange.RangePastEndCorrected |
| app.js:79-85 | the click handler compares `parseInt(dataset.id)` with `===` to the song's id, but the server's search results have string ids (YouTube video ids) | a search result with id `dQw4w9WgXcQ`: `parseInt` gives NaN, no song matches, the cursor becomes -1 and the click does not load the song | compare the row's `data-id` with the song's rendered id | not executed | LeanPlayer.SearchResultNotClickable | LeanPlayer.ClickFindsRenderedSong |
