# A verified model of the music player's core

The system is a music player built from four parts:

- **A Flask backend** (`app.py`). It scans a local songs folder and asks the Internet Archive for playable audio items. It serves three JSON endpoints: `/api/songs`, `/api/search` and `/api/random`.
- **A legacy page player** (`static/js/player.js`). This is a `MusicPlayer` class that drives an `<audio>` element.
- **A Next.js front end.** It has four pieces:
  - the `useMusicPlayer` hook, which owns the playlist state;
  - the home page, which does searching, clearing and pagination;
  - the `SongList` component, which shows the page slice, the pagination buttons and the duration text;
  - an Internet Archive client of its own.
- **An offline service worker.** It works cache-first and bypasses API and song requests.

This Dafny project models the logic of each of these parts and proves what each one promises.

Each part is modelled in the form its source takes:

- **Pure computations are functions with contracts.** This covers file selection, song building, filtering, pagination, URL encoding and the clock text.
- **Loops in the source are methods with invariants,** proved against those functions. This covers the scan `for` loop, the tiered search loops, the document loops, the popular-song batches, the search box filter, the pagination button loop and the cache lookup.
- **Objects that update their own fields are classes.** These are the legacy player's `MusicPlayer` and the browser's cache storage.
- **React state is a value.** Each hook or page transition is a function from the old record to the new one.

Things the model takes as inputs rather than computing:

- every network reply;
- the directory listing;
- what the audio and tag reader yields for each file;
- `random` and `Math.random()`, as a `pick` number;
- the host's date parsing;
- whether `audio.play()` resolves.

Modules, one per file:

| module | source |
|---|---|
| `Text` | string, decimal, clock and integer helpers: ASCII case mapping, `trim`/`strip`, `str(n)`, "m:ss", Python `int()`, Python slicing, floor and JavaScript remainder |
| `Seqs` | order-keeping filter, matching positions, first match, per-element concatenation, some-element test |
| `PercentEncoding` | UTF-8 and percent-encoding, with Python's `urllib.parse.quote` and `encodeURIComponent` as two profiles, and the decoder |
| `Songs` | the song record and the title/artist query filter |
| `Scanner` | `allowed_file`, `get_static_songs` |
| `ArchiveFiles` | `get_song_url_from_archive` |
| `ArchiveSearch` | `search_internet_archive`, `get_popular_songs` |
| `Endpoints` | `api_songs`, `api_search`, `api_random` |
| `LegacyPlayer` | `static/js/player.js` |
| `Playlist` | `hooks/useMusicPlayer.ts` |
| `SongList` | `components/SongList.tsx` |
| `HomePage` | `app/page.tsx` |
| `ArchiveClient` | `lib/internetArchiveApi.ts` |
| `ServiceWorker` | `frontend/public/service-worker.js` |

## Model

| member | source | states |
|---|---|---|
| Scanner.LastIndexOf | app.py:24-25 | The result is the last index holding the character, and every later index holds another character; None exactly when no index holds it. |
| Scanner.AllowedFileIffSuffix | app.py:16-25 | `allowed_file` holds exactly when the lower-cased name ends with "." followed by one of mp3, wav, ogg. Both directions are proved. |
| Scanner.SplitExtRoot | app.py:63 | The root is never longer than the name. |
| Scanner.Records | app.py:36-37 | There is one record per allowed position of the listing. |
| Scanner.GetStaticSongs | app.py:27-79 | The scanning loop returns exactly the specification: no songs for a missing folder, otherwise the records of the allowed entries. |
| Scanner.RecordsStep | app.py:36-37 | One more listing entry appends its record exactly when it is allowed. |
| Scanner.RecordAtPrefix | app.py:36-38 | A record depends only on its own entry. |
| Scanner.StaticSongsSelected | app.py:36-74 | The k-th record belongs to the k-th allowed name. Its id is "static-" and that name's 1-based position in the whole listing. Its URL is "/songs/" and the quoted name. |
| Scanner.StaticSongsCoverListing | app.py:36-74 | A name is an allowed listing entry exactly when some record's URL is "/songs/" plus its quoted form. |
| Scanner.AllowedEntryHasRecord | app.py:36-37 | Every allowed listing entry has a record with its URL. |
| Scanner.RecordIsAllowedEntry | app.py:67-74 | Every record URL names an allowed listing entry, because quoting is injective. |
| Scanner.StaticIdsDistinct | app.py:36-70 | Two different records never share an id. |
| Scanner.SplitExtRootNonEmpty | app.py:63 | A non-empty name has a non-empty root. |
| Scanner.StaticRecordNamed | app.py:51-73 | Title and artist are never empty. The artist is "Unknown Artist" when the TPE1 tag is missing or empty. The duration is missing exactly when the audio header could not be read. |
| Scanner.LowerSlice | app.py:25 | Lower-casing commutes with slicing. |
| Scanner.ExtensionShape | app.py:16 | Every allowed extension is three characters without a dot. |
| Scanner.AllowedFileHasSuffix | app.py:24-25 | An allowed name ends with "." and an allowed extension, after lower-casing. |
| Scanner.SuffixIsAllowed | app.py:24-25 | A name whose lower-cased form ends with "." and an allowed extension is allowed. |
| ArchiveFiles.FormatRules | app.py:93-107 | There is one format test per listed format. |
| ArchiveFiles.ExtensionRules | app.py:110-118 | There is one extension test per listed extension. |
| ArchiveFiles.ApplyWellFormed | app.py:100-131 | No test raises on a file whose fields are strings or absent. |
| ArchiveFiles.FirstHitFrom | app.py:102-105 | The hit is the first accepted file, and every earlier file is rejected. NoHit exactly when every file is rejected. Raises only when some file makes the test raise. |
| ArchiveFiles.SearchFrom | app.py:101-131 | A found file is accepted by its test. Every file is rejected by every earlier test, and the file is the first one its own test accepts. Miss exactly when every test rejects every file. Raised only when some test raises on some file. |
| ArchiveFiles.FindByRule | app.py:102-105 | The inner loop returns what FirstHitFrom specifies. |
| ArchiveFiles.SelectAudioFile | app.py:100-131 | The three tiers of loops return exactly the tiered search Select. |
| ArchiveFiles.SelectWellFormed | app.py:100-131 | On well-formed files the selection never raises. |
| ArchiveFiles.FormatTierFirst | app.py:100-118 | A file with a listed format makes the chosen file a format-tier match of that rank or earlier, whatever the names are. At that rank, the chosen file is at that file's position or before it. |
| ArchiveFiles.RuleOfFormat | app.py:93-107 | The test of rank k, for a format rank k, is that format's test. |
| ArchiveFiles.SearchStopsAtFirstYes | app.py:101-131 | A file accepted at rank k bounds where the search stops, unless the search raises. |
| ArchiveFiles.ArchiveUrlNone | app.py:83-149 | None comes exactly from these cases: a failed request, a non-200 status, a malformed body, an exception during selection, or a chosen file with no string name. |
| ArchiveFiles.ArchiveUrlFallback | app.py:137-143 | When no test matches, the answer is the guess `/download/{id}/{id}.mp3`. |
| ArchiveFiles.ArchiveUrlNamesFile | app.py:133-136 | A found file gives the download prefix and the quoted name, and that segment percent-decodes to the name. |
| ArchiveFiles.ArchiveUrlWellFormed | app.py:83-143 | Every 200 reply whose files are well formed and all named gives a URL. |
| ArchiveSearch.HarvestDocs | app.py:186-234 | The document loop, with skip, resolve, build, append and stop, returns exactly Harvest. The URL lookup is a parameter. SearchResult and PopularResult pass `ArchiveFiles.ArchiveUrl` on each item's metadata reply, so the loop's lemmas hold for that lookup and any other. |
| ArchiveSearch.SearchInternetArchive | app.py:151-241 | The method returns exactly SearchResult: the harvested songs and `numFound`, or no songs and 0 on any failure. |
| ArchiveSearch.GetPopularSongs | app.py:243-321 | The method returns exactly PopularResult. |
| ArchiveSearch.HarvestBounded | app.py:229-309 | A capped loop returns at most its bound. |
| ArchiveSearch.ResultsBounded | app.py:229-309 | A search returns at most 10 songs. The popular list returns at most `limit` songs, or 1 when `limit` is below 1. |
| ArchiveSearch.SearchTotal | app.py:182-241 | The total is the reply's `numFound` whatever number of songs resolve. A failure gives no songs and 0. |
| ArchiveSearch.ApiSongFromDocs | app.py:189-223 | The song built for an identified, resolved document comes from the documents. |
| ArchiveSearch.HarvestFromDocs | app.py:189-223 | Every harvested song comes from an identified document whose item resolved to that URL. |
| ArchiveSearch.ResultsFromDocs | app.py:189-305 | Soundness. Every returned song is exactly `ApiSong` of an identified document of the reply, so it has that document's title, artist and year. Its id is non-empty, its URL is the item's resolved URL, its source is api and its thumbnail is the item image. |
| ArchiveSearch.ApiSongRules | app.py:205-221 | The song-building rules. The title is the document's when the key is present and "Unknown Title" otherwise. The artist is the first creator of a list, the creator text, or "Unknown Artist". The year is the date's first four digits read as a number, and there is none without a date. Building raises exactly for an empty creator list. |
| ArchiveSearch.HarvestIsPrefix | app.py:229-309 | A capped result equals the uncapped loop on some prefix of the documents. When that prefix is shorter than the list, the stop condition holds at its end. |
| ArchiveSearch.HarvestNoCap | app.py:189-223 | Without a cap, the loop yields the reference list: one song per identified document whose item resolves, in document order. It yields nothing only when building some song raises. |
| ArchiveSearch.BuiltSplit | app.py:189-223 | Each document's song sits in the reference list after the songs of the documents before it and before those after it. |
| ArchiveSearch.HarvestRaises | app.py:205-223 | The loop fails only when building the song of some document raises. |
| ArchiveSearch.ResultsComplete | app.py:182-305 | Completeness. The search's songs are exactly the reference list of the documents before its stop point, and it stops early only with 10 songs. The popular songs are likewise the reference list up to their stop point, which comes only at `limit` songs or `2 * limit` identified documents. A failed build means some document raised, and the result is empty. |
| ArchiveSearch.PopularIgnoresTailFrom | app.py:276-309 | Once 2·limit identified documents are counted, later documents do not matter. |
| ArchiveSearch.PopularIgnoresTail | app.py:307-309 | The popular list never reads past the first 2·limit identified documents. |
| Endpoints.ArgIntDigits | app.py:338-339 | A digit argument is read as its decimal value. |
| Endpoints.SongsPageWindow | app.py:335-350 | For page ≥ 1 and per_page ≥ 1, the page holds the items from (page−1)·per_page, at most per_page of them, and the page count is the ceiling of the total over the page size. |
| Endpoints.PagesPartition | app.py:341-350 | Item x is on page x / per_page + 1 at offset x % per_page, and that page is at most the page count. |
| Endpoints.PastLastPageEmpty | app.py:341-343 | Page 0 and pages past the last are empty. |
| Endpoints.NegativePageCountsFromEnd | app.py:338-351 | For any page of at most -1 and any positive page size, `api_songs` returns the items that start `(1 - page) * per_page` from the end of the combined list, both bounds clipped at its start. This follows from Python slice semantics. |
| Endpoints.ApiSongsExample | app.py:335-350 | 25 songs at page 2 with 10 per page give items 10 to 19 and 3 pages. |
| Endpoints.ApiSongsZeroPerPage | app.py:339-356 | per_page=0 gives the 500 error. |
| Endpoints.ApiSearchBadRequest | app.py:362-369 | A 400 comes exactly when `q` is absent or empty. |
| Endpoints.ApiSearchMerge | app.py:372-396 | The static matches come first in catalogue order, each a static song that matches. Every API song follows. The total is the match count plus `total_found`. |
| Endpoints.ApiRandomChoice | app.py:411-422 | 404 exactly when both lists are empty. Static songs are preferred, and the popular list is drawn from only when there are no static songs. |
| Endpoints.ApiRandomCovers | app.py:413-415 | Every static song is the draw of some pick. |
| Songs.FilterByQueryMembership | app.py:373-376 | A song is kept exactly when it is listed and its lower-cased title or artist contains the lower-cased query. |
| Songs.FilterByQueryOrder | app.py:373-376 | The kept songs are the songs at the ascending matching positions, in order. |
| Songs.FilterByEmptyQuery | app/page.tsx:95-98 | An empty query keeps every song. |
| PercentEncoding.RoundTrip | app.py:67 | Percent-decoding undoes `quote` and `encodeURIComponent`. |
| PercentEncoding.EncodeInjective | app.py:67 | Different names never share an encoding. |
| PercentEncoding.EncodeKeptText | app.py:67 | Text made only of safe characters is written unchanged. |
| PercentEncoding.Utf8RoundTrip | app.py:67 | UTF-8 decoding undoes the encoding. |
| Text.ClockRoundTrip | components/SongList.tsx:34-36 | The "m:ss" text reads back to the seconds. |
| Text.ClockOfIsClock | static/js/player.js:307-309 | The floor-of-real computation is the "m:ss" clock of the whole seconds. |
| Text.PyIntDigits | app.py:219 | Python `int()` reads a plain digit run as its decimal value. |
| LegacyPlayer.NextIndexInRange | static/js/player.js:208-217 | From −1 or any index, next lands in the list. −1 and the last song go to 0. |
| LegacyPlayer.PrevIndexInRange | static/js/player.js:197-206 | Previous lands in the list. 0 and −1 go to the last song. |
| LegacyPlayer.NextPrevInverse | static/js/player.js:197-217 | On a valid index, next and previous undo each other. |
| LegacyPlayer.AudioSrcAsWrittenCollides | static/js/player.js:162 | As written, every song gets "/songs/undefined". The corrected source tells songs apart. |
| LegacyPlayer.FormatTimeIsClock | static/js/player.js:304-310 | A finite time is shown as the readable "m:ss" clock of its whole seconds. |
| LegacyPlayer.LowerKeepsJsSpace | static/js/player.js:323 | Lower-casing keeps an all-space input all spaces. |
| LegacyPlayer.SearchFilterSpec | static/js/player.js:322-330 | A blank input shows every song. Otherwise a song is shown exactly when it is loaded and matches the lower-cased, trimmed input. |
| LegacyPlayer.ClickTargetPlaysShownSong | static/js/player.js:128-146 | The corrected click index selects exactly the song on the clicked row. |
| LegacyPlayer.ClickTargetAsWrittenMisses | static/js/player.js:128-146 | As written, a click on a filtered row can play a different song. |
| LegacyPlayer.MusicPlayer.constructor | static/js/player.js:3-17 | The player starts with no songs, no selection (−1), not playing and volume 0.7. |
| LegacyPlayer.MusicPlayer.LoadSongs | static/js/player.js:100-120 | Run before anything is selected, as the constructor does. A successful reply's `songs` array becomes the list (the corrected load), and a failed reply keeps the list. Nothing else changes, and `Valid` holds. |
| LegacyPlayer.LoadedAsWrittenPlaysNothing | static/js/player.js:109-111 | As written, a successful load stores the whole reply object. The list then does not render, the play button starts nothing, and `playSong` ignores or throws on every index, even when the reply carries songs. |
| LegacyPlayer.LoadedPlaysReplySongs | static/js/player.js:109-111 | When the reply's `songs` array is kept, the list renders and the play button starts the first song. `playSong` plays exactly the reply's song at each valid index and ignores the rest. |
| LegacyPlayer.MusicPlayer.PlaySong | static/js/player.js:150-176 | An out-of-range index changes nothing. Otherwise the index becomes current and the song's source is loaded. `Valid` is kept. |
| LegacyPlayer.MusicPlayer.TogglePlayPause | static/js/player.js:178-195 | With no selection, the first song plays if there is one. Otherwise a playing song pauses and a paused one resumes. `Valid` is kept. |
| LegacyPlayer.MusicPlayer.PreviousSong | static/js/player.js:197-206 | An empty list does nothing. Otherwise the previous index, wrapping, is loaded, and validity is kept. |
| LegacyPlayer.MusicPlayer.NextSong | static/js/player.js:208-217 | An empty list does nothing. Otherwise the next index, wrapping, is loaded, and validity is kept. |
| LegacyPlayer.MusicPlayer.OnPlay | static/js/player.js:266-270 | isPlaying becomes true and nothing else changes. `Valid` is kept. |
| LegacyPlayer.MusicPlayer.OnPause | static/js/player.js:272-276 | isPlaying becomes false and nothing else changes. `Valid` is kept. |
| LegacyPlayer.MusicPlayer.OnError | static/js/player.js:278-283 | isPlaying becomes false and nothing else changes. `Valid` is kept. |
| LegacyPlayer.MusicPlayer.Search | static/js/player.js:318-331 | The filter loop returns exactly SearchFilter for the input. |
| LegacyPlayer.MusicPlayer.ClickSearchResult | static/js/player.js:141-146 | The corrected click plays the song shown on the row and loads its source. `Valid` is kept. |
| Playlist.InitialValid | hooks/useMusicPlayer.ts:6-15 | The initial state keeps the invariant, has no current song, is not playing, has volume 1 and has both flags off. |
| Playlist.GetCurrentSong | hooks/useMusicPlayer.ts:210-212 | There is a song exactly when the index is inside the list, and it is the song at the index. In a valid state there is one exactly when the list is non-empty. |
| Playlist.AudioSource | hooks/useMusicPlayer.ts:83-91 | A source is set exactly when there is a current song, and it is that song's URL. |
| Playlist.PlayNext | hooks/useMusicPlayer.ts:121-136 | An empty list does nothing. Otherwise only the index and the time change, and the index lands in the list. Without shuffle it is the next index, and the last wraps to 0. |
| Playlist.PlayPrevious | hooks/useMusicPlayer.ts:138-155 | An empty list does nothing. Otherwise only the index and the time change, and the index lands in the list. Without shuffle it is the previous index, and 0 wraps to the last. |
| Playlist.NextPreviousInverse | hooks/useMusicPlayer.ts:121-155 | Without shuffle, next and previous undo each other, up to the time. |
| Playlist.ShuffleCovers | hooks/useMusicPlayer.ts:121-155 | With shuffle, every song can be drawn. |
| Playlist.PlaySong | hooks/useMusicPlayer.ts:157-165 | A valid index becomes current at time 0. Any other index changes nothing. |
| Playlist.Play | hooks/useMusicPlayer.ts:93-104 | isPlaying becomes true only when the list is non-empty and the play promise resolves. Nothing else changes. |
| Playlist.Pause | hooks/useMusicPlayer.ts:106-111 | isPlaying becomes false and nothing else changes. |
| Playlist.TogglePlayPause | hooks/useMusicPlayer.ts:113-119 | A playing list pauses. Otherwise the list plays exactly when play can succeed. |
| Playlist.ClampVolume | hooks/useMusicPlayer.ts:168 | The result is in [0, 1]. It is the identity inside, 0 below and 1 above. |
| Playlist.SetVolume | hooks/useMusicPlayer.ts:167-173 | The stored volume is clamped, an in-range volume is kept, and nothing else changes. |
| Playlist.SetVolumeIdempotent | hooks/useMusicPlayer.ts:167-173 | Setting the same volume twice is setting it once. |
| Playlist.ToggleShuffle | hooks/useMusicPlayer.ts:182-184 | Only the shuffle flag flips. |
| Playlist.ToggleRepeat | hooks/useMusicPlayer.ts:186-188 | Only the repeat flag flips. |
| Playlist.TogglesInvolutive | hooks/useMusicPlayer.ts:182-188 | Each toggle undoes itself, and the two commute. |
| Playlist.SetSongs | hooks/useMusicPlayer.ts:190-201 | The list is replaced and play restarts at its first song from time 0, with the other fields kept. A play is scheduled exactly when autoPlay is set and the list is non-empty. |
| Playlist.AddSongs | hooks/useMusicPlayer.ts:203-208 | The new songs follow the old ones, which keep their places, and the current song is unchanged. |
| Playlist.OnAudioEvent | hooks/useMusicPlayer.ts:28-63 | `ended` while repeating restarts the audio and leaves the state alone. `error`, and `ended` without repeat, are playNext. `timeupdate` stores the time. `durationchange` stores the duration, or 0 for NaN. |
| Playlist.EndedAdvances | hooks/useMusicPlayer.ts:42-63 | Without shuffle or repeat, a song that ends or fails hands over to the next song, cyclically. |
| Playlist.StepValid | hooks/useMusicPlayer.ts:121-208 | Every transition keeps the index inside the list (0 when empty) and the volume in [0, 1]. |
| Playlist.RunValid | hooks/useMusicPlayer.ts:121-208 | Any run of transitions keeps the invariant. |
| Playlist.Reachable | hooks/useMusicPlayer.ts:6-208 | Every reachable state keeps the invariant, and a non-empty list always has a current song. |
| SongList.PageWindow | components/SongList.tsx:28-30 | For page ≥ 1, the page is the window of the list from startIndex, at most itemsPerPage long and cut at the end. |
| SongList.ActualIndexSelectsShownSong | components/SongList.tsx:129-139 | A click on a row selects exactly the song the row shows. |
| SongList.FormatDurationSpec | components/SongList.tsx:32-37 | The text is empty exactly for a missing or zero duration. Otherwise it is the "m:ss" clock of the whole seconds, which reads back. |
| SongList.RenderPagination | components/SongList.tsx:39-93 | The method builds exactly Buttons. |
| SongList.PushPageButtons | components/SongList.tsx:63-77 | The loop appends the numbered buttons from startPage to endPage. |
| SongList.PageButtonsSnoc | components/SongList.tsx:63-77 | One more page appends one button. |
| SongList.WindowShape | components/SongList.tsx:41-47 | The numbered pages are consecutive, within [1, totalPages], and at most 5. For a current page in range, they include it and number min(5, totalPages). Away from the ends they are centred on it. |
| SongList.ButtonsSpec | components/SongList.tsx:49-90 | The previous button exists exactly when the current page is past 1, and targets the page before. The next button exists exactly when the current page is before the last, and targets the page after. Every numbered button is a real page, marked exactly when it is current. |
| SongList.Render | components/SongList.tsx:95-213 | Loading comes first, then "No songs found" for an empty list. The total is the list length. The pagination bar appears exactly when there is more than one page. |
| SongList.RowsSelectShownSongs | components/SongList.tsx:129-139 | Rows are the page in order. Each row selects its own song and is highlighted exactly when its id is the playing song's id. |
| HomePage.UpdatePagination | app/page.tsx:73-81 | The page count is the ceiling of the items over the page size. The current page is pulled back, never forward, to at most the last page, or 1 with no pages. It stays in range when it starts at 1 or more. |
| HomePage.UpdatePaginationKeepsFittingPage | app/page.tsx:79 | A current page that already fits is kept. |
| HomePage.UpdatePaginationExample | app/page.tsx:73-81 | 25 items make 3 pages, and page 5 comes back to 3. 0 items make 0 pages and page 1. |
| HomePage.HandlePageChange | app/page.tsx:149-151 | The page is stored as given and nothing else changes. |
| HomePage.HandleSongSelect | app/page.tsx:145-147 | A valid index becomes the player's current song. Any other index changes nothing. |
| HomePage.ShowList | app/page.tsx:100-110 | The list goes to the page and the player, with the pagination for its length. With play-first, a non-empty list plays its first song. |
| HomePage.HandleSearch | app/page.tsx:83-116 | A query that trims to nothing changes nothing. Otherwise the shown list is the matching static songs followed by every archive result, and the first of them plays. A failed call keeps the old list. |
| HomePage.HandleSearchMatches | app/page.tsx:95-100 | The static part of the results is exactly the matching static songs, and the archive part follows. |
| HomePage.HandleSearchClear | app/page.tsx:118-143 | The query is cleared. The list becomes static then popular at page 1, or static alone on failure. The player follows. |
| HomePage.Initialize | app/page.tsx:27-71 | The corrected start. The list is static then popular, or static alone on failure. The player's current song has the id of the random draw: from the whole list when popular songs arrived, from the static list otherwise. |
| HomePage.InitializeAsWrittenStartsAtFirst | app/page.tsx:40-50 | As written, starting from the first render's empty list, the random draw is never selected. The player always starts at the first song of the list. |
| HomePage.InitializeAsWrittenMissesDraw | app/page.tsx:40-50 | With two static songs of different ids and a draw of the second, the corrected start plays the second song, but the start as written plays the first. |
| HomePage.SelectId | app/page.tsx:48-51 | The first song with the id is selected when one exists. The list is unchanged. |
| HomePage.HandlersKeepPageInRange | app/page.tsx:73-151 | Search, clear and button page changes keep the current page within [1, max(1, totalPages)]. |
| HomePage.InitialPageInRange | app/page.tsx:19-24 | The initial pagination is page 1 of 1, with 10 per page, and is in range. |
| ArchiveClient.GetSongUrl | lib/internetArchiveApi.ts:64-85 | A URL exists exactly when the reply has files and one passes the mp3 test. It names the first such file, URI-encoded. There is no priority among the three tests. |
| ArchiveClient.GetSongUrlNoPriority | lib/internetArchiveApi.ts:70-74 | A name-only match earlier in the list beats a later "VBR MP3" file. |
| ArchiveClient.GetSongUrlNamesFile | lib/internetArchiveApi.ts:77 | Distinct file names give distinct download URLs. |
| ArchiveClient.OrElse | lib/internetArchiveApi.ts:40-41 | A present non-empty text is kept, otherwise the fallback. |
| ArchiveClient.Resolve | lib/internetArchiveApi.ts:34-52 | There is at most one song per document. |
| ArchiveClient.ResolveAppend | lib/internetArchiveApi.ts:106-134 | Resolving two runs one after the other equals resolving them together. |
| ArchiveClient.ResolveSound | lib/internetArchiveApi.ts:36-47 | Every song is built from a document whose URL resolved. |
| ArchiveClient.ResolveComplete | lib/internetArchiveApi.ts:36-47 | Every document that resolves contributes its song. |
| ArchiveClient.SearchSongs | lib/internetArchiveApi.ts:13-62 | The loop returns the resolved songs in document order and `numFound`, or no songs and 0 on failure. |
| ArchiveClient.GetPopularSongs | lib/internetArchiveApi.ts:87-147 | The batches of five return the resolved songs of the first min(docs, 20) documents, in order, or none on failure. |
| ArchiveClient.BatchStep | lib/internetArchiveApi.ts:106-134 | Each batch extends the resolved prefix by the next five documents, or by the rest. |
| ArchiveClient.PopularBounded | lib/internetArchiveApi.ts:106 | The popular list has at most 20 songs, each from one of the first 20 documents, and keeps their order. |
| ArchiveClient.SearchSongsBounded | lib/internetArchiveApi.ts:34-52 | At most one song per document. Each song comes from a document of the reply, with the document's id and its resolved URL. |
| ServiceWorker.MatchIn | frontend/public/service-worker.js:42 | The response comes from the first cache, in creation order, that holds the URL. None exactly when no cache holds it. |
| ServiceWorker.MatchFrom | frontend/public/service-worker.js:42 | The same as MatchIn, from a given cache on. |
| ServiceWorker.RemoveName | frontend/public/service-worker.js:16-18 | Exactly the other names remain, and they stay distinct. |
| ServiceWorker.AddAll | frontend/public/service-worker.js:29 | The result is all-or-nothing: it succeeds exactly when every fetch is ok, and then stores every URL's response and keeps the other entries. |
| ServiceWorker.AddAllOrKeep | frontend/public/service-worker.js:29 | When every fetch is ok, every URL holds its response. Otherwise the cache is unchanged. |
| ServiceWorker.StoredThenHit | frontend/public/service-worker.js:42-62 | After a miss, storing a response makes the next lookup of that URL hit it. |
| ServiceWorker.CacheStorage.constructor | frontend/public/service-worker.js:11-31 | Storage starts with no caches. |
| ServiceWorker.CacheStorage.Match | frontend/public/service-worker.js:42 | The lookup loop returns exactly MatchIn. |
| ServiceWorker.CacheStorage.Open | frontend/public/service-worker.js:28 | A missing cache is created last and empty. An existing one is kept. |
| ServiceWorker.CacheStorage.Put | frontend/public/service-worker.js:59-62 | The cache is opened, then its entry for the URL is set. Other caches are untouched. |
| ServiceWorker.CacheStorage.Delete | frontend/public/service-worker.js:18 | The named cache is removed and the others keep their order. The result says whether the cache existed. |
| ServiceWorker.CacheStorage.Activate | frontend/public/service-worker.js:11-24 | Exactly the worker's own cache survives, with its contents. |
| ServiceWorker.CacheStorage.Install | frontend/public/service-worker.js:26-31 | The worker's cache exists and holds the all-or-nothing addAll of the three URLs. Every other cache is unchanged. |
| ServiceWorker.CacheStorage.AddAllTo | frontend/public/service-worker.js:29 | One cache's contents become AddAllOrKeep of them, and nothing else changes. |
| ServiceWorker.CacheStorage.HandleFetch | frontend/public/service-worker.js:33-73 | API calls, song files and non-GET requests are not intercepted. A hit is answered from the cache with no change. On a miss the network response is returned, and stored under the worker's cache only when it is a 200 of type basic, after which it is a hit. When the network fails, a navigation gets the cached offline page and anything else gets no response. |

## Left out

- I/O:
  - Filesystem access is not modelled. The listing, the folder's existence and the audio and tag reads are inputs.
  - `os.makedirs` (app.py:33) is not modelled.
  - Of the mutagen library, only the outcome is kept: readable or not, plus the TIT2 and TPE1 first texts.
- Network and time:
  - The HTTP requests and their parameters (query text, `rows`, `page`, `start`, `limit * 3`, timeouts) are not modelled. They shape only the request, whose reply is an input.
  - The sleeps and delays (app.py:226-227, 312-313; lib/internetArchiveApi.ts:9-11, 16, 136-139) are not modelled.
- Logging: all `print` and `console` output is left out.
- Debug and serving routes: `serve_song`, `index`, `/api/health` and the debug endpoints (app.py:427-527) are file serving and diagnostics with no logic.
- Non-string JSON in search documents: a `title` or `creator` that is neither absent, a string nor a list is not modelled. `Doc` keeps the shapes the archive returns.
- Case mapping: lower- and upper-casing are ASCII only, because Unicode case mapping is not available. Names and queries with non-ASCII letters are compared by code point.
- Python `int()` on non-ASCII text: Text.PyInt accepts only ASCII digits, and Text.IsPySpace only ASCII whitespace. Python also reads other Unicode decimal digits and strips other Unicode whitespace (`int('\u0663')` is 3). Such text reads as the default in `Endpoints.ArgInt` for `page` and `per_page` (app.py:338-339, 363-364), and gives no year in `ArchiveSearch.Year` (app.py:219). The Unicode digit and space tables are not modelled.
- Non-string `creator` in the TypeScript client: `ArchiveClient.Item` keeps `title` and `creator` as optional text. In the source, a list `creator` passes through `item.creator || 'Unknown Artist'` (lib/internetArchiveApi.ts:41, 115) unchanged as the artist, including an empty list, which is truthy in JavaScript. A song's artist is text in this model, so that case is not represented.
- Malformed file entries: a file entry that is not a JSON object makes `.get` raise in app.py:103, so the URL lookup gives None. A non-string `name` makes `.toLowerCase()` throw in lib/internetArchiveApi.ts:73, so `getSongUrl` gives null. `ArchiveFiles.ArchiveFile` and `ArchiveClient`'s file record are always records with text-or-absent fields, so neither error is represented.
- Legacy player loading: the HTTP fetch, the loading spinner and the error alert of `loadSongs` are left out. Its reply is an input.
- Legacy player UI: the DOM work is left out. This covers `initializeElements`, `bindEvents`, `updateSongInfo`, `updateActiveItem`, `enableControls`, `renderSongList` markup, `escapeHtml`, `showLoading`/`hideLoading`, `showError`, `updateProgress`, `updateDuration`, the keyboard shortcuts (which call the modelled methods), and the volume slider and progress seek (static/js/player.js:52-67, which only write the audio element).
- Volume edge cases: `Math.max(0, Math.min(1, NaN))` is not modelled, because reals have no NaN. Playlist.ClampVolume states the clamp on numbers.
- Hook state outside the playlist: `isLoading` and `seekTo` (hooks/useMusicPlayer.ts:17, 51-60, 175-180) are not modelled. seekTo only writes the audio element and the time field.
- React scheduling: stale closures (except the start-up `playSong`, under "## Findings"), batching and the `setTimeout(play, 100)` of `setSongs` are not modelled. Each transition reads the state it is applied to. `SetSongs` reports whether a play is scheduled.
- Concurrency:
  - `Promise.allSettled` concurrency inside a popular batch is not modelled; each batch is resolved in document order, which is the order `allSettled` reports.
  - The asynchronous `cache.put` of the service worker is modelled as completing before the response is used.
- Clocks and randomness:
  - `new Date(...).getFullYear()` is a parameter.
  - `Math.random()` and `random.choice` are a `pick` number reduced modulo the list length.
- Home page constant: `itemsPerPage` is fixed at 10 by app/page.tsx:22 and never changed. HomePage.UpdatePagination therefore requires a positive page size.
- Cache keys: cache entries are keyed by URL text, so a relative URL and its absolute form are different keys.
- Other front-end files:
  - components/MusicPlayer.tsx, components/SearchBar.tsx, contexts/MusicPlayerContext.tsx, frontend/src/App.js, frontend/src/components/AudioPlayer.js, frontend/src/index.js, app/layout.tsx and next.config.js are not part of this model.
  - lib/staticSongs.ts is an input list. Its random pick is the `pick` parameter.

## Findings

| source | as written | input that shows it | evidently intended | confidence | as-written member | corrected member |
|---|---|---|---|---|---|---|
| static/js/player.js:162 | `playSong` sets the audio source to `/songs/${song.filename}`, but no song record has a `filename` field | any two songs with different URLs: both get "/songs/undefined" | load the song's own `url` | not executed | LegacyPlayer.AudioSrcAsWritten (LegacyPlayer.AudioSrcAsWrittenCollides) | LegacyPlayer.AudioSrc |
| static/js/player.js:109 | `loadSongs` stores the whole `/api/songs` reply, an object holding `songs`, `total` and page fields, as `this.songs` | any successful reply with songs: `renderSongList` throws on `.map`, and no index plays | keep the reply's `songs` array | not executed | LegacyPlayer.LoadedAsWritten (LegacyPlayer.LoadedAsWrittenPlaysNothing) | LegacyPlayer.Loaded (LegacyPlayer.LoadedPlaysReplySongs, LegacyPlayer.MusicPlayer.LoadSongs) |
| app/page.tsx:47-50 | the start-up effect calls `playSong(randomIndex)` through the first render's player, whose range check reads that render's empty list | static songs [a, b] with different ids and a draw of b: the player starts at a | select the drawn song in the new list | not executed | HomePage.InitializeAsWritten (HomePage.InitializeAsWrittenMissesDraw, HomePage.InitializeAsWrittenStartsAtFirst) | HomePage.Initialize |
| static/js/player.js:128-146 | after a search, rows are numbered by their position in the filtered list, and a click calls `playSong` with that number on the full list | songs [a, b] where only b matches "b": row 0 shows b, but a click plays a | play the full-list index of the song shown on the row | not executed | LegacyPlayer.ClickTargetAsWritten (LegacyPlayer.ClickTargetAsWrittenMisses) | LegacyPlayer.ClickTarget (LegacyPlayer.ClickTargetPlaysShownSong, LegacyPlayer.MusicPlayer.ClickSearchResult) |
