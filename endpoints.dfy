/** The list arithmetic of the backend's JSON endpoints (app.py, `api_songs`, `api_search`,
    `api_random`). The static songs, the popular songs and the search results they combine
    are inputs (see `Scanner` and `ArchiveSearch`); so are the raw query arguments and the
    random pick. */
module Endpoints {
  import opened Text
  import opened Songs

  /** `request.args.get(name, default, type=int)`: an absent argument, or one `int()`
      rejects, reads as the default. */
  function ArgInt(raw: Option<string>, default: int): int {
    match raw
      case None => default
      case Some(text) =>
        match PyInt(text)
          case None => default
          case Some(n) => n
  }

  lemma ArgIntDigits(text: string, default: int)
    requires |text| > 0 && AllDigits(text)
    ensures ArgInt(Some(text), default) == ParseDigits(text)
  {
    PyIntDigits(text);
  }

  // ---------------------------------------------------------------- /api/songs

  datatype SongsResponse =
    | SongsPage(songs: seq<Song>, total: nat, page: int, perPage: int, totalPages: int)
    | SongsError   // HTTP 500

  /** One page of a list, as `api_songs` answers it: Python slice semantics for the page,
      and floor division for the page count, which raises when `per_page` is 0. */
  function SongsPageOf(all: seq<Song>, page: int, perPage: int): SongsResponse {
    var start := (page - 1) * perPage;
    if perPage == 0 then SongsError
    else SongsPage(Slice(all, start, start + perPage), |all|, page, perPage,
                   FloorDiv(|all| + perPage - 1, perPage))
  }

  /** `api_songs()`: the combined list is static then popular; `page` defaults to 1 and
      `per_page` to 10. */
  function ApiSongs(local: seq<Song>, popular: seq<Song>, pageArg: Option<string>, perPageArg: Option<string>): SongsResponse {
    SongsPageOf(local + popular, ArgInt(pageArg, 1), ArgInt(perPageArg, 10))
  }

  /** For a page of at least 1 and a positive page size, the page holds the items from
      `(page - 1) * per_page` on, at most `per_page` of them, and the page count is the
      ceiling of the item count over the page size. */
  lemma SongsPageWindow(all: seq<Song>, page: int, perPage: int)
    requires page >= 1 && perPage >= 1
    ensures var r := SongsPageOf(all, page, perPage);
      var start := (page - 1) * perPage;
      r.SongsPage? && r.total == |all| && r.page == page && r.perPage == perPage &&
      |r.songs| <= perPage && start >= 0 &&
      (forall k :: 0 <= k < |r.songs| ==> start + k < |all| && r.songs[k] == all[start + k]) &&
      |r.songs| == (if start >= |all| then 0 else if start + perPage <= |all| then perPage else |all| - start) &&
      r.totalPages == CeilDiv(|all|, perPage)
  {
    var start := (page - 1) * perPage;
    MulNonNegative(page - 1, perPage);
    SliceWindow(all, start, perPage);
    assert FloorDiv(|all| + perPage - 1, perPage) == (|all| + perPage - 1) / perPage;
  }

  /** Pages partition the list: item `x` is on page `x / per_page + 1` at offset
      `x % per_page`, and that page number is at most the page count. */
  lemma PagesPartition(all: seq<Song>, perPage: nat, x: nat)
    requires perPage >= 1 && x < |all|
    ensures var page := x / perPage + 1;
      var start := (page - 1) * perPage;
      var items := Slice(all, start, start + perPage);
      x % perPage < |items| && items[x % perPage] == all[x] &&
      1 <= page <= CeilDiv(|all|, perPage)
  {
    var page := x / perPage + 1;
    var start := (page - 1) * perPage;
    assert start == x / perPage * perPage;
    assert start + x % perPage == x;
    assert start <= x < start + perPage;
    var q := CeilDiv(|all|, perPage);
    assert x / perPage * perPage < q * perPage;
    MulCancelStrict(x / perPage, q, perPage);
  }

  /** A page past the last one, and page 0, are empty. */
  lemma PastLastPageEmpty(all: seq<Song>, page: int, perPage: int)
    requires perPage >= 1 && (page > CeilDiv(|all|, perPage) || page == 0)
    ensures var start := (page - 1) * perPage;
      Slice(all, start, start + perPage) == []
  {
    var start := (page - 1) * perPage;
    if page > CeilDiv(|all|, perPage) {
      var q := CeilDiv(|all|, perPage);
      assert q * perPage >= |all|;
      MulMonotone(q, page - 1, perPage);
      assert start >= |all|;
    }
  }

  /** A negative page counts from the end of the combined list: with a page `p` of at most
      -1 and a positive page size `n`, the page holds the `n` items that start `(1 - p) * n`
      from the end, both bounds clipped at the start of the list. */
  lemma NegativePageCountsFromEnd(local: seq<Song>, popular: seq<Song>, pageArg: Option<string>, perPageArg: Option<string>)
    requires ArgInt(pageArg, 1) <= -1 && ArgInt(perPageArg, 10) >= 1
    ensures var all := local + popular;
      var page := ArgInt(pageArg, 1);
      var n := ArgInt(perPageArg, 10);
      var start := (page - 1) * n;
      var r := ApiSongs(local, popular, pageArg, perPageArg);
      Max(0, |all| + start) <= Max(0, |all| + start + n) < |all| + 1 &&
      r.SongsPage? && r.page == page && r.perPage == n && r.total == |all| &&
      r.songs == all[Max(0, |all| + start)..Max(0, |all| + start + n)]
  {
    var page := ArgInt(pageArg, 1);
    var n := ArgInt(perPageArg, 10);
    MulMonotone(page, -1, n);
    assert (page - 1) * n + n == page * n <= -n;
  }

  /** 25 songs, page 2, 10 per page: songs 11 to 20 (indices 10 to 19) of 3 pages. */
  lemma ApiSongsExample(local: seq<Song>, popular: seq<Song>)
    requires |local + popular| == 25
    ensures ApiSongs(local, popular, Some("2"), Some("10")) ==
      SongsPage((local + popular)[10..20], 25, 2, 10, 3)
  {
    ArgIntDigits("2", 1);
    ArgIntDigits("10", 10);
    assert ParseDigits("2") == 2;
    assert ParseDigits("10") == 10 by {
      assert "10"[..1] == "1";
    }
    var all := local + popular;
    assert SongsPageOf(all, 2, 10) == SongsPage(Slice(all, 10, 20), 25, 2, 10, FloorDiv(34, 10));
  }

  /** A page size of 0 makes the endpoint fail with a 500. */
  lemma ApiSongsZeroPerPage(local: seq<Song>, popular: seq<Song>, pageArg: Option<string>)
    ensures ApiSongs(local, popular, pageArg, Some("0")).SongsError?
  {
    ArgIntDigits("0", 10);
  }

  // ---------------------------------------------------------------- /api/search

  datatype SearchResponse =
    | BadRequest   // HTTP 400: no query
    | Results(songs: seq<Song>, total: int, page: int, perPage: int, query: string,
              staticMatches: nat, apiMatches: nat)

  /** `api_search()`: `apiSongs` and `totalFound` are what `search_internet_archive`
      returned for the query. */
  function ApiSearch(local: seq<Song>, apiSongs: seq<Song>, totalFound: int,
                     queryArg: Option<string>, pageArg: Option<string>, perPageArg: Option<string>): SearchResponse {
    var query := if queryArg.Some? then queryArg.value else "";
    if query == "" then BadRequest
    else
      var matching := FilterByQuery(local, query);
      Results(matching + apiSongs, |matching| + totalFound, ArgInt(pageArg, 1), ArgInt(perPageArg, 20),
              query, |matching|, |apiSongs|)
  }

  /** Only an absent or empty `q` is refused; a query of spaces is searched. */
  lemma ApiSearchBadRequest(local: seq<Song>, apiSongs: seq<Song>, totalFound: int,
                            queryArg: Option<string>, pageArg: Option<string>, perPageArg: Option<string>)
    ensures ApiSearch(local, apiSongs, totalFound, queryArg, pageArg, perPageArg).BadRequest? <==>
      (queryArg.None? || queryArg.value == "")
  {
  }

  /** The static matches come first, in their order, then every API song; the total adds the
      static matches to the archive's own total. */
  lemma ApiSearchMerge(local: seq<Song>, apiSongs: seq<Song>, totalFound: int,
                       query: string, pageArg: Option<string>, perPageArg: Option<string>)
    requires query != ""
    ensures var r := ApiSearch(local, apiSongs, totalFound, Some(query), pageArg, perPageArg);
      r.Results? &&
      r.songs[..r.staticMatches] == FilterByQuery(local, query) &&
      r.songs[r.staticMatches..] == apiSongs &&
      r.apiMatches == |apiSongs| &&
      r.total == r.staticMatches + totalFound &&
      (forall k :: 0 <= k < r.staticMatches ==>
         r.songs[k] in local &&
         (Contains(Lower(r.songs[k].title), Lower(query)) || Contains(Lower(r.songs[k].artist), Lower(query))))
  {
    var r := ApiSearch(local, apiSongs, totalFound, Some(query), pageArg, perPageArg);
    var matching := FilterByQuery(local, query);
    assert r.songs == matching + apiSongs;
    assert r.songs[..|matching|] == matching;
    assert r.songs[|matching|..] == apiSongs;
    forall k | 0 <= k < |matching|
      ensures r.songs[k] in local &&
        (Contains(Lower(r.songs[k].title), Lower(query)) || Contains(Lower(r.songs[k].artist), Lower(query)))
    {
      assert r.songs[k] == matching[k] && matching[k] in matching;
      FilterByQueryMembership(local, query, matching[k]);
    }
  }

  // ---------------------------------------------------------------- /api/random

  datatype RandomResponse = RandomSong(song: Song) | NoSongs   // NoSongs: HTTP 404

  /** `api_random()`: `random.choice` is the song at `pick % n`; the popular list is only
      consulted when there are no static songs. */
  function ApiRandom(local: seq<Song>, popular: seq<Song>, pick: nat): RandomResponse {
    if |local| > 0 then RandomSong(local[pick % |local|])
    else if |popular| > 0 then RandomSong(popular[pick % |popular|])
    else NoSongs
  }

  /** Static songs are preferred; 404 exactly when both sources are empty; and every song of
      the preferred source can be drawn. */
  lemma ApiRandomChoice(local: seq<Song>, popular: seq<Song>, pick: nat)
    ensures ApiRandom(local, popular, pick).NoSongs? <==> local == [] && popular == []
    ensures local != [] ==> ApiRandom(local, popular, pick).song in local
    ensures local == [] && popular != [] ==> ApiRandom(local, popular, pick).song in popular
  {
  }

  /** Every static song is the draw of some pick. */
  lemma ApiRandomCovers(local: seq<Song>, popular: seq<Song>, k: nat)
    requires k < |local|
    ensures ApiRandom(local, popular, k) == RandomSong(local[k])
  {
    assert k % |local| == k;
  }
}
