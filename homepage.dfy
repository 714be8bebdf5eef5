/** The home page (app/page.tsx): its pagination record, the song list it shows and the
    player state it drives, and how the search, clear, page-change and song-select
    handlers update them. The archive calls are inputs: their results are parameters, and
    a call that throws is `None`. The random start song is a `pick` parameter. */
module HomePage {
  import opened Text
  import opened Songs
  import Seqs
  import Playlist

  datatype PaginationState = PaginationState(currentPage: int, totalPages: int, itemsPerPage: int, totalItems: int)

  /** The pagination the page starts from. */
  const InitialPagination := PaginationState(1, 1, 10, 0)

  /** The page's own state, with the player hook's playlist. */
  datatype Home = Home(
    allSongs: seq<Song>,
    isSearching: bool,
    searchQuery: string,
    hasSearched: bool,
    pagination: PaginationState,
    player: Playlist.PlaylistState)

  const InitialHome := Home([], false, "", false, InitialPagination, Playlist.Initial)

  /** The current page is a page of the list: at least 1 and at most the page count, or 1
      when there are no pages. */
  predicate PageInRange(p: PaginationState) {
    1 <= p.currentPage <= Max(1, p.totalPages)
  }

  /** `updatePagination(totalItems)`: the page count is the ceiling of the item count over
      the page size, and the current page is pulled back to the last page (to 1 when there
      are no pages); the page size is kept. */
  function UpdatePagination(p: PaginationState, totalItems: nat): (r: PaginationState)
    requires p.itemsPerPage >= 1
    ensures r.itemsPerPage == p.itemsPerPage && r.totalItems == totalItems
    ensures r.totalPages >= 0 &&
      ((r.totalPages - 1) * p.itemsPerPage < totalItems <= r.totalPages * p.itemsPerPage ||
       (totalItems == 0 && r.totalPages == 0))
    ensures r.currentPage <= p.currentPage && r.currentPage <= Max(1, r.totalPages)
    ensures r.currentPage == p.currentPage || r.currentPage == Max(1, r.totalPages)
    ensures p.currentPage >= 1 ==> PageInRange(r)
  {
    var totalPages := CeilDiv(totalItems, p.itemsPerPage);
    p.(totalItems := totalItems, totalPages := totalPages,
       currentPage := Min(p.currentPage, if totalPages == 0 then 1 else totalPages))
  }

  /** A current page that already fits is kept. */
  lemma UpdatePaginationKeepsFittingPage(p: PaginationState, totalItems: nat)
    requires p.itemsPerPage >= 1 && 1 <= p.currentPage
    requires p.currentPage <= Max(1, CeilDiv(totalItems, p.itemsPerPage))
    ensures UpdatePagination(p, totalItems).currentPage == p.currentPage
  {
  }

  /** 25 items of 10 per page make 3 pages, and page 5 is pulled back to 3. */
  lemma UpdatePaginationExample()
    ensures UpdatePagination(PaginationState(5, 1, 10, 0), 25) == PaginationState(3, 3, 10, 25)
    ensures UpdatePagination(PaginationState(5, 3, 10, 25), 0) == PaginationState(1, 0, 10, 0)
  {
  }

  /** `handlePageChange(page)`: stores the page as given, without checking it. */
  function HandlePageChange(h: Home, page: int): (r: Home)
    ensures r.pagination.currentPage == page
    ensures r.(pagination := h.pagination) == h
    ensures r.pagination.(currentPage := h.pagination.currentPage) == h.pagination
  {
    h.(pagination := h.pagination.(currentPage := page))
  }

  /** `handleSongSelect(index)`: the player's `playSong`. */
  function HandleSongSelect(h: Home, index: int): (r: Home)
    ensures r.(player := h.player) == h
    ensures 0 <= index < |h.player.songs| ==>
      Playlist.GetCurrentSong(r.player) == Some(h.player.songs[index])
    ensures !(0 <= index < |h.player.songs|) ==> r == h
  {
    h.(player := Playlist.PlaySong(h.player, index))
  }

  /** Shows a new list: the list, the pagination for its length, and the player's list
      with play from its first song (`setSongs`, then `playSong(0)` when it is not empty). */
  function ShowList(h: Home, list: seq<Song>, playFirst: bool): (r: Home)
    requires h.pagination.itemsPerPage >= 1
    ensures r.allSongs == list && r.player.songs == list
    ensures r.pagination == UpdatePagination(h.pagination, |list|)
    ensures r.player.currentIndex == 0 && r.player.currentTime == 0.0
    ensures list != [] ==> Playlist.GetCurrentSong(r.player) == Some(list[0])
    ensures r.player.volume == h.player.volume && r.player.isPlaying == h.player.isPlaying
    ensures r.(allSongs := h.allSongs, pagination := h.pagination, player := h.player) == h
  {
    var player := Playlist.SetSongs(h.player, list, false).0;
    var player' := if playFirst && |list| > 0 then Playlist.PlaySong(player, 0) else player;
    h.(allSongs := list, pagination := UpdatePagination(h.pagination, |list|), player := player')
  }

  /** `handleSearch(query)`: a query that trims to nothing changes nothing. Otherwise the
      query is recorded and the list becomes the static songs whose lower-cased title or
      artist contains the lower-cased query (not trimmed), followed by every archive
      result, and the first of them is played. A failed archive call keeps the old list.
      The page ends not searching. */
  function HandleSearch(h: Home, query: string, local: seq<Song>, results: Option<seq<Song>>): (r: Home)
    requires h.pagination.itemsPerPage >= 1
    ensures Trim(query) == "" ==> r == h
    ensures Trim(query) != "" ==> r.searchQuery == query && r.hasSearched && !r.isSearching
    ensures Trim(query) != "" && results.Some? ==>
      r.allSongs == FilterByQuery(local, query) + results.value &&
      r.player.songs == r.allSongs &&
      r.pagination.totalItems == |r.allSongs| &&
      (r.allSongs != [] ==> Playlist.GetCurrentSong(r.player) == Some(r.allSongs[0]))
    ensures Trim(query) != "" && results.None? ==>
      r.allSongs == h.allSongs && r.pagination == h.pagination && r.player == h.player
  {
    if Trim(query) == "" then h
    else
      var started := h.(isSearching := true, searchQuery := query, hasSearched := true);
      var shown := match results
        case Some(found) => ShowList(started, FilterByQuery(local, query) + found, true)
        case None => started;
      shown.(isSearching := false)
  }

  /** Every static song in the search results matches the query, and the static part
      keeps the catalogue's order. */
  lemma HandleSearchMatches(h: Home, query: string, local: seq<Song>, found: seq<Song>, song: Song)
    requires h.pagination.itemsPerPage >= 1 && Trim(query) != ""
    ensures var r := HandleSearch(h, query, local, Some(found));
      r.allSongs[..|FilterByQuery(local, query)|] == FilterByQuery(local, query) &&
      r.allSongs[|FilterByQuery(local, query)|..] == found
    ensures song in local ==>
      (song in HandleSearch(h, query, local, Some(found)).allSongs[..|FilterByQuery(local, query)|] <==>
       Contains(Lower(song.title), Lower(query)) || Contains(Lower(song.artist), Lower(query)))
  {
    FilterByQueryMembership(local, query, song);
  }

  /** `handleSearchClear()`: the query is emptied and the page is no longer showing search
      results. The list goes back to the static songs followed by the popular ones, with the
      first page; if loading the popular songs throws, to the static songs alone, with the
      page pulled into range instead. The page ends not searching. */
  function HandleSearchClear(h: Home, local: seq<Song>, popular: Option<seq<Song>>): (r: Home)
    requires h.pagination.itemsPerPage >= 1
    ensures r.searchQuery == "" && !r.hasSearched && !r.isSearching
    ensures popular.Some? ==> r.allSongs == local + popular.value && r.pagination.currentPage == 1
    ensures popular.None? ==> r.allSongs == local
    ensures r.player.songs == r.allSongs && r.pagination.totalItems == |r.allSongs|
    ensures r.player.currentIndex == 0 && r.player.currentTime == 0.0
  {
    var cleared := h.(searchQuery := "", hasSearched := false, isSearching := true);
    var shown := match popular
      case Some(more) =>
        var s := ShowList(cleared, local + more, false);
        s.(pagination := s.pagination.(currentPage := 1))
      case None => ShowList(cleared, local, false);
    shown.(isSearching := false)
  }

  /** The page's start: the static songs and up to 20 popular ones (the static songs alone
      when fetching those throws) are shown, and the first song with the id of a random draw
      is selected. The draw is from the whole list when popular songs arrived, from the
      static list otherwise. */
  function Initialize(h: Home, local: seq<Song>, popular: Option<seq<Song>>, pick: nat): (r: Home)
    requires h.pagination.itemsPerPage >= 1
    ensures r.allSongs == (if popular.Some? then local + popular.value else local)
    ensures r.player.songs == r.allSongs && r.pagination.totalItems == |r.allSongs|
    ensures r.allSongs != [] ==>
      var drawn := if popular.Some? && |r.allSongs| > |local| then r.allSongs[pick % |r.allSongs|]
                   else local[pick % |local|];
      Playlist.GetCurrentSong(r.player).Some? &&
      Playlist.GetCurrentSong(r.player).value.id == drawn.id
  {
    var list := if popular.Some? then local + popular.value else local;
    var shown := ShowList(h, list, false);
    if |list| == 0 then shown
    else
      var drawn := if popular.Some? && |list| > |local| then list[pick % |list|]
                   else local[pick % |local|];
      assert drawn in list;
      SelectId(shown, drawn.id)
  }

  /** `playSong(index)` as the start-up effect calls it: the effect keeps the player of the
      first render, whose range check reads that render's list length, `staleLength`; the
      update itself applies to the current state. */
  function PlaySongChecking(s: Playlist.PlaylistState, index: int, staleLength: int): Playlist.PlaylistState {
    if 0 <= index < staleLength then s.(currentIndex := index, currentTime := 0.0) else s
  }

  /** The page's start as written: the drawn song's index is checked against the list
      length of the first render, `|h.player.songs|`. */
  function InitializeAsWritten(h: Home, local: seq<Song>, popular: Option<seq<Song>>, pick: nat): Home
    requires h.pagination.itemsPerPage >= 1
  {
    var list := if popular.Some? then local + popular.value else local;
    var shown := ShowList(h, list, false);
    if |list| == 0 then shown
    else
      var drawn := if popular.Some? && |list| > |local| then list[pick % |list|]
                   else local[pick % |local|];
      match Seqs.FindFirst(list, (s: Song) => s.id == drawn.id)
        case None => shown
        case Some(i) => shown.(player := PlaySongChecking(shown.player, i, |h.player.songs|))
  }

  /** As written, starting from the page's first render, whose list is empty, the random
      draw is never selected: the player always starts at the first song of the list. */
  lemma InitializeAsWrittenStartsAtFirst(local: seq<Song>, popular: Option<seq<Song>>, pick: nat)
    requires (if popular.Some? then local + popular.value else local) != []
    ensures var r := InitializeAsWritten(InitialHome, local, popular, pick);
      Playlist.GetCurrentSong(r.player) == Some(r.allSongs[0])
  {
  }

  /** With two static songs of different ids and a draw of the second, the intended start
      selects the second song while the start as written stays on the first. */
  lemma InitializeAsWrittenMissesDraw(a: Song, b: Song)
    requires a.id != b.id
    ensures Playlist.GetCurrentSong(Initialize(InitialHome, [a, b], None, 1).player) == Some(b)
    ensures Playlist.GetCurrentSong(InitializeAsWritten(InitialHome, [a, b], None, 1).player) == Some(a)
  {
    var h := ShowList(InitialHome, [a, b], false);
    assert Seqs.FindFirst(h.player.songs, (s: Song) => s.id == b.id) == Some(1);
  }

  /** Selects the first song of the player's list that has the id `id`; nothing changes
      when no song has it. */
  function SelectId(h: Home, id: string): (r: Home)
    ensures r.(player := h.player) == h && r.player.songs == h.player.songs
    ensures (exists k :: 0 <= k < |h.player.songs| && h.player.songs[k].id == id) ==>
      Playlist.GetCurrentSong(r.player).Some? && Playlist.GetCurrentSong(r.player).value.id == id
  {
    match Seqs.FindFirst(h.player.songs, (s: Song) => s.id == id)
      case None => h
      case Some(i) => HandleSongSelect(h, i)
  }

  /** From the start, every handler keeps the current page a page of the list, as long as
      page changes come from the page buttons (pages 1 to the page count). */
  lemma HandlersKeepPageInRange(h: Home, query: string, local: seq<Song>, results: Option<seq<Song>>,
                                popular: Option<seq<Song>>, page: int)
    requires h.pagination.itemsPerPage >= 1 && PageInRange(h.pagination)
    ensures PageInRange(HandleSearch(h, query, local, results).pagination)
    ensures PageInRange(HandleSearchClear(h, local, popular).pagination)
    ensures 1 <= page <= Max(1, h.pagination.totalPages) ==>
      PageInRange(HandlePageChange(h, page).pagination)
  {
  }

  lemma InitialPageInRange()
    ensures PageInRange(InitialHome.pagination) && InitialHome.pagination == PaginationState(1, 1, 10, 0)
  {
  }
}
