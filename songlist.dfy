/** The song list component (components/SongList.tsx): the page of songs it shows, the
    index a click selects, the row of pagination buttons and the duration text. Rendering
    is a `View` value; the markup, styling and icons are left out. */
module SongList {
  import opened Text
  import opened Songs

  /** At most this many numbered page buttons. */
  const MaxVisiblePages := 5

  // ---------------------------------------------------------------- the page shown

  /** `startIndex`: the position in the whole list of the first song on the page. */
  function PageStart(currentPage: int, itemsPerPage: int): int {
    (currentPage - 1) * itemsPerPage
  }

  /** `songs.slice(startIndex, startIndex + itemsPerPage)`. */
  function PageSongs(songs: seq<Song>, currentPage: int, itemsPerPage: int): seq<Song> {
    var start := PageStart(currentPage, itemsPerPage);
    Slice(songs, start, start + itemsPerPage)
  }

  /** For a page number of at least 1, the page is the window of the list that starts at
      `startIndex`, at most `itemsPerPage` long and cut at the end of the list. */
  lemma PageWindow(songs: seq<Song>, currentPage: int, itemsPerPage: int)
    requires currentPage >= 1 && itemsPerPage >= 0
    ensures var page := PageSongs(songs, currentPage, itemsPerPage);
      var start := PageStart(currentPage, itemsPerPage);
      |page| <= itemsPerPage &&
      |page| == (if start >= |songs| then 0
                 else if start + itemsPerPage <= |songs| then itemsPerPage
                 else |songs| - start) &&
      forall j :: 0 <= j < |page| ==> 0 <= start + j < |songs| && page[j] == songs[start + j]
  {
    MulNonNegative(currentPage - 1, itemsPerPage);
    SliceWindow(songs, PageStart(currentPage, itemsPerPage), itemsPerPage);
  }

  /** `actualIndex`: the index in the whole list that a click on row `j` of the page
      selects. */
  function ActualIndex(currentPage: int, itemsPerPage: int, j: nat): int {
    PageStart(currentPage, itemsPerPage) + j
  }

  /** A click on a row selects exactly the song that row shows. */
  lemma ActualIndexSelectsShownSong(songs: seq<Song>, currentPage: int, itemsPerPage: int, j: nat)
    requires currentPage >= 1 && itemsPerPage >= 0
    requires j < |PageSongs(songs, currentPage, itemsPerPage)|
    ensures var i := ActualIndex(currentPage, itemsPerPage, j);
      0 <= i < |songs| && songs[i] == PageSongs(songs, currentPage, itemsPerPage)[j]
  {
    PageWindow(songs, currentPage, itemsPerPage);
  }

  // ---------------------------------------------------------------- duration text

  /** `formatDuration(seconds)`: nothing for a missing or zero duration, "m:ss" otherwise. */
  function FormatDuration(seconds: Option<real>): string
    requires seconds.Some? ==> seconds.value >= 0.0
  {
    match seconds
      case None => ""
      case Some(s) => if s == 0.0 then "" else ClockOf(s)
  }

  /** The text is empty exactly for a missing or zero duration; otherwise it is the
      "m:ss" clock of the whole seconds and reads back to them. */
  lemma FormatDurationSpec(seconds: Option<real>)
    requires seconds.Some? ==> seconds.value >= 0.0
    ensures FormatDuration(seconds) == "" <==> seconds.None? || seconds.value == 0.0
    ensures seconds.Some? && seconds.value > 0.0 ==>
      FormatDuration(seconds) == Clock(seconds.value.Floor) &&
      ParseClock(FormatDuration(seconds)) == Some(seconds.value.Floor)
  {
    if seconds.Some? && seconds.value > 0.0 {
      ClockOfIsClock(seconds.value);
    }
  }

  // ---------------------------------------------------------------- pagination buttons

  datatype Button =
    | PrevButton(target: int)
    | PageButton(page: int, current: bool)
    | NextButton(target: int)

  /** The first and last numbered page of `renderPagination`: up to two pages either side
      of the current one, shifted left when the right end is cut by the page count. */
  function Window(currentPage: int, totalPages: int): (int, int) {
    var start := Max(1, currentPage - MaxVisiblePages / 2);
    var end := Min(totalPages, start + MaxVisiblePages - 1);
    if end - start < MaxVisiblePages - 1 then (Max(1, end - MaxVisiblePages + 1), end) else (start, end)
  }

  /** The numbered buttons from `lo` to `hi`, the current page marked. */
  function PageButtons(lo: int, hi: int, currentPage: int): seq<Button> {
    seq(Max(0, hi - lo + 1), k => PageButton(lo + k, lo + k == currentPage))
  }

  /** Every button `renderPagination` returns, left to right. */
  function Buttons(currentPage: int, totalPages: int): seq<Button> {
    var (lo, hi) := Window(currentPage, totalPages);
    (if currentPage > 1 then [PrevButton(currentPage - 1)] else []) +
    PageButtons(lo, hi, currentPage) +
    (if currentPage < totalPages then [NextButton(currentPage + 1)] else [])
  }

  /** `renderPagination()`, step by step as the component builds its array. */
  method RenderPagination(currentPage: int, totalPages: int) returns (pages: seq<Button>)
    ensures pages == Buttons(currentPage, totalPages)
  {
    pages := [];
    var startPage := Max(1, currentPage - MaxVisiblePages / 2);
    var endPage := Min(totalPages, startPage + MaxVisiblePages - 1);
    if endPage - startPage < MaxVisiblePages - 1 {
      startPage := Max(1, endPage - MaxVisiblePages + 1);
    }
    assert (startPage, endPage) == Window(currentPage, totalPages);
    if currentPage > 1 {
      pages := pages + [PrevButton(currentPage - 1)];
    }
    pages := PushPageButtons(pages, startPage, endPage, currentPage);
    if currentPage < totalPages {
      pages := pages + [NextButton(currentPage + 1)];
    }
  }

  /** The `for` loop of `renderPagination`: pushes the numbered buttons from `lo` to `hi`. */
  method PushPageButtons(before: seq<Button>, lo: int, hi: int, currentPage: int) returns (pages: seq<Button>)
    ensures pages == before + PageButtons(lo, hi, currentPage)
  {
    pages := before;
    var i := lo;
    while i <= hi
      invariant lo <= i <= Max(lo, hi + 1)
      invariant pages == before + PageButtons(lo, i - 1, currentPage)
    {
      PageButtonsSnoc(lo, i, currentPage);
      pages := pages + [PageButton(i, i == currentPage)];
      i := i + 1;
    }
  }

  lemma PageButtonsSnoc(lo: int, hi: int, currentPage: int)
    requires lo <= hi
    ensures PageButtons(lo, hi, currentPage) ==
      PageButtons(lo, hi - 1, currentPage) + [PageButton(hi, hi == currentPage)]
  {
    var a := PageButtons(lo, hi, currentPage);
    var b := PageButtons(lo, hi - 1, currentPage) + [PageButton(hi, hi == currentPage)];
    assert |a| == |b|;
    forall k | 0 <= k < |a| ensures a[k] == b[k] { }
  }

  /** The numbered pages are consecutive, lie inside [1, totalPages] and number at most
      five; for a current page inside [1, totalPages] they include it and number
      min(5, totalPages), and away from the ends they are centred on it. */
  lemma WindowShape(currentPage: int, totalPages: int)
    ensures var (lo, hi) := Window(currentPage, totalPages);
      var nums := PageButtons(lo, hi, currentPage);
      1 <= lo && hi <= totalPages && |nums| <= MaxVisiblePages &&
      (forall k :: 0 <= k < |nums| ==> nums[k].page == lo + k && 1 <= nums[k].page <= totalPages)
    ensures var (lo, hi) := Window(currentPage, totalPages);
      1 <= currentPage <= totalPages ==>
        lo <= currentPage <= hi && hi - lo + 1 == Min(MaxVisiblePages, totalPages)
    ensures 3 <= currentPage <= totalPages - 2 ==>
      Window(currentPage, totalPages) == (currentPage - 2, currentPage + 2)
  {
  }

  /** A previous-page button, aimed at the page before, exists exactly when the current
      page is past the first; a next-page button, aimed at the page after, exactly when it
      is before the last; every numbered button is a real page, marked exactly when it is
      the current one, and the current page has its button. */
  lemma ButtonsSpec(currentPage: int, totalPages: int)
    ensures var r := Buttons(currentPage, totalPages);
      (PrevButton(currentPage - 1) in r <==> currentPage > 1) &&
      (forall b :: b in r && b.PrevButton? ==> b.target == currentPage - 1)
    ensures var r := Buttons(currentPage, totalPages);
      (NextButton(currentPage + 1) in r <==> currentPage < totalPages) &&
      (forall b :: b in r && b.NextButton? ==> b.target == currentPage + 1)
    ensures var r := Buttons(currentPage, totalPages);
      forall b :: b in r && b.PageButton? ==>
        1 <= b.page <= totalPages && (b.current <==> b.page == currentPage)
    ensures 1 <= currentPage <= totalPages ==>
      PageButton(currentPage, true) in Buttons(currentPage, totalPages)
  {
    var (lo, hi) := Window(currentPage, totalPages);
    var pre := if currentPage > 1 then [PrevButton(currentPage - 1)] else [];
    var nums := PageButtons(lo, hi, currentPage);
    var post := if currentPage < totalPages then [NextButton(currentPage + 1)] else [];
    var r := Buttons(currentPage, totalPages);
    assert r == pre + nums + post;
    WindowShape(currentPage, totalPages);
    forall b | b in r
      ensures b.PrevButton? ==> b in pre
      ensures b.NextButton? ==> b in post
      ensures b.PageButton? ==> b in nums
    {
    }
    if 1 <= currentPage <= totalPages {
      assert nums[currentPage - lo] == PageButton(currentPage, true);
    }
  }

  // ---------------------------------------------------------------- the view

  /** One row of the list: the song, the index a click selects and whether it is the song
      now playing (same id). */
  datatype Row = Row(song: Song, index: int, highlighted: bool)

  datatype View =
    | Loading
    | NoSongsFound
    | Listing(total: nat, rows: seq<Row>, pagination: Option<seq<Button>>)

  /** What the component renders: the loading state first, then "No songs found" for an
      empty list, otherwise the page's rows and, when there is more than one page, the
      pagination bar. */
  function Render(songs: seq<Song>, currentSong: Option<Song>, currentPage: int, totalPages: int,
                  itemsPerPage: int, isLoading: bool): (v: View)
    ensures v.Loading? <==> isLoading
    ensures v.NoSongsFound? <==> !isLoading && songs == []
    ensures v.Listing? ==>
      && v.total == |songs|
      && (v.pagination.Some? <==> totalPages > 1)
      && (v.pagination.Some? ==> v.pagination.value == Buttons(currentPage, totalPages))
  {
    if isLoading then Loading
    else if |songs| == 0 then NoSongsFound
    else
      var page := PageSongs(songs, currentPage, itemsPerPage);
      Listing(|songs|,
              seq(|page|, j requires 0 <= j < |page| =>
                Row(page[j], ActualIndex(currentPage, itemsPerPage, j),
                    currentSong.Some? && currentSong.value.id == page[j].id)),
              if totalPages > 1 then Some(Buttons(currentPage, totalPages)) else None)
  }

  /** Every row selects the song it shows, the rows are the page in order, and a row is
      highlighted exactly when its song has the id of the song now playing. */
  lemma RowsSelectShownSongs(songs: seq<Song>, currentSong: Option<Song>, currentPage: int,
                             totalPages: int, itemsPerPage: int)
    requires currentPage >= 1 && itemsPerPage >= 0 && songs != []
    ensures var v := Render(songs, currentSong, currentPage, totalPages, itemsPerPage, false);
      v.Listing? &&
      |v.rows| == |PageSongs(songs, currentPage, itemsPerPage)| &&
      forall j :: 0 <= j < |v.rows| ==>
        0 <= v.rows[j].index < |songs| && songs[v.rows[j].index] == v.rows[j].song &&
        v.rows[j].song == PageSongs(songs, currentPage, itemsPerPage)[j] &&
        (v.rows[j].highlighted <==> currentSong.Some? && currentSong.value.id == v.rows[j].song.id)
  {
    PageWindow(songs, currentPage, itemsPerPage);
  }
}
