/** The song record shared by the backend and both front ends (types/index.ts), and the
    case-insensitive title/artist query filter used by the search endpoint, the legacy
    player's search box and the home page's search merge. */
module Songs {
  import opened Text
  import Seqs

  datatype Source = Static | Api

  /** A song; absent optional fields are `None` (Python `None`, TypeScript `undefined`). */
  datatype Song = Song(
    id: string,
    title: string,
    artist: string,
    duration: Option<real>,
    url: string,
    source: Source,
    thumbnail: Option<string>,
    album: Option<string>,
    year: Option<int>)

  /** The song's lower-cased title or artist contains `needle` (already lower-cased). */
  predicate MatchesLowered(song: Song, needle: string) {
    Contains(Lower(song.title), needle) || Contains(Lower(song.artist), needle)
  }

  /** The songs whose lower-cased title or artist contains the lower-cased query, in order. */
  function FilterByQuery(songs: seq<Song>, query: string): seq<Song> {
    Seqs.Filter(songs, (s: Song) => MatchesLowered(s, Lower(query)))
  }

  /** A song is kept exactly when it is in the list and its title or artist matches. */
  lemma FilterByQueryMembership(songs: seq<Song>, query: string, song: Song)
    ensures song in FilterByQuery(songs, query) <==>
      song in songs && (Contains(Lower(song.title), Lower(query)) || Contains(Lower(song.artist), Lower(query)))
  {
    Seqs.FilterMembership(songs, (s: Song) => MatchesLowered(s, Lower(query)), song);
  }

  /** The k-th kept song is the song at the k-th matching position of the list, and those
      positions ascend: the filter keeps the list's order. */
  lemma FilterByQueryOrder(songs: seq<Song>, query: string)
    ensures var ps := Seqs.Positions(songs, (s: Song) => MatchesLowered(s, Lower(query)));
      |FilterByQuery(songs, query)| == |ps| && Seqs.Increasing(ps) &&
      forall k :: 0 <= k < |ps| ==> ps[k] < |songs| && FilterByQuery(songs, query)[k] == songs[ps[k]]
  {
    Seqs.FilterAt(songs, (s: Song) => MatchesLowered(s, Lower(query)));
    Seqs.PositionsSpec(songs, (s: Song) => MatchesLowered(s, Lower(query)));
  }

  lemma ContainsEmpty(hay: string)
    ensures Contains(hay, "")
  {
    assert StartsWith(hay, "");
  }

  /** An empty query keeps every song. */
  lemma FilterByEmptyQuery(songs: seq<Song>)
    ensures FilterByQuery(songs, "") == songs
  {
    forall i | 0 <= i < |songs|
      ensures MatchesLowered(songs[i], Lower(""))
    {
      ContainsEmpty(Lower(songs[i].title));
    }
    Seqs.FilterKeepsAll(songs, (s: Song) => MatchesLowered(s, Lower("")));
  }
}
