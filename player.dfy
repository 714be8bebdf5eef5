/** The legacy page player (static/js/player.js, class `MusicPlayer`): its fields, the
    selection and wrap-around navigation, the play/pause/error events, the time display and
    the search box. DOM updates are left out; what the player asks of the `<audio>` element
    is returned as an `AudioCommand`. */
module LegacyPlayer {
  import opened Text
  import opened Songs
  import Seqs
  import Endpoints

  /** What a method asks of the audio element. */
  datatype AudioCommand = NoCommand | Load(src: string) | Pause | Resume

  /** The index after `i` in a list of `n` songs, as `nextSong` computes it: one more,
      wrapping to 0 after the last. */
  function NextIndex(i: int, n: nat): int {
    if i + 1 >= n then 0 else i + 1
  }

  /** The index before `i`, as `previousSong` computes it: one less, wrapping to the last. */
  function PrevIndex(i: int, n: nat): int {
    if i - 1 < 0 then n - 1 else i - 1
  }

  /** From any index at least -1 (no selection), `nextSong` lands inside the list: -1 goes
      to 0 and the last song goes to 0. */
  lemma NextIndexInRange(i: int, n: nat)
    requires n > 0 && i >= -1
    ensures 0 <= NextIndex(i, n) < n
    ensures i == -1 ==> NextIndex(i, n) == 0
    ensures i == n - 1 ==> NextIndex(i, n) == 0
    ensures 0 <= i < n - 1 ==> NextIndex(i, n) == i + 1
  {
  }

  /** From no selection or a valid index, `previousSong` lands inside the list: both 0 and
      -1 go to the last song. */
  lemma PrevIndexInRange(i: int, n: nat)
    requires n > 0 && -1 <= i <= n
    ensures 0 <= PrevIndex(i, n) < n
    ensures i <= 0 ==> PrevIndex(i, n) == n - 1
    ensures 0 < i <= n ==> PrevIndex(i, n) == i - 1
  {
  }

  /** On a valid index, next and previous undo each other. */
  lemma NextPrevInverse(i: int, n: nat)
    requires 0 <= i < n
    ensures PrevIndex(NextIndex(i, n), n) == i
    ensures NextIndex(PrevIndex(i, n), n) == i
  {
  }

  /** The audio source of a song. The source writes `/songs/${song.filename}`, a field no
      song record has; the model loads the song's own URL (see `AudioSrcAsWritten`). */
  function AudioSrc(song: Song): string {
    song.url
  }

  /** `/songs/${song.filename}` as written: `filename` is undefined on every record. */
  function AudioSrcAsWritten(song: Song): string {
    "/songs/" + "undefined"
  }

  /** As written, every song gets the same source, so two songs with different URLs cannot
      both be played. */
  lemma AudioSrcAsWrittenCollides(a: Song, b: Song)
    requires a.url != b.url
    ensures AudioSrcAsWritten(a) == AudioSrcAsWritten(b) == "/songs/undefined"
    ensures AudioSrc(a) != AudioSrc(b)
  {
  }

  /** `formatTime`'s argument: a media time that is NaN, infinite (a stream's duration), or
      a finite non-negative number of seconds. */
  datatype MediaTime = NaN | Infinite | Finite(seconds: real)

  /** `formatTime(seconds)`. */
  function FormatTime(t: MediaTime): string
    requires t.Finite? ==> t.seconds >= 0.0
  {
    match t
      case NaN => "0:00"
      case Infinite => "Infinity:NaN"
      case Finite(s) => ClockOf(s)
  }

  /** A finite time is shown as whole minutes, a colon and the whole seconds left over, two
      digits wide: the "m:ss" clock of its whole seconds, which can be read back. */
  lemma FormatTimeIsClock(s: real)
    requires s >= 0.0
    ensures FormatTime(Finite(s)) == Clock(s.Floor)
    ensures ParseClock(FormatTime(Finite(s))) == Some(s.Floor)
  {
    ClockOfIsClock(s);
  }

  /** The songs the search box shows for an input: those whose lower-cased title or artist
      contains the input lower-cased and then trimmed. */
  function SearchFilter(songs: seq<Song>, input: string): seq<Song> {
    Seqs.Filter(songs, Shown(input))
  }

  /** The search box's row test for an input. */
  function Shown(input: string): Song -> bool {
    (s: Song) => MatchesLowered(s, Trim(Lower(input)))
  }

  lemma LowerKeepsJsSpace(s: string)
    requires AllSpace(s, IsJsSpace)
    ensures AllSpace(Lower(s), IsJsSpace)
  {
    assert forall i :: 0 <= i < |s| ==> Lower(s)[i] == s[i];
  }

  /** A blank input shows every song; otherwise a song is shown exactly when it is loaded
      and matches. */
  lemma SearchFilterSpec(songs: seq<Song>, input: string, song: Song)
    ensures AllSpace(input, IsJsSpace) ==> SearchFilter(songs, input) == songs
    ensures song in SearchFilter(songs, input) <==>
      song in songs && MatchesLowered(song, Trim(Lower(input)))
  {
    var p := Shown(input);
    Seqs.FilterMembership(songs, p, song);
    if AllSpace(input, IsJsSpace) {
      LowerKeepsJsSpace(input);
      TrimEmpty(Lower(input));
      forall i | 0 <= i < |songs|
        ensures p(songs[i])
      {
        ContainsEmpty(Lower(songs[i].title));
      }
      Seqs.FilterKeepsAll(songs, p);
    }
  }

  /** A click on row `j` of the filtered list, as written: `playSong(j)` on the full list. */
  function ClickTargetAsWritten(songs: seq<Song>, input: string, j: nat): int {
    j
  }

  /** The index in the full list of the song shown on row `j` of the filtered list. */
  function ClickTarget(songs: seq<Song>, input: string, j: nat): int
    requires j < |SearchFilter(songs, input)|
  {
    Seqs.FilterAt(songs, Shown(input));
    Seqs.Positions(songs, Shown(input))[j]
  }

  /** The corrected click plays exactly the song shown on the clicked row. */
  lemma ClickTargetPlaysShownSong(songs: seq<Song>, input: string, j: nat)
    requires j < |SearchFilter(songs, input)|
    ensures 0 <= ClickTarget(songs, input, j) < |songs|
    ensures songs[ClickTarget(songs, input, j)] == SearchFilter(songs, input)[j]
  {
    Seqs.FilterAt(songs, Shown(input));
  }

  /** As written, a click can play another song than the one shown: with two songs where
      only the second matches "b", row 0 shows the second song but index 0 is the first. */
  lemma ClickTargetAsWrittenMisses(a: Song, b: Song)
    requires a.title == "a" && a.artist == "a" && b.title == "b" && b.artist == "b"
    ensures SearchFilter([a, b], "b") == [b]
    ensures [a, b][ClickTargetAsWritten([a, b], "b", 0)] == a != b
  {
    var p := Shown("b");
    assert Trim(Lower("b")) == "b" by {
      assert Lower("b") == "b";
      assert !IsJsSpace('b');
    }
    assert !Contains("a", "b") by {
      assert !StartsWith("a", "b");
      assert !Contains("a"[1..], "b") by {
        assert "a"[1..] == "";
      }
    }
    assert Contains("b", "b") by {
      assert StartsWith("b", "b");
    }
    assert Lower("a") == "a";
    assert !p(a) && p(b);
    assert [a, b][..1] == [a];
    assert [a][..0] == [];
    assert Seqs.Filter([a], p) == [];
    assert Seqs.Filter([a, b], p) == Seqs.Filter([a], p) + [b];
  }

  /** What `this.songs` holds: a song array, or the whole `/api/songs` body, an object with
      no `length` and no numbered entries. */
  datatype Held = SongArray(items: seq<Song>) | BodyObject(body: Endpoints.SongsResponse)

  /** `this.songs = await response.json()` as written: a successful reply's body is stored
      whole; a failed one throws before the assignment and keeps what was held. */
  function LoadedAsWritten(prior: Held, reply: Endpoints.SongsResponse): Held {
    if reply.SongsPage? then BodyObject(reply) else prior
  }

  /** The list `loadSongs` evidently means to keep: the reply's `songs` array. */
  function Loaded(prior: seq<Song>, reply: Endpoints.SongsResponse): seq<Song> {
    if reply.SongsPage? then reply.songs else prior
  }

  /** `this.songs.length`: undefined on an object. */
  function LengthOf(held: Held): Option<nat> {
    match held
      case SongArray(items) => Some(|items|)
      case BodyObject(_) => None
  }

  /** What `playSong(index)` does with what is held. */
  datatype PlayOutcome = Ignored | Throws | Plays(song: Song)

  /** On an object, `index >= this.songs.length` compares with undefined and is false, so
      every index from 0 on goes on to read `.filename` of an undefined song and throws. */
  function PlaySongOn(held: Held, index: int): PlayOutcome {
    match held
      case SongArray(items) => if index < 0 || index >= |items| then Ignored else Plays(items[index])
      case BodyObject(_) => if index < 0 then Ignored else Throws
  }

  /** Whether `renderSongList` gets through `songsToRender.map`: an object has no `map`. */
  predicate RendersOn(held: Held) {
    held.SongArray?
  }

  /** Whether `togglePlayPause` with no selection starts the first song:
      `this.songs.length > 0`, which is false for undefined. */
  predicate ToggleStartsOn(held: Held) {
    LengthOf(held).Some? && LengthOf(held).value > 0
  }

  /** As written, after a successful load the player can play nothing: the list does not
      render, the play button starts nothing, and `playSong` ignores or throws on every
      index, even when the reply carries songs. */
  lemma LoadedAsWrittenPlaysNothing(prior: Held, reply: Endpoints.SongsResponse, index: int)
    requires reply.SongsPage? && reply.songs != []
    ensures var held := LoadedAsWritten(prior, reply);
      !RendersOn(held) && !ToggleStartsOn(held) && !PlaySongOn(held, index).Plays?
  {
  }

  /** With the reply's `songs` array kept, the list renders, the play button starts the
      first song, and `playSong` plays exactly the song at each index of the reply. */
  lemma LoadedPlaysReplySongs(prior: seq<Song>, reply: Endpoints.SongsResponse, index: int)
    requires reply.SongsPage? && reply.songs != []
    ensures var held := SongArray(Loaded(prior, reply));
      RendersOn(held) && ToggleStartsOn(held) &&
      (0 <= index < |reply.songs| ==> PlaySongOn(held, index) == Plays(reply.songs[index])) &&
      (!(0 <= index < |reply.songs|) ==> PlaySongOn(held, index) == Ignored)
  {
  }

  class MusicPlayer {
    var songs: seq<Song>
    var currentSongIndex: int
    var isPlaying: bool
    var volume: real
    var audioSrc: string

    /** No selection (-1) or a valid index into the loaded songs. */
    predicate Valid()
      reads this
    {
      -1 <= currentSongIndex < |songs|
    }

    constructor ()
      ensures Valid()
      ensures songs == [] && currentSongIndex == -1 && !isPlaying && volume == 0.7 && audioSrc == ""
    {
      songs := [];
      currentSongIndex := -1;
      isPlaying := false;
      volume := 0.7;
      audioSrc := "";
    }

    /** `loadSongs`, run once by the constructor before anything is selected, keeping the
        reply's `songs` array (see `LoadedAsWritten`); a failed reply keeps the list. Only
        the list changes. */
    method LoadSongs(reply: Endpoints.SongsResponse)
      requires Valid() && currentSongIndex == -1
      modifies this
      ensures Valid()
      ensures songs == Loaded(old(songs), reply)
      ensures currentSongIndex == old(currentSongIndex) && isPlaying == old(isPlaying)
      ensures volume == old(volume) && audioSrc == old(audioSrc)
    {
      if reply.SongsPage? {
        songs := reply.songs;
      }
    }

    /** `playSong(index)`: out of range nothing changes; otherwise the song is selected and
        its source loaded and played. */
    method PlaySong(index: int) returns (cmd: AudioCommand)
      requires Valid()
      modifies this
      ensures Valid()
      ensures songs == old(songs) && isPlaying == old(isPlaying) && volume == old(volume)
      ensures !(0 <= index < |songs|) ==>
        cmd == NoCommand && currentSongIndex == old(currentSongIndex) && audioSrc == old(audioSrc)
      ensures 0 <= index < |songs| ==>
        currentSongIndex == index && audioSrc == AudioSrc(songs[index]) && cmd == Load(audioSrc)
    {
      if index < 0 || index >= |songs| {
        return NoCommand;
      }
      currentSongIndex := index;
      audioSrc := AudioSrc(songs[index]);
      cmd := Load(audioSrc);
    }

    /** `togglePlayPause`: with no selection it plays the first song if there is one;
        otherwise it pauses a playing song and resumes a paused one. */
    method TogglePlayPause() returns (cmd: AudioCommand)
      requires Valid()
      modifies this
      ensures Valid()
      ensures songs == old(songs) && isPlaying == old(isPlaying) && volume == old(volume)
      ensures old(currentSongIndex) == -1 && |songs| > 0 ==>
        currentSongIndex == 0 && cmd == Load(AudioSrc(songs[0])) && audioSrc == AudioSrc(songs[0])
      ensures old(currentSongIndex) == -1 && |songs| == 0 ==>
        currentSongIndex == -1 && cmd == NoCommand && audioSrc == old(audioSrc)
      ensures old(currentSongIndex) != -1 ==>
        currentSongIndex == old(currentSongIndex) && audioSrc == old(audioSrc) &&
        cmd == (if isPlaying then Pause else Resume)
    {
      if currentSongIndex == -1 {
        cmd := NoCommand;
        if |songs| > 0 {
          cmd := PlaySong(0);
        }
        return;
      }
      cmd := if isPlaying then Pause else Resume;
    }

    /** `previousSong`: nothing on an empty list; otherwise the previous index, wrapping. */
    method PreviousSong() returns (cmd: AudioCommand)
      requires Valid()
      modifies this
      ensures Valid()
      ensures songs == old(songs) && isPlaying == old(isPlaying) && volume == old(volume)
      ensures |songs| == 0 ==> currentSongIndex == old(currentSongIndex) && cmd == NoCommand
      ensures |songs| > 0 ==>
        currentSongIndex == PrevIndex(old(currentSongIndex), |songs|) &&
        cmd == Load(AudioSrc(songs[currentSongIndex]))
    {
      if |songs| == 0 {
        return NoCommand;
      }
      var newIndex := currentSongIndex - 1;
      if newIndex < 0 {
        newIndex := |songs| - 1;
      }
      cmd := PlaySong(newIndex);
    }

    /** `nextSong` (also run when a song ends): nothing on an empty list; otherwise the next
        index, wrapping. */
    method NextSong() returns (cmd: AudioCommand)
      requires Valid()
      modifies this
      ensures Valid()
      ensures songs == old(songs) && isPlaying == old(isPlaying) && volume == old(volume)
      ensures |songs| == 0 ==> currentSongIndex == old(currentSongIndex) && cmd == NoCommand
      ensures |songs| > 0 ==>
        currentSongIndex == NextIndex(old(currentSongIndex), |songs|) &&
        cmd == Load(AudioSrc(songs[currentSongIndex]))
    {
      if |songs| == 0 {
        return NoCommand;
      }
      var newIndex := currentSongIndex + 1;
      if newIndex >= |songs| {
        newIndex := 0;
      }
      cmd := PlaySong(newIndex);
    }

    /** The audio element's `play` event. */
    method OnPlay()
      requires Valid()
      modifies this
      ensures Valid()
      ensures isPlaying
      ensures songs == old(songs) && currentSongIndex == old(currentSongIndex)
      ensures volume == old(volume) && audioSrc == old(audioSrc)
    {
      isPlaying := true;
    }

    /** The audio element's `pause` event. */
    method OnPause()
      requires Valid()
      modifies this
      ensures Valid()
      ensures !isPlaying
      ensures songs == old(songs) && currentSongIndex == old(currentSongIndex)
      ensures volume == old(volume) && audioSrc == old(audioSrc)
    {
      isPlaying := false;
    }

    /** The audio element's `error` event. */
    method OnError()
      requires Valid()
      modifies this
      ensures Valid()
      ensures !isPlaying
      ensures songs == old(songs) && currentSongIndex == old(currentSongIndex)
      ensures volume == old(volume) && audioSrc == old(audioSrc)
    {
      isPlaying := false;
    }

    /** The search box's `input` handler: it only computes the rows to show. */
    method Search(input: string) returns (shown: seq<Song>)
      ensures shown == SearchFilter(songs, input)
      ensures |shown| <= |songs|
    {
      var query := Trim(Lower(input));
      shown := [];
      var i := 0;
      while i < |songs|
        invariant 0 <= i <= |songs|
        invariant shown == Seqs.Filter(songs[..i], Shown(input))
      {
        assert songs[..i + 1][..i] == songs[..i];
        if MatchesLowered(songs[i], query) {
          assert Shown(input)(songs[i]);
          shown := shown + [songs[i]];
        }
        i := i + 1;
      }
      assert songs[..i] == songs;
    }

    /** A click on row `j` of the filtered list, with the corrected index. */
    method ClickSearchResult(input: string, j: nat) returns (cmd: AudioCommand)
      requires Valid() && j < |SearchFilter(songs, input)|
      modifies this
      ensures Valid()
      ensures songs == old(songs) && isPlaying == old(isPlaying) && volume == old(volume)
      ensures 0 <= currentSongIndex < |songs|
      ensures songs[currentSongIndex] == SearchFilter(songs, input)[j]
      ensures cmd == Load(AudioSrc(songs[currentSongIndex]))
    {
      ClickTargetPlaysShownSong(songs, input, j);
      cmd := PlaySong(ClickTarget(songs, input, j));
    }
  }
}
