/** The playlist state of the React hook `useMusicPlayer` (hooks/useMusicPlayer.ts). Each
    transition is a record update `setPlaylist(prev => ({...prev, ...}))`, so each is a
    function from the old `PlaylistState` to the new one. The `<audio>` element is not state
    here: what the hook asks of it is left out, except that a replay on `ended` is reported.
    `Math.random()` is a `pick` parameter, and `audio.play()` succeeding is a parameter. */
module Playlist {
  import opened Text
  import opened Songs

  datatype PlaylistState = PlaylistState(
    songs: seq<Song>,
    currentIndex: int,
    isPlaying: bool,
    volume: real,
    currentTime: real,
    duration: real,
    isShuffled: bool,
    isRepeating: bool)

  /** The state the hook starts from. */
  const Initial := PlaylistState([], 0, false, 1.0, 0.0, 0.0, false, false)

  /** What every transition keeps: the index is 0 on an empty list and inside the list
      otherwise, and the volume lies in [0, 1]. */
  predicate Valid(s: PlaylistState) {
    0 <= s.currentIndex &&
    (s.songs == [] ==> s.currentIndex == 0) &&
    (s.songs != [] ==> s.currentIndex < |s.songs|) &&
    0.0 <= s.volume <= 1.0
  }

  lemma InitialValid()
    ensures Valid(Initial) && GetCurrentSong(Initial).None?
    ensures Initial.songs == [] && !Initial.isPlaying && Initial.volume == 1.0
    ensures !Initial.isShuffled && !Initial.isRepeating
  {
  }

  // ---------------------------------------------------------------- reading the state

  /** `getCurrentSong()`: `songs[currentIndex] || null`; every song object is truthy, so
      the answer is null exactly when the index is outside the list. */
  function GetCurrentSong(s: PlaylistState): (r: Option<Song>)
    ensures r.Some? <==> 0 <= s.currentIndex < |s.songs|
    ensures r.Some? ==> r.value == s.songs[s.currentIndex] && r.value in s.songs
    ensures Valid(s) ==> (r.Some? <==> s.songs != [])
  {
    if 0 <= s.currentIndex < |s.songs| then Some(s.songs[s.currentIndex]) else None
  }

  /** The effect that loads the current song: with a non-empty list and a song at the
      index, the audio source becomes that song's URL. */
  function AudioSource(s: PlaylistState): (r: Option<string>)
    ensures r.Some? <==> GetCurrentSong(s).Some?
    ensures r.Some? ==> r.value == GetCurrentSong(s).value.url
  {
    if |s.songs| > 0 && 0 <= s.currentIndex < |s.songs| then Some(s.songs[s.currentIndex].url)
    else None
  }

  // ---------------------------------------------------------------- navigation

  /** `playNext()`: nothing on an empty list; otherwise a random index when shuffling, the
      next one (JavaScript `%`) when not, and the time back to 0. */
  function PlayNext(s: PlaylistState, pick: nat): (r: PlaylistState)
    ensures s.songs == [] ==> r == s
    ensures s.songs != [] ==> r == s.(currentIndex := r.currentIndex, currentTime := 0.0)
    ensures s.songs != [] && Valid(s) ==> 0 <= r.currentIndex < |s.songs|
    ensures !s.isShuffled && 0 <= s.currentIndex < |s.songs| ==>
      r.currentIndex == (if s.currentIndex == |s.songs| - 1 then 0 else s.currentIndex + 1)
  {
    if |s.songs| > 0 then
      var next := if s.isShuffled then pick % |s.songs| else JsRem(s.currentIndex + 1, |s.songs|);
      s.(currentIndex := next, currentTime := 0.0)
    else s
  }

  /** `playPrevious()`: nothing on an empty list; otherwise a random index when shuffling,
      the previous one (wrapping from 0 to the last) when not, and the time back to 0. */
  function PlayPrevious(s: PlaylistState, pick: nat): (r: PlaylistState)
    ensures s.songs == [] ==> r == s
    ensures s.songs != [] ==> r == s.(currentIndex := r.currentIndex, currentTime := 0.0)
    ensures s.songs != [] && Valid(s) ==> 0 <= r.currentIndex < |s.songs|
    ensures !s.isShuffled && 0 <= s.currentIndex < |s.songs| ==>
      r.currentIndex == (if s.currentIndex == 0 then |s.songs| - 1 else s.currentIndex - 1)
  {
    if |s.songs| > 0 then
      var prev := if s.isShuffled then pick % |s.songs|
                  else if s.currentIndex - 1 < 0 then |s.songs| - 1 else s.currentIndex - 1;
      s.(currentIndex := prev, currentTime := 0.0)
    else s
  }

  /** Without shuffle, next and previous undo each other (up to the time, which both reset). */
  lemma NextPreviousInverse(s: PlaylistState, p: nat, q: nat)
    requires Valid(s) && s.songs != [] && !s.isShuffled
    ensures PlayPrevious(PlayNext(s, p), q) == s.(currentTime := 0.0)
    ensures PlayNext(PlayPrevious(s, p), q) == s.(currentTime := 0.0)
  {
  }

  /** With shuffle, every song of the list can be drawn, by next and by previous. */
  lemma ShuffleCovers(s: PlaylistState, k: nat)
    requires s.isShuffled && k < |s.songs|
    ensures PlayNext(s, k).currentIndex == k && PlayPrevious(s, k).currentIndex == k
  {
    assert k % |s.songs| == k;
  }

  /** `playSong(index)`: an index inside the list becomes current, playing from 0; any
      other index changes nothing. */
  function PlaySong(s: PlaylistState, index: int): (r: PlaylistState)
    ensures 0 <= index < |s.songs| ==>
      r == s.(currentIndex := index, currentTime := 0.0) && GetCurrentSong(r) == Some(s.songs[index])
    ensures !(0 <= index < |s.songs|) ==> r == s
  {
    if index >= 0 && index < |s.songs| then s.(currentIndex := index, currentTime := 0.0) else s
  }

  // ---------------------------------------------------------------- playback

  /** `play()`: with a non-empty list, `isPlaying` becomes true once `audio.play()`
      resolves; a rejected promise changes no playlist field. */
  function Play(s: PlaylistState, resolves: bool): (r: PlaylistState)
    ensures r.isPlaying <==> s.isPlaying || (resolves && s.songs != [])
    ensures r.(isPlaying := s.isPlaying) == s
  {
    if |s.songs| > 0 && resolves then s.(isPlaying := true) else s
  }

  /** `pause()`. */
  function Pause(s: PlaylistState): (r: PlaylistState)
    ensures !r.isPlaying && r.(isPlaying := s.isPlaying) == s
  {
    s.(isPlaying := false)
  }

  /** `togglePlayPause()`: pauses a playing list and tries to play otherwise. */
  function TogglePlayPause(s: PlaylistState, resolves: bool): (r: PlaylistState)
    ensures s.isPlaying ==> !r.isPlaying
    ensures !s.isPlaying ==> (r.isPlaying <==> resolves && s.songs != [])
    ensures r.(isPlaying := s.isPlaying) == s
  {
    if s.isPlaying then Pause(s) else Play(s, resolves)
  }

  // ---------------------------------------------------------------- settings

  /** `Math.max(0, Math.min(1, volume))`. */
  function ClampVolume(v: real): (c: real)
    ensures 0.0 <= c <= 1.0
    ensures 0.0 <= v <= 1.0 ==> c == v
    ensures v < 0.0 ==> c == 0.0
    ensures v > 1.0 ==> c == 1.0
  {
    if v < 0.0 then 0.0 else if v > 1.0 then 1.0 else v
  }

  /** `setVolume(volume)`: stores the clamped volume and changes nothing else. */
  function SetVolume(s: PlaylistState, v: real): (r: PlaylistState)
    ensures 0.0 <= r.volume <= 1.0
    ensures r.(volume := s.volume) == s
    ensures 0.0 <= v <= 1.0 ==> r.volume == v
  {
    s.(volume := ClampVolume(v))
  }

  /** Setting the same volume twice is setting it once, and setting the volume just read
      back changes nothing. */
  lemma SetVolumeIdempotent(s: PlaylistState, v: real)
    ensures SetVolume(SetVolume(s, v), v) == SetVolume(s, v)
    ensures var t := SetVolume(s, v); SetVolume(t, t.volume) == t
  {
  }

  /** `toggleShuffle()`: flips only the shuffle flag. */
  function ToggleShuffle(s: PlaylistState): (r: PlaylistState)
    ensures r.isShuffled == !s.isShuffled && r.(isShuffled := s.isShuffled) == s
  {
    s.(isShuffled := !s.isShuffled)
  }

  /** `toggleRepeat()`: flips only the repeat flag. */
  function ToggleRepeat(s: PlaylistState): (r: PlaylistState)
    ensures r.isRepeating == !s.isRepeating && r.(isRepeating := s.isRepeating) == s
  {
    s.(isRepeating := !s.isRepeating)
  }

  /** Each toggle undoes itself, and the two commute. */
  lemma TogglesInvolutive(s: PlaylistState)
    ensures ToggleShuffle(ToggleShuffle(s)) == s
    ensures ToggleRepeat(ToggleRepeat(s)) == s
    ensures ToggleShuffle(ToggleRepeat(s)) == ToggleRepeat(ToggleShuffle(s))
  {
  }

  // ---------------------------------------------------------------- the list

  /** `setSongs(songs, autoPlay)`: the list is replaced and playback restarts at its first
      song, from 0; volume, playing state and the flags are kept. The second component says
      whether a `play()` is scheduled. */
  function SetSongs(s: PlaylistState, songs: seq<Song>, autoPlay: bool): (r: (PlaylistState, bool))
    ensures r.0.songs == songs && r.0.currentIndex == 0 && r.0.currentTime == 0.0
    ensures r.0.isPlaying == s.isPlaying && r.0.volume == s.volume && r.0.duration == s.duration
    ensures r.0.isShuffled == s.isShuffled && r.0.isRepeating == s.isRepeating
    ensures r.1 <==> autoPlay && songs != []
    ensures songs != [] ==> GetCurrentSong(r.0) == Some(songs[0])
  {
    (s.(songs := songs, currentIndex := 0, currentTime := 0.0), autoPlay && |songs| > 0)
  }

  /** `addSongs(songs)`: the new songs go after the old ones, which keep their places, and
      the position in the list is kept. */
  function AddSongs(s: PlaylistState, more: seq<Song>): (r: PlaylistState)
    ensures |r.songs| == |s.songs| + |more|
    ensures r.songs[..|s.songs|] == s.songs && r.songs[|s.songs|..] == more
    ensures r.(songs := s.songs) == s
    ensures GetCurrentSong(s).Some? ==> GetCurrentSong(r) == GetCurrentSong(s)
  {
    s.(songs := s.songs + more)
  }

  // ---------------------------------------------------------------- audio events

  /** The audio element events the hook listens to that touch the playlist. A duration
      that is NaN is `None`. */
  datatype AudioEvent = Ended | Error | TimeUpdate(time: real) | DurationChange(duration: Option<real>)

  /** The new state after an audio event, and whether the hook restarts the audio element
      (`ended` while repeating: time 0 and play again). `error` and `ended` without repeat
      move on with `playNext()`; `duration || 0` turns NaN and 0 into 0. */
  function OnAudioEvent(s: PlaylistState, ev: AudioEvent, pick: nat): (r: (PlaylistState, bool))
    ensures r.1 <==> ev.Ended? && s.isRepeating
    ensures r.1 ==> r.0 == s
    ensures (ev.Error? || (ev.Ended? && !s.isRepeating)) ==> r.0 == PlayNext(s, pick)
    ensures ev.TimeUpdate? ==> r.0 == s.(currentTime := ev.time)
    ensures ev.DurationChange? ==>
      r.0 == s.(duration := if ev.duration.Some? then ev.duration.value else 0.0)
  {
    match ev
      case Ended => if s.isRepeating then (s, true) else (PlayNext(s, pick), false)
      case Error => (PlayNext(s, pick), false)
      case TimeUpdate(t) => (s.(currentTime := t), false)
      case DurationChange(d) =>
        (s.(duration := if d.Some? then d.value else 0.0), false)
  }

  /** A song that ends or fails without shuffle or repeat hands over to the next song,
      the last one to the first. */
  lemma EndedAdvances(s: PlaylistState, ev: AudioEvent, pick: nat)
    requires Valid(s) && s.songs != [] && !s.isShuffled && !s.isRepeating && (ev.Ended? || ev.Error?)
    ensures var t := OnAudioEvent(s, ev, pick).0;
      t.currentTime == 0.0 &&
      GetCurrentSong(t) == Some(s.songs[(s.currentIndex + 1) % |s.songs|])
  {
  }

  // ---------------------------------------------------------------- reachable states

  /** Everything a user or the audio element can do to the playlist. */
  datatype Action =
    | Next(pick: nat)
    | Previous(pick: nat)
    | Select(index: int)
    | Volume(level: real)
    | Shuffle
    | Repeat
    | Replace(songs: seq<Song>, autoPlay: bool)
    | Append(more: seq<Song>)
    | PlayRequest(resolves: bool)
    | PauseRequest
    | Toggle(resolves: bool)
    | Audio(ev: AudioEvent, pick: nat)

  function Step(s: PlaylistState, a: Action): PlaylistState {
    match a
      case Next(p) => PlayNext(s, p)
      case Previous(p) => PlayPrevious(s, p)
      case Select(i) => PlaySong(s, i)
      case Volume(v) => SetVolume(s, v)
      case Shuffle => ToggleShuffle(s)
      case Repeat => ToggleRepeat(s)
      case Replace(songs, autoPlay) => SetSongs(s, songs, autoPlay).0
      case Append(more) => AddSongs(s, more)
      case PlayRequest(ok) => Play(s, ok)
      case PauseRequest => Pause(s)
      case Toggle(ok) => TogglePlayPause(s, ok)
      case Audio(ev, p) => OnAudioEvent(s, ev, p).0
  }

  /** The state after a run of actions from `s`. */
  function Run(s: PlaylistState, actions: seq<Action>): PlaylistState
    decreases |actions|
  {
    if actions == [] then s else Run(Step(s, actions[0]), actions[1..])
  }

  /** Every transition keeps the invariant. */
  lemma StepValid(s: PlaylistState, a: Action)
    requires Valid(s)
    ensures Valid(Step(s, a))
  {
  }

  /** Every state the hook can reach keeps its index inside the list (or 0 when the list is
      empty) and its volume in [0, 1]; in particular a non-empty list always has a current
      song. */
  lemma {:induction false} Reachable(actions: seq<Action>)
    ensures Valid(Run(Initial, actions))
    ensures var t := Run(Initial, actions); t.songs != [] ==> GetCurrentSong(t).Some?
  {
    InitialValid();
    RunValid(Initial, actions);
  }

  lemma {:induction false} RunValid(s: PlaylistState, actions: seq<Action>)
    requires Valid(s)
    ensures Valid(Run(s, actions))
    decreases |actions|
  {
    if actions != [] {
      StepValid(s, actions[0]);
      RunValid(Step(s, actions[0]), actions[1..]);
    }
  }
}
