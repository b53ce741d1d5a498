/** The music manager: named music streams, named playlists of loaded
    streams, and a player state (current stream, current playlist, index in
    it, playing flag). Calls into the audio device are recorded, in order, in
    `calls`; the streams themselves are opaque. */
module MusicManager {
  import opened Common

  const Two64: int := 0x1_0000_0000_0000_0000

  /** Where a loaded music stream came from (the three `Load` overloads). */
  datatype Track = FromFile(path: string) | FromMemory(fileType: string, data: seq<Byte>) | FromMusic(handle: nat)

  /** One call made on a music stream, named by its key in the manager. */
  datatype AudioCall =
    | SetVolumeOf(name: string, value: real)
    | SetPitchOf(name: string, value: real)
    | SetPanOf(name: string, value: real)
    | PlayStream(name: string)
    | PauseStream(name: string)
    | ResumeStream(name: string)
    | StopStream(name: string)
    | UpdateStream(name: string)

  /** The calls that start a stream with the manager's audio settings. */
  function StartCalls(name: string, volume: real, pitch: real, pan: real): (r: seq<AudioCall>)
    ensures |r| == 4 && r[3] == PlayStream(name)
  {
    [SetVolumeOf(name, volume), SetPitchOf(name, pitch), SetPanOf(name, pan), PlayStream(name)]
  }

  /** A stop of the current stream, when there is one. */
  function StopCurrent(current: Option<string>): (r: seq<AudioCall>)
    ensures current.None? ==> r == []
    ensures current.Some? ==> r == [StopStream(current.value)]
  {
    if current.Some? then [StopStream(current.value)] else []
  }

  predicate AllLoaded(list: seq<string>, musics: map<string, Track>)
  {
    forall k :: 0 <= k < |list| ==> list[k] in musics
  }

  /** The names of `list` that are loaded, in order: the playlist
      `NewPlaylist` builds, skipping unknown names. */
  function KnownTracks(list: seq<string>, musics: map<string, Track>): (r: seq<string>)
    ensures |r| <= |list|
  {
    if list == [] then []
    else KnownTracks(list[..|list| - 1], musics)
         + (if list[|list| - 1] in musics then [list[|list| - 1]] else [])
  }

  /** A name is in the built playlist exactly when it was listed and is
      loaded, and every entry of the playlist is loaded. */
  lemma {:induction false} KnownTracksMembers(list: seq<string>, musics: map<string, Track>, x: string)
    ensures x in KnownTracks(list, musics) <==> x in list && x in musics
    ensures AllLoaded(KnownTracks(list, musics), musics)
  {
    if list != [] {
      var front := list[..|list| - 1];
      KnownTracksMembers(front, musics, x);
      assert list == front + [list[|list| - 1]];
    }
  }

  /** Nothing is skipped exactly when every listed name is loaded. */
  lemma {:induction false} KnownTracksAllLoaded(list: seq<string>, musics: map<string, Track>)
    ensures KnownTracks(list, musics) == list <==> AllLoaded(list, musics)
  {
    if list != [] {
      var front := list[..|list| - 1];
      KnownTracksAllLoaded(front, musics);
      assert list == front + [list[|list| - 1]];
    }
  }

  /** `(currentMusicIndex + 1) % size`: the `int` sum is converted to
      `size_t` before the remainder. */
  function NextIndex(index: int, size: nat): (r: int)
    requires size > 0 && index >= -1
    ensures 0 <= r < size
  {
    ((index + 1) % Two64) % size
  }

  /** `(currentMusicIndex + size - 1) % size`, all in `size_t`: an index of
      -1 wraps around through 2^64. */
  function PreviousIndex(index: int, size: nat): (r: int)
    requires size > 0 && index >= -1 && size < Two64
    ensures 0 <= r < size
  {
    ((index + size - 1) % Two64) % size
  }

  lemma ModSmall(x: int, n: int)
    requires 0 <= x < n
    ensures x % n == x
  {
  }

  lemma ModOnce(x: int, n: int)
    requires 0 < n <= x < 2 * n
    ensures x % n == x - n
  {
  }

  /** Inside the playlist, next moves one track on and wraps from the last
      to the first, and previous moves one back and wraps the other way. */
  lemma NextPreviousSteps(i: int, size: nat)
    requires 0 <= i < size <= Two32
    ensures NextIndex(i, size) == if i + 1 < size then i + 1 else 0
    ensures PreviousIndex(i, size) == if i > 0 then i - 1 else size - 1
  {
    ModSmall(i + 1, Two64);
    if i + 1 < size {
      ModSmall(i + 1, size);
    } else {
      ModOnce(i + 1, size);
    }
    ModSmall(i + size - 1, Two64);
    if i > 0 {
      ModOnce(i + size - 1, size);
    } else {
      ModSmall(i + size - 1, size);
    }
  }

  /** Inside the playlist, previous undoes next and next undoes previous. */
  lemma NextPreviousInverse(i: int, size: nat)
    requires 0 <= i < size <= Two32
    ensures PreviousIndex(NextIndex(i, size), size) == i
    ensures NextIndex(PreviousIndex(i, size), size) == i
  {
    NextPreviousSteps(i, size);
    NextPreviousSteps(NextIndex(i, size), size);
    NextPreviousSteps(PreviousIndex(i, size), size);
  }

  /** The index after `k` calls of `NextMusic`. */
  function NextIter(i: int, size: nat, k: nat): int
    requires size > 0 && i >= -1
  {
    if k == 0 then i else NextIndex(NextIter(i, size, k - 1), size)
  }

  /** Stepping forward `k <= size` times from index `i` moves `k` tracks on,
      wrapping past the end; `size` steps come back to where they started. */
  lemma {:induction false} NextIterCycles(i: int, size: nat, k: nat)
    requires 0 <= i < size <= Two32 && k <= size
    ensures NextIter(i, size, k) == if i + k < size then i + k else i + k - size
    ensures k == size ==> NextIter(i, size, k) == i
  {
    if k > 0 {
      NextIterCycles(i, size, k - 1);
      NextPreviousSteps(NextIter(i, size, k - 1), size);
    }
  }

  /** After `Stop` the index is -1: the next track is the first one, but the
      previous one is the second to last, not the last. */
  lemma StoppedNeighbours(size: nat)
    requires 2 <= size < Two64
    ensures NextIndex(-1, size) == 0
    ensures PreviousIndex(-1, size) == size - 2
  {
    ModSmall(0, Two64);
    ModSmall(0, size);
    ModSmall(size - 2, Two64);
    ModSmall(size - 2, size);
  }

  /** The whole state of a manager, for stating frame conditions. */
  datatype ManagerState = ManagerState(
    musics: map<string, Track>, playlists: map<string, seq<string>>,
    currentMusic: Option<string>, currentPlaylist: Option<string>, currentMusicIndex: int,
    volume: real, pitch: real, pan: real, looping: bool, randomize: bool, onPlaying: bool,
    calls: seq<AudioCall>)

  class MusicManager {
    var musics: map<string, Track>
    /** Playlists refer to loaded streams by name; streams are never
        unloaded, so a name stays valid. */
    var playlists: map<string, seq<string>>
    var currentMusic: Option<string>
    var currentPlaylist: Option<string>
    var currentMusicIndex: int
    var volume: real
    var pitch: real
    var pan: real
    var looping: bool
    var randomize: bool
    var onPlaying: bool
    /** The calls made on music streams so far. */
    var calls: seq<AudioCall>

    /** The current stream and playlist name a loaded stream and a stored
        playlist, playlists hold only loaded streams, and the index is never
        below -1. */
    ghost predicate Valid()
      reads this
    {
      (currentMusic.Some? ==> currentMusic.value in musics)
      && (currentPlaylist.Some? ==> currentPlaylist.value in playlists)
      && (forall p :: p in playlists ==> AllLoaded(playlists[p], musics))
      && currentMusicIndex >= -1
    }

    function State(): ManagerState
      reads this
    {
      ManagerState(musics, playlists, currentMusic, currentPlaylist, currentMusicIndex,
                   volume, pitch, pan, looping, randomize, onPlaying, calls)
    }

    /** Whether the current playlist, if any, has a track to index. Indexing
        an empty playlist (which `NewPlaylist` can build) is undefined. */
    predicate CurrentPlaylistNonEmpty()
      reads this
    {
      currentPlaylist.Some? && currentPlaylist.value in playlists ==> |playlists[currentPlaylist.value]| > 0
    }

    constructor ()
      ensures Valid()
      ensures State() == ManagerState(map[], map[], None, None, -1, 1.0, 1.0, 0.5, false, false, false, [])
    {
      musics, playlists := map[], map[];
      currentMusic, currentPlaylist, currentMusicIndex := None, None, -1;
      volume, pitch, pan := 1.0, 1.0, 0.5;
      looping, randomize, onPlaying := false, false, false;
      calls := [];
    }

    /** `Load(name, …)`: `emplace` keeps an existing stream of that name. */
    method Load(name: string, track: Track)
      requires Valid()
      modifies this
      ensures Valid()
      ensures name in old(musics) ==> State() == old(State())
      ensures name !in old(musics) ==> State() == old(State()).(musics := old(musics)[name := track])
    {
      if name !in musics {
        musics := musics[name := track];
      }
    }

    /** `Get(name)`: the stream stored under the name, if any. */
    function Get(name: string): (r: Option<Track>)
      reads this
      ensures r.Some? <==> name in musics
      ensures r.Some? ==> musics[name] == r.value
    {
      if name in musics then Some(musics[name]) else None
    }

    /** `NewPlaylist(name, list)`: fails on an empty list or a taken name;
        otherwise stores the loaded names of the list, in order, and succeeds
        even when none of them is loaded. */
    method NewPlaylist(name: string, list: seq<string>) returns (ok: bool)
      requires Valid()
      modifies this
      ensures Valid()
      ensures ok <==> |list| > 0 && name !in old(playlists)
      ensures !ok ==> State() == old(State())
      ensures ok ==> State() == old(State()).(playlists := old(playlists)[name := KnownTracks(list, musics)])
    {
      if |list| == 0 {
        return false;
      }
      if name in playlists {
        return false;
      }
      var playlist: seq<string> := [];
      var k := 0;
      while k < |list|
        invariant 0 <= k <= |list|
        invariant playlist == KnownTracks(list[..k], musics)
      {
        assert list[..k + 1][..k] == list[..k];
        if list[k] in musics {
          playlist := playlist + [list[k]];
        }
        k := k + 1;
      }
      assert list[..k] == list;
      forall x
        ensures x in playlist ==> x in musics
      {
        KnownTracksMembers(list, musics, x);
      }
      playlists := playlists[name := playlist];
      ok := true;
    }

    /** `SetPlaylist(name)`: `""` unsets the playlist and the index; an
        unknown name fails with no change; a known one becomes current and
        the index is kept. */
    method SetPlaylist(name: string) returns (ok: bool)
      requires Valid()
      modifies this
      ensures Valid()
      ensures ok <==> name == "" || name in playlists
      ensures name == "" ==> State() == old(State()).(currentPlaylist := None, currentMusicIndex := -1)
      ensures name != "" && ok ==> State() == old(State()).(currentPlaylist := Some(name))
      ensures !ok ==> State() == old(State())
    {
      if name == "" {
        currentPlaylist := None;
        currentMusicIndex := -1;
        return true;
      }
      if name !in playlists {
        return false;
      }
      currentPlaylist := Some(name);
      ok := true;
    }

    method RandomizePlaylist(value: bool)
      modifies this
      ensures State() == old(State()).(randomize := value)
    {
      randomize := value;
    }

    method SetLooping(value: bool)
      modifies this
      ensures State() == old(State()).(looping := value)
    {
      looping := value;
    }

    /** `SetVolume(v)`: stored, and applied to the current stream if any. */
    method SetVolume(value: real)
      modifies this
      ensures State() == old(State()).(volume := value, calls := old(calls)
                           + (if currentMusic.Some? then [SetVolumeOf(currentMusic.value, value)] else []))
    {
      volume := value;
      if currentMusic.Some? {
        calls := calls + [SetVolumeOf(currentMusic.value, value)];
      }
    }

    method SetPitch(value: real)
      modifies this
      ensures State() == old(State()).(pitch := value, calls := old(calls)
                           + (if currentMusic.Some? then [SetPitchOf(currentMusic.value, value)] else []))
    {
      pitch := value;
      if currentMusic.Some? {
        calls := calls + [SetPitchOf(currentMusic.value, value)];
      }
    }

    method SetPan(value: real)
      modifies this
      ensures State() == old(State()).(pan := value, calls := old(calls)
                           + (if currentMusic.Some? then [SetPanOf(currentMusic.value, value)] else []))
    {
      pan := value;
      if currentMusic.Some? {
        calls := calls + [SetPanOf(currentMusic.value, value)];
      }
    }

    /** A stream plays: there is one, and it was not paused or stopped. */
    predicate IsPlaying()
      reads this
      ensures IsPlaying() ==> currentMusic.Some?
    {
      currentMusic.Some? && onPlaying
    }

    /** `CurrentMusic()`: the playing stream's name, `""` when nothing plays. */
    function CurrentMusic(): (r: string)
      reads this
      ensures IsPlaying() ==> r == currentMusic.value
      ensures !IsPlaying() ==> r == ""
    {
      if IsPlaying() then currentMusic.value else ""
    }

    /** `CurrentPlaylist()` as written: reads the playlist's name whenever a
        stream plays. `None` stands for the null dereference when a stream
        plays without a playlist. */
    function CurrentPlaylistAsWritten(): (r: Option<string>)
      reads this
      ensures r.None? <==> IsPlaying() && currentPlaylist.None?
      ensures !IsPlaying() ==> r == Some("")
    {
      if !IsPlaying() then Some("")
      else if currentPlaylist.Some? then Some(currentPlaylist.value)
      else None
    }

    /** The current playlist's name while a stream plays, `""` otherwise. */
    function CurrentPlaylistName(): (r: string)
      reads this
      ensures IsPlaying() && currentPlaylist.Some? ==> r == currentPlaylist.value
      ensures !(IsPlaying() && currentPlaylist.Some?) ==> r == ""
      ensures CurrentPlaylistAsWritten().Some? ==> r == CurrentPlaylistAsWritten().value
    {
      if IsPlaying() && currentPlaylist.Some? then currentPlaylist.value else ""
    }

    /** `Play(name)`. With `""` it needs a playlist and starts its first
        track, or a random one when randomizing. With a name it needs that
        stream loaded, starts it, and unsets the playlist and the index. The
        started stream gets the stored volume, pitch and pan. */
    method Play(name: string) returns (ok: bool)
      requires Valid()
      requires name == "" ==> CurrentPlaylistNonEmpty()
      modifies this
      ensures Valid()
      ensures ok <==> (if name == "" then old(currentPlaylist).Some? else name in musics)
      ensures !ok ==> State() == old(State())
      ensures ok && name != "" ==>
        State() == old(State()).(currentMusic := Some(name), currentPlaylist := None, currentMusicIndex := -1,
                                 onPlaying := true, calls := old(calls) + StartCalls(name, volume, pitch, pan))
      ensures name == "" ==> currentPlaylist == old(currentPlaylist)
      ensures ok && name == "" ==>
        var playlist := playlists[currentPlaylist.value];
        0 <= currentMusicIndex < |playlist| && (randomize || currentMusicIndex == 0)
        && State() == old(State()).(currentMusic := Some(playlist[currentMusicIndex]),
                                    currentMusicIndex := currentMusicIndex, onPlaying := true,
                                    calls := old(calls) + StartCalls(playlist[currentMusicIndex], volume, pitch, pan))
      ensures ok ==> IsPlaying()
    {
      if name == "" {
        if currentPlaylist.None? {
          return false;
        }
        var playlist := playlists[currentPlaylist.value];
        if randomize {
          var pick :| 0 <= pick < |playlist|;
          currentMusicIndex := pick;
        } else {
          currentMusicIndex := 0;
        }
        currentMusic := Some(playlist[currentMusicIndex]);
      } else {
        if name !in musics {
          return false;
        }
        currentMusic := Some(name);
        currentPlaylist := None;
        currentMusicIndex := -1;
      }
      calls := calls + StartCalls(currentMusic.value, volume, pitch, pan);
      onPlaying := true;
      ok := true;
    }

    /** `Pause()`: pauses the current stream; fails with no change when
        there is none. */
    method Pause() returns (ok: bool)
      modifies this
      ensures ok <==> old(currentMusic).Some?
      ensures !ok ==> State() == old(State())
      ensures ok ==> State() == old(State()).(onPlaying := false, calls := old(calls) + [PauseStream(old(currentMusic).value)])
      ensures !IsPlaying()
    {
      if currentMusic.Some? {
        calls := calls + [PauseStream(currentMusic.value)];
        onPlaying := false;
        return true;
      }
      return false;
    }

    method Resume() returns (ok: bool)
      modifies this
      ensures ok <==> old(currentMusic).Some?
      ensures !ok ==> State() == old(State())
      ensures ok ==> State() == old(State()).(onPlaying := true, calls := old(calls) + [ResumeStream(old(currentMusic).value)])
      ensures ok <==> IsPlaying()
    {
      if currentMusic.Some? {
        calls := calls + [ResumeStream(currentMusic.value)];
        onPlaying := true;
        return true;
      }
      return false;
    }

    /** `Stop()`: stops the current stream and resets the index to -1; the
        stream stays current. */
    method Stop() returns (ok: bool)
      requires Valid()
      modifies this
      ensures Valid()
      ensures ok <==> old(currentMusic).Some?
      ensures !ok ==> State() == old(State())
      ensures ok ==> State() == old(State()).(currentMusicIndex := -1, onPlaying := false,
                                             calls := old(calls) + [StopStream(old(currentMusic).value)])
      ensures !IsPlaying()
    {
      if currentMusic.Some? {
        calls := calls + [StopStream(currentMusic.value)];
        currentMusicIndex := -1;
        onPlaying := false;
        return true;
      }
      return false;
    }

    /** `Rewind()`: stops and restarts the current stream. */
    method Rewind() returns (ok: bool)
      modifies this
      ensures ok <==> old(currentMusic).Some?
      ensures !ok ==> State() == old(State())
      ensures ok ==> State() == old(State()).(calls := old(calls)
                                             + [StopStream(old(currentMusic).value), PlayStream(old(currentMusic).value)])
    {
      if currentMusic.Some? {
        calls := calls + [StopStream(currentMusic.value), PlayStream(currentMusic.value)];
        return true;
      }
      return false;
    }

    /** `NextMusic()` as written: with a playlist, stops the current stream
        and makes the next track current, but never starts it. */
    method NextMusic() returns (ok: bool)
      requires Valid() && CurrentPlaylistNonEmpty()
      modifies this
      ensures Valid()
      ensures ok <==> old(currentPlaylist).Some?
      ensures playlists == old(playlists) && currentPlaylist == old(currentPlaylist)
      ensures !ok ==> State() == old(State())
      ensures ok ==>
        var playlist := playlists[currentPlaylist.value];
        currentMusicIndex == NextIndex(old(currentMusicIndex), |playlist|)
        && State() == old(State()).(currentMusic := Some(playlist[currentMusicIndex]),
                                    currentMusicIndex := currentMusicIndex,
                                    calls := old(calls) + StopCurrent(old(currentMusic)))
    {
      if currentPlaylist.Some? {
        var playlist := playlists[currentPlaylist.value];
        calls := calls + StopCurrent(currentMusic);
        currentMusicIndex := NextIndex(currentMusicIndex, |playlist|);
        currentMusic := Some(playlist[currentMusicIndex]);
        return true;
      }
      return false;
    }

    /** `PreviousMusic()` as written: as `NextMusic`, one track back. */
    method PreviousMusic() returns (ok: bool)
      requires Valid() && CurrentPlaylistNonEmpty()
      requires currentPlaylist.Some? ==> |playlists[currentPlaylist.value]| < Two64
      modifies this
      ensures Valid()
      ensures ok <==> old(currentPlaylist).Some?
      ensures playlists == old(playlists) && currentPlaylist == old(currentPlaylist)
      ensures !ok ==> State() == old(State())
      ensures ok ==>
        var playlist := playlists[currentPlaylist.value];
        currentMusicIndex == PreviousIndex(old(currentMusicIndex), |playlist|)
        && State() == old(State()).(currentMusic := Some(playlist[currentMusicIndex]),
                                    currentMusicIndex := currentMusicIndex,
                                    calls := old(calls) + StopCurrent(old(currentMusic)))
    {
      if currentPlaylist.Some? {
        var playlist := playlists[currentPlaylist.value];
        calls := calls + StopCurrent(currentMusic);
        currentMusicIndex := PreviousIndex(currentMusicIndex, |playlist|);
        currentMusic := Some(playlist[currentMusicIndex]);
        return true;
      }
      return false;
    }

    /** `RandomMusic()` as written: needs a playlist of at least two tracks;
        stops the current stream and makes a random track of a different
        index current, without starting it. */
    method RandomMusic() returns (ok: bool)
      requires Valid()
      modifies this
      ensures Valid()
      ensures ok <==> old(currentPlaylist.Some? && |playlists[currentPlaylist.value]| >= 2)
      ensures playlists == old(playlists) && currentPlaylist == old(currentPlaylist)
      ensures !ok ==> State() == old(State())
      ensures ok ==>
        var playlist := playlists[currentPlaylist.value];
        0 <= currentMusicIndex < |playlist| && currentMusicIndex != old(currentMusicIndex)
        && State() == old(State()).(currentMusic := Some(playlist[currentMusicIndex]),
                                    currentMusicIndex := currentMusicIndex,
                                    calls := old(calls) + StopCurrent(old(currentMusic)))
    {
      if currentPlaylist.None? || |playlists[currentPlaylist.value]| < 2 {
        return false;
      }
      var playlist := playlists[currentPlaylist.value];
      calls := calls + StopCurrent(currentMusic);
      assert 0 != currentMusicIndex || 1 != currentMusicIndex;
      var nextIndex :| 0 <= nextIndex < |playlist| && nextIndex != currentMusicIndex;
      currentMusic := Some(playlist[nextIndex]);
      currentMusicIndex := nextIndex;
      ok := true;
    }

    /** Switching tracks as documented: as `NextMusic`, and the new track is
        then started with the stored settings. */
    method NextMusicPlaying() returns (ok: bool)
      requires Valid() && CurrentPlaylistNonEmpty()
      modifies this
      ensures Valid()
      ensures ok <==> old(currentPlaylist).Some?
      ensures playlists == old(playlists) && currentPlaylist == old(currentPlaylist)
      ensures !ok ==> State() == old(State())
      ensures ok ==>
        var playlist := playlists[currentPlaylist.value];
        currentMusicIndex == NextIndex(old(currentMusicIndex), |playlist|)
        && State() == old(State()).(currentMusic := Some(playlist[currentMusicIndex]),
                                    currentMusicIndex := currentMusicIndex, onPlaying := true,
                                    calls := old(calls) + StopCurrent(old(currentMusic))
                                             + StartCalls(playlist[currentMusicIndex], volume, pitch, pan))
      ensures ok ==> IsPlaying()
    {
      ok := NextMusic();
      if ok {
        calls := calls + StartCalls(currentMusic.value, volume, pitch, pan);
        onPlaying := true;
      }
    }

    /** As `RandomMusic`, and the chosen track is then started. */
    method RandomMusicPlaying() returns (ok: bool)
      requires Valid()
      modifies this
      ensures Valid()
      ensures ok <==> old(currentPlaylist.Some? && |playlists[currentPlaylist.value]| >= 2)
      ensures playlists == old(playlists) && currentPlaylist == old(currentPlaylist)
      ensures !ok ==> State() == old(State())
      ensures ok ==>
        var playlist := playlists[currentPlaylist.value];
        0 <= currentMusicIndex < |playlist| && currentMusicIndex != old(currentMusicIndex)
        && State() == old(State()).(currentMusic := Some(playlist[currentMusicIndex]),
                                    currentMusicIndex := currentMusicIndex, onPlaying := true,
                                    calls := old(calls) + StopCurrent(old(currentMusic))
                                             + StartCalls(playlist[currentMusicIndex], volume, pitch, pan))
      ensures ok ==> IsPlaying()
    {
      ok := RandomMusic();
      if ok {
        calls := calls + StartCalls(currentMusic.value, volume, pitch, pan);
        onPlaying := true;
      }
    }

    /** `Update()` as written. `finished` is the stream's
        `GetTimePlayed() >= GetTimeLength()` after its update. A finished
        stream is rewound when looping, else followed by a random or the next
        track of the playlist, else stopped. */
    method Update(finished: bool)
      requires Valid() && CurrentPlaylistNonEmpty()
      modifies this
      ensures Valid()
      ensures musics == old(musics) && playlists == old(playlists) && currentPlaylist == old(currentPlaylist)
      ensures looping == old(looping) && randomize == old(randomize)
      ensures old(currentMusic).None? ==> State() == old(State())
      ensures old(currentMusic).Some? && !finished ==>
        State() == old(State()).(calls := old(calls) + [UpdateStream(old(currentMusic).value)])
      ensures old(currentMusic).Some? && finished && looping ==>
        State() == old(State()).(calls := old(calls) + [UpdateStream(old(currentMusic).value),
                                   StopStream(old(currentMusic).value), PlayStream(old(currentMusic).value)])
      ensures old(currentMusic).Some? && finished && !looping && old(currentPlaylist).None? ==>
        State() == old(State()).(currentMusicIndex := -1, onPlaying := false,
                                 calls := old(calls) + [UpdateStream(old(currentMusic).value), StopStream(old(currentMusic).value)])
      ensures old(currentMusic).Some? && finished && !looping && old(currentPlaylist).Some? && !randomize ==>
        var playlist := playlists[currentPlaylist.value];
        currentMusicIndex == NextIndex(old(currentMusicIndex), |playlist|)
        && State() == old(State()).(currentMusic := Some(playlist[currentMusicIndex]),
                                    currentMusicIndex := currentMusicIndex,
                                    calls := old(calls) + [UpdateStream(old(currentMusic).value),
                                                           StopStream(old(currentMusic).value)])
      ensures old(currentMusic).Some? && finished && !looping && old(currentPlaylist).Some? && randomize
              && old(|playlists[currentPlaylist.value]|) >= 2 ==>
        var playlist := playlists[currentPlaylist.value];
        0 <= currentMusicIndex < |playlist| && currentMusicIndex != old(currentMusicIndex)
        && State() == old(State()).(currentMusic := Some(playlist[currentMusicIndex]),
                                    currentMusicIndex := currentMusicIndex,
                                    calls := old(calls) + [UpdateStream(old(currentMusic).value),
                                                           StopStream(old(currentMusic).value)])
      ensures old(currentMusic).Some? && finished && !looping && old(currentPlaylist).Some? && randomize
              && old(|playlists[currentPlaylist.value]|) < 2 ==>
        State() == old(State()).(calls := old(calls) + [UpdateStream(old(currentMusic).value)])
    {
      if currentMusic.Some? {
        calls := calls + [UpdateStream(currentMusic.value)];
        if finished {
          if looping {
            var _ := Rewind();
          } else if currentPlaylist.Some? {
            if randomize {
              var _ := RandomMusic();
            } else {
              var _ := NextMusic();
            }
          } else {
            var _ := Stop();
          }
        }
      }
    }

    /** `Update()` with the track change starting the new track, as its
        documentation describes: a finished playlist track is followed by a
        playing one. */
    method UpdatePlaying(finished: bool)
      requires Valid() && CurrentPlaylistNonEmpty()
      modifies this
      ensures Valid()
      ensures musics == old(musics) && playlists == old(playlists) && currentPlaylist == old(currentPlaylist)
      ensures looping == old(looping) && randomize == old(randomize)
      ensures old(currentMusic).None? ==> State() == old(State())
      ensures old(currentMusic).Some? && !finished ==>
        State() == old(State()).(calls := old(calls) + [UpdateStream(old(currentMusic).value)])
      ensures old(currentMusic).Some? && finished && looping ==>
        State() == old(State()).(calls := old(calls) + [UpdateStream(old(currentMusic).value),
                                   StopStream(old(currentMusic).value), PlayStream(old(currentMusic).value)])
      ensures old(currentMusic).Some? && finished && !looping && old(currentPlaylist).None? ==>
        State() == old(State()).(currentMusicIndex := -1, onPlaying := false,
                                 calls := old(calls) + [UpdateStream(old(currentMusic).value), StopStream(old(currentMusic).value)])
      ensures old(currentMusic).Some? && finished && !looping && old(currentPlaylist).Some? && !randomize ==>
        var playlist := playlists[currentPlaylist.value];
        currentMusicIndex == NextIndex(old(currentMusicIndex), |playlist|)
        && State() == old(State()).(currentMusic := Some(playlist[currentMusicIndex]),
                                    currentMusicIndex := currentMusicIndex, onPlaying := true,
                                    calls := old(calls) + [UpdateStream(old(currentMusic).value),
                                                           StopStream(old(currentMusic).value)]
                                             + StartCalls(playlist[currentMusicIndex], volume, pitch, pan))
      ensures old(currentMusic).Some? && finished && !looping && old(currentPlaylist).Some? && randomize
              && old(|playlists[currentPlaylist.value]|) >= 2 ==>
        var playlist := playlists[currentPlaylist.value];
        0 <= currentMusicIndex < |playlist| && currentMusicIndex != old(currentMusicIndex)
        && State() == old(State()).(currentMusic := Some(playlist[currentMusicIndex]),
                                    currentMusicIndex := currentMusicIndex, onPlaying := true,
                                    calls := old(calls) + [UpdateStream(old(currentMusic).value),
                                                           StopStream(old(currentMusic).value)]
                                             + StartCalls(playlist[currentMusicIndex], volume, pitch, pan))
      ensures old(currentMusic).Some? && finished && !looping && old(currentPlaylist).Some? && randomize
              && old(|playlists[currentPlaylist.value]|) < 2 ==>
        State() == old(State()).(calls := old(calls) + [UpdateStream(old(currentMusic).value)])
      ensures old(currentMusic).Some? && finished && !looping && old(currentPlaylist).Some?
              && !old(randomize && |playlists[currentPlaylist.value]| < 2) ==>
        IsPlaying() && |calls| > 0 && calls[|calls| - 1] == PlayStream(currentMusic.value)
    {
      if currentMusic.Some? {
        calls := calls + [UpdateStream(currentMusic.value)];
        if finished {
          if looping {
            var _ := Rewind();
          } else if currentPlaylist.Some? {
            if randomize {
              var _ := RandomMusicPlaying();
            } else {
              var _ := NextMusicPlaying();
            }
          } else {
            var _ := Stop();
          }
        }
      }
    }
  }

  /** After `Play(name)` of a loaded stream a stream plays with no playlist,
      so `CurrentPlaylist()` as written dereferences null, while the
      corrected query answers `""`. */
  method PlayByNameThenCurrentPlaylist(m: MusicManager, name: string)
    requires m.Valid() && name != "" && name in m.musics
    modifies m
    ensures m.IsPlaying()
    ensures m.CurrentPlaylistAsWritten() == None
    ensures m.CurrentPlaylistName() == ""
  {
    var ok := m.Play(name);
  }

  /** When a playlist track finishes, `Update` as written stops it and moves
      to the next track but issues no `PlayStream`: the playlist goes
      silent. */
  method PlaylistAdvanceIsSilent(m: MusicManager)
    requires m.Valid() && m.CurrentPlaylistNonEmpty()
    requires m.currentMusic.Some? && m.currentPlaylist.Some? && !m.looping && !m.randomize
    modifies m
    ensures m.Valid() && m.currentPlaylist.Some? && m.currentMusic.Some?
    ensures m.currentMusic.value in m.playlists[m.currentPlaylist.value]
    ensures forall k :: |old(m.calls)| <= k < |m.calls| ==> !m.calls[k].PlayStream?
  {
    m.Update(true);
  }
}
