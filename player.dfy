/** The playback controller: playlist entries, the messages it sends to the
    UI thread, the file-name helpers, and every operation of the player as a
    function from the player's state (and the answers of the audio engine,
    the downloader, the file system and the clock) to its next state. */
module Music {
  import opened Values
  import opened PyStr

  // ------------------------------------------------------------- entries

  /** A playlist entry (and a song's metadata file): `duration` is `None`
      when the probe could not read the file. */
  datatype Track = Track(title: string, path: string, duration: Option<int>, youtubeId: Option<string>)

  // ------------------------------------------------------------ messages

  /** A value carried by a message. */
  datatype Field = FStr(s: string) | FInt(i: int)

  /** A message on the queue to the UI thread: a tag and its keyword data. */
  datatype Msg = Msg(tag: string, data: map<string, Field>)

  function PlayStarted(position: int, title: string): Msg
  {
    Msg("play_started", map["index" := FInt(position), "title" := FStr(title)])
  }

  function PlayError(error: string): Msg { Msg("play_error", map["error" := FStr(error)]) }

  function Paused(): Msg { Msg("paused", map[]) }

  function Resumed(): Msg { Msg("resumed", map[]) }

  function Stopped(): Msg { Msg("stopped", map[]) }

  /** The volume report `set_volume` posts, under the tag `volume`. */
  function VolumeReport(percent: int): Msg { Msg("volume", map["volume" := FInt(percent)]) }

  /** The volume report under the tag the status table shows. */
  function VolumeChanged(percent: int): Msg { Msg("volume_changed", map["volume" := FInt(percent)]) }

  function SaveOk(name: string): Msg { Msg("save_ok", map["name" := FStr(name)]) }

  function SaveFailed(error: string): Msg { Msg("save_failed", map["error" := FStr(error)]) }

  function LoadOk(name: string, count: int): Msg
  {
    Msg("load_ok", map["name" := FStr(name), "count" := FInt(count)])
  }

  function LoadFailed(error: string): Msg { Msg("load_failed", map["error" := FStr(error)]) }

  /** The failures `save_playlist` and `load_playlist` post for a missing
      name: the text goes under `name`, not `error`. */
  function SaveFailedNamed(text: string): Msg { Msg("save_failed", map["name" := FStr(text)]) }

  function LoadFailedNamed(text: string): Msg { Msg("load_failed", map["name" := FStr(text)]) }

  function SongAdded(title: string): Msg { Msg("song_added", map["title" := FStr(title)]) }

  function DownloadComplete(title: string): Msg { Msg("download_complete", map["title" := FStr(title)]) }

  function DownloadFailed(error: string): Msg { Msg("download_failed", map["error" := FStr(error)]) }

  /** The text the player sends when a save or load is asked for without a name. */
  const EmptyName := "empty-name"

  /** The error opening a playlist file that does not exist. */
  const NoPlaylistFile := "[Errno 2] No such file or directory"

  // ------------------------------------------------- youtube id in a name

  /** `filename[:-16]`: what is left of `<title>-<11-character id>.mp3` once
      the id, its dash and the extension are cut off. */
  function StripYoutubeId(filename: string): (title: string)
    ensures |filename| >= 16 ==> title == filename[..|filename| - 16]
    ensures |filename| < 16 ==> title == ""
  {
    Slice(filename, 0, -16)
  }

  /** `filename[-15:-4]`: the 11 characters that end four before the end. */
  function YoutubeId(filename: string): (id: string)
    ensures |filename| >= 15 ==> id == filename[|filename| - 15..|filename| - 4] && |id| == 11
    ensures 4 <= |filename| < 15 ==> id == filename[..|filename| - 4]
    ensures |filename| < 4 ==> id == ""
  {
    Slice(filename, -15, -4)
  }

  /** What the stripped title leaves out is exactly the last 16 characters. */
  lemma StripYoutubeIdSplits(filename: string)
    requires |filename| >= 16
    ensures StripYoutubeId(filename) + filename[|filename| - 16..] == filename
  {
  }

  /** Both helpers undo the download template `<title>-<id>.mp3` for an 11-character id. */
  lemma YoutubeTemplate(title: string, id: string)
    requires |id| == 11
    ensures StripYoutubeId(title + "-" + id + ".mp3") == title
    ensures YoutubeId(title + "-" + id + ".mp3") == id
  {
    var f := title + "-" + id + ".mp3";
    assert f[..|f| - 16] == title;
    assert f[|f| - 15..|f| - 4] == id;
  }

  // -------------------------------------------------------------- state

  /** The Discord presence the player publishes: the module's default card,
      or a card naming the track. */
  datatype Presence = Idle | Listening(details: string, state: string, start: int)

  /** The player's fields, together with the state it shares: the presence
      card, the metadata directory (`catalog`, file stem to metadata) and the
      playlist directory (`playlistFiles`, name to saved entries). */
  datatype PlayerState = PlayerState(
    playlist: seq<Track>,
    index: nat,
    currentTitle: string,
    volume: real,
    isOnline: bool,
    isPlaying: bool,
    isStopped: bool,
    presence: Presence,
    outbox: seq<Msg>,
    catalog: map<string, Track>,
    playlistFiles: map<string, seq<Track>>)

  /** A new player: empty playlist, volume 0.8, stopped. */
  function Initial(catalog: map<string, Track>, playlistFiles: map<string, seq<Track>>): (p: PlayerState)
    ensures Valid(p) && p.playlist == [] && p.outbox == []
    ensures p.index == 0 && p.currentTitle == "" && p.volume == 0.8
    ensures p.isStopped && !p.isPlaying && p.isOnline && p.presence == Idle
    ensures p.catalog == catalog && p.playlistFiles == playlistFiles
  {
    PlayerState([], 0, "", 0.8, true, false, true, Idle, [], catalog, playlistFiles)
  }

  /** What every operation keeps: the volume is a fraction, and the player
      is never playing and stopped at once. */
  predicate Valid(p: PlayerState)
  {
    0.0 <= p.volume <= 1.0 && !(p.isPlaying && p.isStopped)
  }

  /** The two states agree on everything but the queue, flags, title and
      presence: the parts playback control never touches. */
  predicate SameLibrary(p: PlayerState, q: PlayerState)
  {
    q.playlist == p.playlist && q.volume == p.volume && q.isOnline == p.isOnline
    && q.catalog == p.catalog && q.playlistFiles == p.playlistFiles
  }

  // ------------------------------------------------------------ play

  /** `play(index)` returns before touching anything: the index given is out
      of range, or the playlist is empty. */
  predicate PlayReturnsEarly(p: PlayerState, idx: Option<int>)
  {
    (idx.Some? && !(0 <= idx.value < |p.playlist|)) || p.playlist == []
  }

  /** The position `play(index)` plays from when it does not return early. */
  function PlayPosition(p: PlayerState, idx: Option<int>): int
  {
    if idx.Some? then idx.value else p.index
  }

  /** `play(index)`. `engine` is whether loading and starting the file
      succeeds, `flavor` the random presence line (or the error reading it),
      `now` the clock. Reading the entry at a stale `index` raises outside
      the `try`, which is the `Err`. */
  function Play(p: PlayerState, idx: Option<int>, engine: Outcome, flavor: Result<string>, now: int): (r: Result<PlayerState>)
    ensures r.Err? <==> !PlayReturnsEarly(p, idx) && PlayPosition(p, idx) >= |p.playlist|
    ensures PlayReturnsEarly(p, idx) ==> r == Ok(p)
    ensures r.Ok? ==> SameLibrary(p, r.value)
    ensures r.Ok? && !PlayReturnsEarly(p, idx) ==>
      var i := PlayPosition(p, idx);
      var t := p.playlist[i].title;
      && r.value.index == i
      && (engine.Fail? ==> r.value == p.(index := i, outbox := p.outbox + [PlayError(engine.reason)]))
      && (engine.Pass? ==>
          && r.value.currentTitle == t
          && |r.value.outbox| >= |p.outbox| + 1
          && r.value.outbox[..|p.outbox| + 1] == p.outbox + [PlayStarted(i + 1, t)]
          && (p.isOnline && flavor.Err? ==>
                r.value == p.(index := i, currentTitle := t, outbox := p.outbox + [PlayStarted(i + 1, t), PlayError(flavor.error)]))
          && (!p.isOnline || flavor.Ok? ==>
                r.value.isPlaying && !r.value.isStopped && r.value.outbox == p.outbox + [PlayStarted(i + 1, t)])
          && (p.isOnline && flavor.Ok? ==> r.value.presence == Listening(flavor.value, "Listening to " + t, now))
          && (!p.isOnline ==> r.value.presence == p.presence))
  {
    if PlayReturnsEarly(p, idx) then Ok(p)
    else if PlayPosition(p, idx) >= |p.playlist| then Err("IndexError: list index out of range")
    else Ok(Start(p.(index := PlayPosition(p, idx)), engine, flavor, now))
  }

  /** The `try` block of `play`: start the entry at `index`. */
  function Start(p: PlayerState, engine: Outcome, flavor: Result<string>, now: int): (r: PlayerState)
    requires p.index < |p.playlist|
    ensures SameLibrary(p, r) && r.index == p.index
    ensures |p.outbox| < |r.outbox| <= |p.outbox| + 2 && r.outbox[..|p.outbox|] == p.outbox
    ensures engine.Fail? <==> r.outbox[|p.outbox|].tag == "play_error"
    ensures engine.Pass? ==> r.outbox[|p.outbox|] == PlayStarted(p.index + 1, p.playlist[p.index].title)
    ensures engine.Fail? ==> r.isPlaying == p.isPlaying && r.isStopped == p.isStopped && r.currentTitle == p.currentTitle
    ensures engine.Pass? ==> r.currentTitle == p.playlist[p.index].title
    ensures r.isPlaying != p.isPlaying || r.isStopped != p.isStopped ==> engine.Pass? && r.isPlaying && !r.isStopped
    ensures r.presence != p.presence ==> r.isPlaying && p.isOnline && flavor.Ok?
    ensures engine.Fail? ==> r == p.(outbox := p.outbox + [PlayError(engine.reason)])
    ensures engine.Pass? && p.isOnline && flavor.Err? ==>
      var t := p.playlist[p.index].title;
      r == p.(currentTitle := t, outbox := p.outbox + [PlayStarted(p.index + 1, t), PlayError(flavor.error)])
    ensures engine.Pass? && (!p.isOnline || flavor.Ok?) ==>
      var t := p.playlist[p.index].title;
      r == p.(currentTitle := t, isPlaying := true, isStopped := false, outbox := p.outbox + [PlayStarted(p.index + 1, t)],
              presence := if p.isOnline then Listening(flavor.value, "Listening to " + t, now) else p.presence)
  {
    match engine
    case Fail(e) => p.(outbox := p.outbox + [PlayError(e)])
    case Pass =>
      var t := p.playlist[p.index].title;
      var started := p.(currentTitle := t, outbox := p.outbox + [PlayStarted(p.index + 1, t)]);
      if !p.isOnline then started.(isPlaying := true, isStopped := false)
      else match flavor
        case Err(e) => started.(outbox := started.outbox + [PlayError(e)])
        case Ok(details) =>
          started.(presence := Listening(details, "Listening to " + t, now), isPlaying := true, isStopped := false)
  }

  // ---------------------------------------------------------- transport

  /** `pause()`: acts only while playing. */
  function Pause(p: PlayerState): (r: PlayerState)
    ensures !r.isPlaying && r.isStopped == p.isStopped && SameLibrary(p, r) && r.index == p.index
    ensures p.isPlaying ==> r == p.(isPlaying := false, outbox := p.outbox + [Paused()])
    ensures !p.isPlaying ==> r == p
  {
    if p.isPlaying then p.(isPlaying := false, outbox := p.outbox + [Paused()]) else p
  }

  /** `resume()`: acts only when paused, that is neither playing nor stopped. */
  function Resume(p: PlayerState): (r: PlayerState)
    ensures SameLibrary(p, r) && r.index == p.index && r.isStopped == p.isStopped
    ensures !p.isPlaying && !p.isStopped ==> r == p.(isPlaying := true, outbox := p.outbox + [Resumed()])
    ensures p.isPlaying || p.isStopped ==> r == p
  {
    if !p.isPlaying && !p.isStopped then p.(isPlaying := true, outbox := p.outbox + [Resumed()]) else p
  }

  /** `stop()`: acts only when not already stopped, and puts the default presence back. */
  function Stop(p: PlayerState): (r: PlayerState)
    ensures r.isStopped && SameLibrary(p, r) && r.index == p.index
    ensures !p.isStopped ==> !r.isPlaying && r.presence == Idle && r.outbox == p.outbox + [Stopped()]
    ensures !p.isStopped ==> r == p.(isPlaying := false, isStopped := true, presence := Idle, outbox := p.outbox + [Stopped()])
    ensures p.isStopped ==> r == p
  {
    if !p.isStopped then p.(isPlaying := false, isStopped := true, presence := Idle, outbox := p.outbox + [Stopped()])
    else p
  }

  /** The position `skip()` moves to: the next one, wrapping to 0 at the end. */
  function NextPosition(index: nat, n: nat): (j: nat)
    requires n > 0
    ensures j < n
    ensures index + 1 < n ==> j == index + 1
    ensures index + 1 >= n ==> j == 0
  {
    if index + 1 >= n then 0 else index + 1
  }

  /** `skip()`: nothing on an empty playlist, otherwise `play` at the next position. */
  function Skip(p: PlayerState, engine: Outcome, flavor: Result<string>, now: int): (r: PlayerState)
    ensures p.playlist == [] ==> r == p
    ensures p.playlist != [] ==> r.index == NextPosition(p.index, |p.playlist|)
    ensures p.playlist != [] ==> r == Start(p.(index := NextPosition(p.index, |p.playlist|)), engine, flavor, now)
    ensures SameLibrary(p, r)
  {
    if p.playlist == [] then p
    else
      var j := NextPosition(p.index, |p.playlist|);
      Play(p.(index := j), Some(j), engine, flavor, now).value
  }

  // ------------------------------------------------------------- volume

  /** `max(0.0, min(1.0, v))`. */
  function ClampVolume(v: real): (c: real)
    ensures 0.0 <= c <= 1.0
    ensures 0.0 <= v <= 1.0 ==> c == v
    ensures v < 0.0 ==> c == 0.0
    ensures v > 1.0 ==> c == 1.0
  {
    if v < 0.0 then 0.0 else if v > 1.0 then 1.0 else v
  }

  /** `int(volume * 100)`: truncation, which is the floor for a volume that is never negative. */
  function VolumePercent(volume: real): (pct: int)
    requires 0.0 <= volume <= 1.0
    ensures 0 <= pct <= 100
    ensures pct as real <= volume * 100.0 < pct as real + 1.0
  {
    (volume * 100.0).Floor
  }

  /** `set_volume(v)`: the clamped volume, and one report of it in percent,
      posted under the tag `volume`. */
  function SetVolume(p: PlayerState, v: real): (r: PlayerState)
    ensures 0.0 <= r.volume <= 1.0
    ensures r.volume == ClampVolume(v)
    ensures r.outbox == p.outbox + [VolumeReport(VolumePercent(ClampVolume(v)))]
    ensures r.(volume := p.volume, outbox := p.outbox) == p
  {
    var vol := ClampVolume(v);
    p.(volume := vol, outbox := p.outbox + [VolumeReport(VolumePercent(vol))])
  }

  /** `set_volume(v)` posting its report under `volume_changed`, the tag the
      status table has; everything else as `SetVolume`. */
  function SetVolumeCorrected(p: PlayerState, v: real): (r: PlayerState)
    ensures r.outbox == p.outbox + [VolumeChanged(VolumePercent(ClampVolume(v)))]
    ensures r.(outbox := p.outbox) == SetVolume(p, v).(outbox := p.outbox)
  {
    var vol := ClampVolume(v);
    p.(volume := vol, outbox := p.outbox + [VolumeChanged(VolumePercent(vol))])
  }

  // ---------------------------------------------------------- playlists

  /** `save_playlist(name)`. `write` is whether writing the file succeeds.
      The missing-name failure carries its text under `name`. */
  function SavePlaylist(p: PlayerState, name: string, write: Outcome): (r: PlayerState)
    ensures name == "" ==> r == p.(outbox := p.outbox + [SaveFailedNamed(EmptyName)])
    ensures name != "" && write.Pass? ==>
      r == p.(playlistFiles := p.playlistFiles[name := p.playlist], outbox := p.outbox + [SaveOk(name)])
    ensures name != "" && write.Fail? ==> r == p.(outbox := p.outbox + [SaveFailed(write.reason)])
  {
    if name == "" then p.(outbox := p.outbox + [SaveFailedNamed(EmptyName)])
    else match write
      case Pass => p.(playlistFiles := p.playlistFiles[name := p.playlist], outbox := p.outbox + [SaveOk(name)])
      case Fail(e) => p.(outbox := p.outbox + [SaveFailed(e)])
  }

  /** `save_playlist(name)` with the missing-name failure under `error`, the
      key the status line reads; everything else as `SavePlaylist`. */
  function SavePlaylistCorrected(p: PlayerState, name: string, write: Outcome): (r: PlayerState)
    ensures name == "" ==> r == p.(outbox := p.outbox + [SaveFailed(EmptyName)])
    ensures name != "" ==> r == SavePlaylist(p, name, write)
  {
    if name == "" then p.(outbox := p.outbox + [SaveFailed(EmptyName)])
    else SavePlaylist(p, name, write)
  }

  /** `[d for d in data if os.path.exists(d["path"])]`, with `existing` the paths that exist. */
  function KeepExisting(data: seq<Track>, existing: set<string>): (kept: seq<Track>)
    ensures |kept| <= |data|
    ensures forall t :: t in kept ==> t.path in existing
    decreases |data|
  {
    if data == [] then []
    else
      var rest := KeepExisting(data[..|data| - 1], existing);
      var last := data[|data| - 1];
      if last.path in existing then rest + [last] else rest
  }

  /** The filter keeps every copy of an entry whose path exists and no copy of any other. */
  lemma {:induction false} KeepExistingCounts(data: seq<Track>, existing: set<string>)
    ensures forall t :: multiset(KeepExisting(data, existing))[t] == if t.path in existing then multiset(data)[t] else 0
    decreases |data|
  {
    if data != [] {
      var init := data[..|data| - 1];
      KeepExistingCounts(init, existing);
      assert data == init + [data[|data| - 1]];
    }
  }

  /** `a` is `b` with some entries left out, the others in their order. */
  predicate IsSubsequence(a: seq<Track>, b: seq<Track>)
    decreases |b|
  {
    if a == [] then true
    else if b == [] then false
    else if a[|a| - 1] == b[|b| - 1] then IsSubsequence(a[..|a| - 1], b[..|b| - 1])
    else IsSubsequence(a, b[..|b| - 1])
  }

  /** The filter keeps the order of what it keeps. */
  lemma {:induction false} KeepExistingInOrder(data: seq<Track>, existing: set<string>)
    ensures IsSubsequence(KeepExisting(data, existing), data)
    decreases |data|
  {
    if data != [] {
      var init := data[..|data| - 1];
      KeepExistingInOrder(init, existing);
      var kept := KeepExisting(data, existing);
      if data[|data| - 1].path in existing {
        assert kept[..|kept| - 1] == KeepExisting(init, existing);
      } else if kept != [] {
        assert kept[|kept| - 1] in kept;
        assert data[..|data| - 1] == init;
      }
    }
  }

  /** Every entry whose path exists survives the filter. */
  lemma {:induction false} KeepExistingAll(data: seq<Track>, existing: set<string>)
    requires forall t :: t in data ==> t.path in existing
    ensures KeepExisting(data, existing) == data
    decreases |data|
  {
    if data != [] {
      var init := data[..|data| - 1];
      assert forall t :: t in init ==> t in data;
      KeepExistingAll(init, existing);
      assert init + [data[|data| - 1]] == data;
    }
  }

  /** `load_playlist(name)`. `existing` is the set of paths that exist; a name
      with no saved file is the error opening it. The missing-name failure
      carries its text under `name`. */
  function LoadPlaylist(p: PlayerState, name: string, existing: set<string>): (r: PlayerState)
    ensures name == "" ==> r == p.(outbox := p.outbox + [LoadFailedNamed(EmptyName)])
    ensures name != "" && name !in p.playlistFiles ==>
      r == p.(outbox := p.outbox + [LoadFailed(NoPlaylistFile)])
    ensures name != "" && name in p.playlistFiles ==>
      var kept := KeepExisting(p.playlistFiles[name], existing);
      r == p.(playlist := kept, index := 0, outbox := p.outbox + [LoadOk(name, |kept|)])
  {
    if name == "" then p.(outbox := p.outbox + [LoadFailedNamed(EmptyName)])
    else if name !in p.playlistFiles then p.(outbox := p.outbox + [LoadFailed(NoPlaylistFile)])
    else
      var kept := KeepExisting(p.playlistFiles[name], existing);
      p.(playlist := kept, index := 0, outbox := p.outbox + [LoadOk(name, |kept|)])
  }

  /** `load_playlist(name)` with the missing-name failure under `error`, the
      key the status line reads; everything else as `LoadPlaylist`. */
  function LoadPlaylistCorrected(p: PlayerState, name: string, existing: set<string>): (r: PlayerState)
    ensures name == "" ==> r == p.(outbox := p.outbox + [LoadFailed(EmptyName)])
    ensures name != "" ==> r == LoadPlaylist(p, name, existing)
  {
    if name == "" then p.(outbox := p.outbox + [LoadFailed(EmptyName)])
    else LoadPlaylist(p, name, existing)
  }

  /** Saving and loading back a playlist whose files all exist gives the
      same playlist, playing from the top. */
  lemma SaveThenLoad(p: PlayerState, name: string, existing: set<string>)
    requires name != ""
    requires forall t :: t in p.playlist ==> t.path in existing
    ensures LoadPlaylist(SavePlaylist(p, name, Pass), name, existing).playlist == p.playlist
    ensures LoadPlaylist(SavePlaylist(p, name, Pass), name, existing).index == 0
  {
    KeepExistingAll(p.playlist, existing);
  }

  // -------------------------------------------------------------- songs

  /** `load_song(title)`: the metadata file of that stem is read (a missing
      one raises), written back under its own title (`save` is whether that
      write succeeds; a failing one raises), and appended. */
  function LoadSong(p: PlayerState, title: string, save: Outcome): (r: Result<PlayerState>)
    ensures r.Err? <==> title !in p.catalog || save.Fail?
    ensures title in p.catalog && save.Fail? ==> r == Err(save.reason)
    ensures r.Ok? ==>
      var m := p.catalog[title];
      r.value == p.(catalog := p.catalog[m.title := m], playlist := p.playlist + [m], outbox := p.outbox + [SongAdded(title)])
  {
    if title !in p.catalog then Err("FileNotFoundError: no metadata file")
    else
      var m := p.catalog[title];
      match save
      case Fail(e) => Err(e)
      case Pass => Ok(p.(catalog := p.catalog[m.title := m], playlist := p.playlist + [m], outbox := p.outbox + [SongAdded(title)]))
  }

  /** `check_for_metadata_file(path)` finds a metadata file for `path`. */
  predicate HasMetadata(catalog: map<string, Track>, path: string)
    ensures HasMetadata(catalog, path) <==> exists k :: k in catalog && catalog[k].path == path
  {
    path in Paths(catalog)
  }

  /** The songs the metadata files point at. */
  function Paths(catalog: map<string, Track>): set<string>
  {
    set k | k in catalog :: catalog[k].path
  }

  /** `_get_song_metadata(path)`. `idOk` holds the file names for which the
      request made from the name's id succeeds; `probe` the durations the
      MP3 reader finds. */
  function SongMetadata(path: string, idOk: set<string>, probe: map<string, int>): (m: Track)
    ensures m.path == path
  {
    var base := Basename(path);
    var title := if base in idOk then StripYoutubeId(base) else ReplaceAll(base, ".mp3", "");
    var id := if base in idOk then Some(YoutubeId(base)) else None;
    Track(title, path, if path in probe then Some(probe[path]) else None, id)
  }

  /** The metadata of a file whose name carries a YouTube id is split from
      the name by the download template; any other file is named after its
      file name without `.mp3`. The duration is the probe's, if it has one. */
  lemma SongMetadataFields(path: string, idOk: set<string>, probe: map<string, int>)
    ensures var m := SongMetadata(path, idOk, probe);
      && m.duration == (if path in probe then Some(probe[path]) else None)
      && (Basename(path) in idOk ==> m.youtubeId == Some(YoutubeId(Basename(path))))
      && (Basename(path) in idOk && |Basename(path)| >= 16 ==>
            m.title + Basename(path)[|Basename(path)| - 16..] == Basename(path))
      && (Basename(path) !in idOk ==> m.title == ReplaceAll(Basename(path), ".mp3", "") && m.youtubeId == None)
  {
    var base := Basename(path);
    if base in idOk && |base| >= 16 {
      StripYoutubeIdSplits(base);
    }
  }

  /** One turn of `check_music_dir_for_new_songs`' loop, for the directory entry `song`. */
  function ScanEntry(p: PlayerState, musicDir: string, song: string, idOk: set<string>, probe: map<string, int>): (r: PlayerState)
    ensures r.index == p.index && r.isPlaying == p.isPlaying && r.isStopped == p.isStopped
    ensures r.volume == p.volume && r.playlistFiles == p.playlistFiles
    ensures r.currentTitle == p.currentTitle && r.presence == p.presence && r.isOnline == p.isOnline
    ensures !EndsWith(song, ".mp3") || HasMetadata(p.catalog, JoinPath(musicDir, song)) ==> r == p
    ensures EndsWith(song, ".mp3") && !HasMetadata(p.catalog, JoinPath(musicDir, song)) ==>
      && |r.playlist| == |p.playlist| + 1 && r.playlist[..|p.playlist|] == p.playlist
      && r.playlist[|p.playlist|].path == JoinPath(musicDir, song)
      && r.outbox == p.outbox + [SongAdded(r.playlist[|p.playlist|].title)]
    ensures EndsWith(song, ".mp3") && !HasMetadata(p.catalog, JoinPath(musicDir, song)) ==>
      var m := SongMetadata(JoinPath(musicDir, song), idOk, probe);
      r.playlist[|p.playlist|] == m && r.catalog == p.catalog[m.title := m]
  {
    var path := JoinPath(musicDir, song);
    if EndsWith(song, ".mp3") && !HasMetadata(p.catalog, path) then
      var m := SongMetadata(path, idOk, probe);
      p.(catalog := p.catalog[m.title := m], playlist := p.playlist + [m], outbox := p.outbox + [SongAdded(m.title)])
    else p
  }

  /** After its turn, an MP3 file of the listing has a metadata file. */
  lemma ScanEntryRecords(p: PlayerState, musicDir: string, song: string, idOk: set<string>, probe: map<string, int>)
    requires EndsWith(song, ".mp3")
    ensures HasMetadata(ScanEntry(p, musicDir, song, idOk, probe).catalog, JoinPath(musicDir, song))
  {
    var path := JoinPath(musicDir, song);
    if !HasMetadata(p.catalog, path) {
      var m := SongMetadata(path, idOk, probe);
      assert ScanEntry(p, musicDir, song, idOk, probe).catalog[m.title].path == path;
    }
  }

  /** `check_music_dir_for_new_songs()` over the directory listing `listing`. */
  function ScanMusicDir(p: PlayerState, musicDir: string, listing: seq<string>, idOk: set<string>, probe: map<string, int>): (r: PlayerState)
    ensures r.index == p.index && r.isPlaying == p.isPlaying && r.isStopped == p.isStopped
    ensures r.volume == p.volume && r.playlistFiles == p.playlistFiles
    ensures |p.playlist| <= |r.playlist| <= |p.playlist| + |listing| && r.playlist[..|p.playlist|] == p.playlist
    ensures r.currentTitle == p.currentTitle && r.presence == p.presence && r.isOnline == p.isOnline
    decreases |listing|
  {
    if listing == [] then p
    else ScanEntry(ScanMusicDir(p, musicDir, listing[..|listing| - 1], idOk, probe), musicDir, listing[|listing| - 1], idOk, probe)
  }

  /** The scan of the first `i + 1` entries is the scan of the first `i`, then entry `i`. */
  lemma ScanMusicDirStep(p: PlayerState, musicDir: string, listing: seq<string>, i: nat, idOk: set<string>, probe: map<string, int>)
    requires i < |listing|
    ensures ScanMusicDir(p, musicDir, listing[..i + 1], idOk, probe)
         == ScanEntry(ScanMusicDir(p, musicDir, listing[..i], idOk, probe), musicDir, listing[i], idOk, probe)
  {
    assert listing[..i + 1][..i] == listing[..i];
  }

  /** The playlist and the outbox of `r` extend those of `p` by the same
      number of entries, each new message a `song_added`. */
  predicate AppendsSongs(p: PlayerState, r: PlayerState)
  {
    && |r.playlist| >= |p.playlist| && r.playlist[..|p.playlist|] == p.playlist
    && |r.outbox| - |p.outbox| == |r.playlist| - |p.playlist|
    && r.outbox[..|p.outbox|] == p.outbox
    && (forall k :: |p.outbox| <= k < |r.outbox| ==> r.outbox[k].tag == "song_added")
  }

  /** One turn of the scan appends at most one song. */
  lemma ScanEntryAppends(p: PlayerState, musicDir: string, song: string, idOk: set<string>, probe: map<string, int>)
    ensures var r := ScanEntry(p, musicDir, song, idOk, probe);
      AppendsSongs(p, r) && |r.playlist| <= |p.playlist| + 1
  {
  }

  /** `AppendsSongs` composes. */
  lemma AppendsSongsTrans(p: PlayerState, q: PlayerState, r: PlayerState)
    requires AppendsSongs(p, q) && AppendsSongs(q, r)
    ensures AppendsSongs(p, r)
  {
    assert r.playlist[..|p.playlist|] == r.playlist[..|q.playlist|][..|p.playlist|];
    assert r.outbox[..|p.outbox|] == r.outbox[..|q.outbox|][..|p.outbox|];
    forall k | |p.outbox| <= k < |r.outbox|
      ensures r.outbox[k].tag == "song_added"
    {
      if k < |q.outbox| {
        assert r.outbox[k] == r.outbox[..|q.outbox|][k];
      }
    }
  }

  /** The scan only appends: one entry and one `song_added` for each new
      MP3 file, and nothing else changes in the playback state. */
  lemma {:induction false} ScanOnlyAppends(p: PlayerState, musicDir: string, listing: seq<string>, idOk: set<string>, probe: map<string, int>)
    ensures var r := ScanMusicDir(p, musicDir, listing, idOk, probe);
      && AppendsSongs(p, r) && |r.playlist| - |p.playlist| <= |listing|
      && r.index == p.index && r.isPlaying == p.isPlaying && r.isStopped == p.isStopped
      && r.volume == p.volume && r.playlistFiles == p.playlistFiles
    decreases |listing|
  {
    if listing != [] {
      var init := listing[..|listing| - 1];
      var s := listing[|listing| - 1];
      ScanOnlyAppends(p, musicDir, init, idOk, probe);
      var q := ScanMusicDir(p, musicDir, init, idOk, probe);
      ScanEntryAppends(q, musicDir, s, idOk, probe);
      AppendsSongsTrans(p, q, ScanEntry(q, musicDir, s, idOk, probe));
    }
  }

  /** The entry `t` is the metadata of an MP3 file of the listing, joined onto the music directory. */
  predicate AddedFrom(t: Track, musicDir: string, listing: seq<string>, idOk: set<string>, probe: map<string, int>)
  {
    exists s :: s in listing && EndsWith(s, ".mp3") && t == SongMetadata(JoinPath(musicDir, s), idOk, probe)
  }

  lemma AddedFromLonger(t: Track, musicDir: string, init: seq<string>, s: string, idOk: set<string>, probe: map<string, int>)
    requires AddedFrom(t, musicDir, init, idOk, probe)
    ensures AddedFrom(t, musicDir, init + [s], idOk, probe)
  {
    var w :| w in init && EndsWith(w, ".mp3") && t == SongMetadata(JoinPath(musicDir, w), idOk, probe);
    assert w in init + [s];
  }

  /** Every entry the scan appends is an MP3 file of the listing. */
  lemma {:induction false} ScanAddsListedFiles(p: PlayerState, musicDir: string, listing: seq<string>, idOk: set<string>, probe: map<string, int>)
    ensures var r := ScanMusicDir(p, musicDir, listing, idOk, probe);
      forall k :: |p.playlist| <= k < |r.playlist| ==> AddedFrom(r.playlist[k], musicDir, listing, idOk, probe)
    decreases |listing|
  {
    if listing != [] {
      var init := listing[..|listing| - 1];
      var s := listing[|listing| - 1];
      assert listing == init + [s];
      ScanAddsListedFiles(p, musicDir, init, idOk, probe);
      ScanOnlyAppends(p, musicDir, init, idOk, probe);
      var q := ScanMusicDir(p, musicDir, init, idOk, probe);
      var r := ScanEntry(q, musicDir, s, idOk, probe);
      forall k | |p.playlist| <= k < |r.playlist|
        ensures AddedFrom(r.playlist[k], musicDir, listing, idOk, probe)
      {
        if k < |q.playlist| {
          assert r.playlist[k] == q.playlist[k];
          AddedFromLonger(q.playlist[k], musicDir, init, s, idOk, probe);
        } else {
          assert r.playlist[k] == SongMetadata(JoinPath(musicDir, s), idOk, probe);
          assert s in listing;
        }
      }
    }
  }

  /** The title the scan gives the directory entry `song`. */
  function ScanTitle(musicDir: string, song: string, idOk: set<string>, probe: map<string, int>): string
  {
    SongMetadata(JoinPath(musicDir, song), idOk, probe).title
  }

  /** No new MP3 file of the listing gets a title the catalog already has
      or another such file also gets. */
  predicate FreshTitles(catalog: map<string, Track>, musicDir: string, listing: seq<string>, idOk: set<string>, probe: map<string, int>)
  {
    && (forall s :: s in listing && EndsWith(s, ".mp3") ==> ScanTitle(musicDir, s, idOk, probe) !in catalog)
    && (forall s, t :: s in listing && t in listing && EndsWith(s, ".mp3") && EndsWith(t, ".mp3")
          && ScanTitle(musicDir, s, idOk, probe) == ScanTitle(musicDir, t, idOk, probe)
          ==> s == t)
  }

  /** After a scan, every MP3 file of the listing has metadata, provided the
      titles are fresh: a title that clashes overwrites the metadata file of
      another song, which the next scan then adds again. */
  lemma {:induction false} ScanCoversListing(p: PlayerState, musicDir: string, listing: seq<string>, idOk: set<string>, probe: map<string, int>)
    requires FreshTitles(p.catalog, musicDir, listing, idOk, probe)
    ensures forall s :: s in listing && EndsWith(s, ".mp3") ==>
      HasMetadata(ScanMusicDir(p, musicDir, listing, idOk, probe).catalog, JoinPath(musicDir, s))
    decreases |listing|
  {
    if listing != [] {
      var init := listing[..|listing| - 1];
      var s := listing[|listing| - 1];
      assert listing == init + [s];
      FreshPrefix(p.catalog, musicDir, init, s, idOk, probe);
      ScanCoversListing(p, musicDir, init, idOk, probe);
      ScanCoversLast(p, musicDir, init, s, idOk, probe);
    }
  }

  /** The inductive step of `ScanCoversListing`: the scan of `init` covers
      `init`, so the scan of `init + [s]` covers both. */
  lemma ScanCoversLast(p: PlayerState, musicDir: string, init: seq<string>, s: string, idOk: set<string>, probe: map<string, int>)
    requires FreshTitles(p.catalog, musicDir, init + [s], idOk, probe)
    requires forall x :: x in init && EndsWith(x, ".mp3") ==>
      HasMetadata(ScanMusicDir(p, musicDir, init, idOk, probe).catalog, JoinPath(musicDir, x))
    ensures forall x :: x in init + [s] && EndsWith(x, ".mp3") ==>
      HasMetadata(ScanMusicDir(p, musicDir, init + [s], idOk, probe).catalog, JoinPath(musicDir, x))
  {
    var q := ScanMusicDir(p, musicDir, init, idOk, probe);
    if EndsWith(s, ".mp3") && !HasMetadata(q.catalog, JoinPath(musicDir, s)) {
      var t := ScanTitle(musicDir, s, idOk, probe);
      if t in q.catalog {
        ScanCatalogTitles(p, musicDir, init, idOk, probe, t);
      }
    }
    ScanCoversStep(q, musicDir, init, s, idOk, probe);
    assert (init + [s])[..|init + [s]| - 1] == init;
  }

  /** The last turn of a scan keeps the earlier files' metadata and records its own file. */
  lemma ScanCoversStep(q: PlayerState, musicDir: string, init: seq<string>, s: string, idOk: set<string>, probe: map<string, int>)
    requires forall x :: x in init && EndsWith(x, ".mp3") ==> HasMetadata(q.catalog, JoinPath(musicDir, x))
    requires EndsWith(s, ".mp3") && !HasMetadata(q.catalog, JoinPath(musicDir, s)) ==> ScanTitle(musicDir, s, idOk, probe) !in q.catalog
    ensures forall x :: x in init + [s] && EndsWith(x, ".mp3") ==>
      HasMetadata(ScanEntry(q, musicDir, s, idOk, probe).catalog, JoinPath(musicDir, x))
  {
    var path := JoinPath(musicDir, s);
    if EndsWith(s, ".mp3") {
      ScanEntryRecords(q, musicDir, s, idOk, probe);
    }
    if EndsWith(s, ".mp3") && !HasMetadata(q.catalog, path) {
      StoreKeepsListed(q.catalog, ScanTitle(musicDir, s, idOk, probe), SongMetadata(path, idOk, probe), musicDir, init);
    }
  }

  /** A listing's titles stay fresh without its last entry. */
  lemma FreshPrefix(catalog: map<string, Track>, musicDir: string, init: seq<string>, s: string, idOk: set<string>, probe: map<string, int>)
    requires FreshTitles(catalog, musicDir, init + [s], idOk, probe)
    ensures FreshTitles(catalog, musicDir, init, idOk, probe)
  {
    assert forall x :: x in init ==> x in init + [s];
  }

  /** Adding metadata under a new title keeps every metadata file there was. */
  lemma StoreKeepsMetadata(catalog: map<string, Track>, t: string, m: Track, path: string)
    requires t !in catalog && HasMetadata(catalog, path)
    ensures HasMetadata(catalog[t := m], path)
  {
    var k :| k in catalog && catalog[k].path == path;
    assert catalog[t := m][k] == catalog[k];
  }

  /** Filing metadata under a fresh title keeps every listed file's metadata. */
  lemma StoreKeepsListed(catalog: map<string, Track>, t: string, m: Track, musicDir: string, listing: seq<string>)
    requires t !in catalog
    requires forall x :: x in listing && EndsWith(x, ".mp3") ==> HasMetadata(catalog, JoinPath(musicDir, x))
    ensures forall x :: x in listing && EndsWith(x, ".mp3") ==> HasMetadata(catalog[t := m], JoinPath(musicDir, x))
  {
    forall x | x in listing && EndsWith(x, ".mp3")
      ensures HasMetadata(catalog[t := m], JoinPath(musicDir, x))
    {
      StoreKeepsMetadata(catalog, t, m, JoinPath(musicDir, x));
    }
  }

  /** A key the scan adds to the catalog is the title of one of the listing's MP3 files. */
  lemma {:induction false} ScanCatalogTitles(p: PlayerState, musicDir: string, listing: seq<string>, idOk: set<string>, probe: map<string, int>, k: string)
    requires k in ScanMusicDir(p, musicDir, listing, idOk, probe).catalog && k !in p.catalog
    ensures exists s :: s in listing && EndsWith(s, ".mp3") && ScanTitle(musicDir, s, idOk, probe) == k
    decreases |listing|
  {
    var init := listing[..|listing| - 1];
    var s := listing[|listing| - 1];
    assert forall x :: x in init ==> x in listing;
    var q := ScanMusicDir(p, musicDir, init, idOk, probe);
    var r := ScanEntry(q, musicDir, s, idOk, probe);
    if r != q && k == ScanTitle(musicDir, s, idOk, probe) {
      assert s in listing;
    } else {
      ScanCatalogTitles(p, musicDir, init, idOk, probe, k);
    }
  }

  // ----------------------------------------------------------- download

  /** What the downloader reports: an error, or the title and id it found
      (either may be missing) and the file name its output template gave. */
  datatype Extraction = ExtractFailed(error: string) | Extracted(title: Option<string>, id: Option<string>, filename: string)

  /** The downloaded file: the template's name with `.mp3`, else the first of
      `.mp3`, `.m4a`, `.aac` that exists, else none. */
  function DownloadedFile(filename: string, existing: set<string>): (path: Option<string>)
    ensures path.Some? ==>
      path.value in existing && path.value in {SplitExtRoot(filename) + ".mp3", SplitExtRoot(filename) + ".m4a", SplitExtRoot(filename) + ".aac"}
    ensures path.None? <==> (forall ext :: ext in [".mp3", ".m4a", ".aac"] ==> SplitExtRoot(filename) + ext !in existing)
    ensures SplitExtRoot(filename) + ".mp3" in existing ==> path == Some(SplitExtRoot(filename) + ".mp3")
    ensures SplitExtRoot(filename) + ".mp3" !in existing && SplitExtRoot(filename) + ".m4a" in existing ==>
      path == Some(SplitExtRoot(filename) + ".m4a")
  {
    var root := SplitExtRoot(filename);
    if root + ".mp3" in existing then Some(root + ".mp3")
    else if root + ".m4a" in existing then Some(root + ".m4a")
    else if root + ".aac" in existing then Some(root + ".aac")
    else None
  }

  /** The metadata of a finished download: the reported title, or else the
      file's base name; the probed duration, or else 0. */
  function DownloadEntry(title: Option<string>, id: Option<string>, path: string, probe: map<string, int>): (t: Track)
    ensures t.path == path && t.youtubeId == id
    ensures path in probe ==> t.duration == Some(probe[path])
    ensures path !in probe ==> t.duration == Some(0)
    ensures t.title == if title.Some? && title.value != "" then title.value else Basename(path)
  {
    Track(if title.Some? && title.value != "" then title.value else Basename(path),
          path, Some(if path in probe then probe[path] else 0), id)
  }

  /** The body of `_download_worker` before its final scan: exactly one
      entry and one `download_complete`, or no entry and one `download_failed`.
      `save` is whether writing the metadata file succeeds. */
  function DownloadBranch(p: PlayerState, x: Extraction, existing: set<string>, probe: map<string, int>, save: Outcome): (r: PlayerState)
    ensures |r.outbox| == |p.outbox| + 1 && r.outbox[..|p.outbox|] == p.outbox
    ensures r.(playlist := p.playlist, catalog := p.catalog, outbox := p.outbox) == p
    ensures r.outbox[|p.outbox|].tag == "download_complete" <==> r.playlist != p.playlist
    ensures r.outbox[|p.outbox|].tag == "download_complete" ==>
      x.Extracted? && DownloadedFile(x.filename, existing).Some? && save.Pass?
      && var e := DownloadEntry(x.title, x.id, DownloadedFile(x.filename, existing).value, probe);
      r.playlist == p.playlist + [e] && r.catalog == p.catalog[e.title := e]
      && r.outbox[|p.outbox|] == DownloadComplete(e.title)
    ensures r.outbox[|p.outbox|].tag != "download_complete" ==>
      r.outbox[|p.outbox|].tag == "download_failed" && r.playlist == p.playlist && r.catalog == p.catalog
  {
    match x
    case ExtractFailed(e) => p.(outbox := p.outbox + [DownloadFailed(e)])
    case Extracted(title, id, filename) =>
      match DownloadedFile(filename, existing)
      case None => p.(outbox := p.outbox + [DownloadFailed("file-not-found-after-download")])
      case Some(path) =>
        var entry := DownloadEntry(title, id, path, probe);
        match save
        case Fail(e) => p.(outbox := p.outbox + [DownloadFailed(e)])
        case Pass => p.(catalog := p.catalog[entry.title := entry], playlist := p.playlist + [entry],
                        outbox := p.outbox + [DownloadComplete(entry.title)])
  }

  /** `_download_worker(url)`, run to its end: the branch above, then the scan of the music directory. */
  function DownloadWorker(p: PlayerState, x: Extraction, existing: set<string>, probe: map<string, int>, save: Outcome,
                          musicDir: string, listing: seq<string>, idOk: set<string>): (r: PlayerState)
    ensures r.index == p.index && r.isPlaying == p.isPlaying && r.isStopped == p.isStopped && r.volume == p.volume
    ensures r.currentTitle == p.currentTitle && r.presence == p.presence && r.isOnline == p.isOnline
    ensures r.playlistFiles == p.playlistFiles
    ensures |r.outbox| > |p.outbox| && r.outbox[..|p.outbox|] == p.outbox
    ensures r.outbox[|p.outbox|].tag == "download_complete" || r.outbox[|p.outbox|].tag == "download_failed"
    ensures |r.playlist| >= |p.playlist| && r.playlist[..|p.playlist|] == p.playlist
    ensures forall k :: |p.outbox| < k < |r.outbox| ==> r.outbox[k].tag == "song_added"
    ensures var b := DownloadBranch(p, x, existing, probe, save);
      r.outbox[|p.outbox|] == b.outbox[|p.outbox|] && |r.playlist| >= |b.playlist| && r.playlist[..|b.playlist|] == b.playlist
  {
    var b := DownloadBranch(p, x, existing, probe, save);
    ScanOnlyAppends(b, musicDir, listing, idOk, probe);
    BranchThenAppends(p, b, ScanMusicDir(b, musicDir, listing, idOk, probe));
    ScanMusicDir(b, musicDir, listing, idOk, probe)
  }

  /** Songs appended after the one message of the download branch leave that
      message in its place, after the old ones. */
  lemma BranchThenAppends(p: PlayerState, b: PlayerState, r: PlayerState)
    requires |b.outbox| == |p.outbox| + 1 && b.outbox[..|p.outbox|] == p.outbox
    requires |b.playlist| >= |p.playlist| && b.playlist[..|p.playlist|] == p.playlist
    requires AppendsSongs(b, r)
    ensures |r.outbox| > |p.outbox| && r.outbox[..|p.outbox|] == p.outbox && r.outbox[|p.outbox|] == b.outbox[|p.outbox|]
    ensures |r.playlist| >= |p.playlist| && r.playlist[..|p.playlist|] == p.playlist
    ensures forall k :: |p.outbox| < k < |r.outbox| ==> r.outbox[k].tag == "song_added"
  {
    assert r.outbox[..|p.outbox|] == r.outbox[..|b.outbox|][..|p.outbox|];
    assert r.playlist[..|p.playlist|] == r.playlist[..|b.playlist|][..|p.playlist|];
  }

  // ------------------------------------------------------- properties

  /** `play(i)` with `i` out of range changes nothing at all. */
  lemma PlayOutOfRange(p: PlayerState, i: int, engine: Outcome, flavor: Result<string>, now: int)
    requires !(0 <= i < |p.playlist|)
    ensures Play(p, Some(i), engine, flavor, now) == Ok(p)
  {
  }

  /** `play` keeps the player valid. */
  lemma PlayKeepsValid(p: PlayerState, idx: Option<int>, engine: Outcome, flavor: Result<string>, now: int)
    requires Valid(p) && Play(p, idx, engine, flavor, now).Ok?
    ensures Valid(Play(p, idx, engine, flavor, now).value)
  {
  }

  /** The transport operations and `set_volume` keep the player valid. */
  lemma TransportKeepsValid(p: PlayerState, v: real)
    requires Valid(p)
    ensures Valid(Pause(p)) && Valid(Resume(p)) && Valid(Stop(p)) && Valid(SetVolume(p, v))
  {
  }

  /** `skip` keeps the player valid. */
  lemma SkipKeepsValid(p: PlayerState, engine: Outcome, flavor: Result<string>, now: int)
    requires Valid(p)
    ensures Valid(Skip(p, engine, flavor, now))
  {
    if p.playlist != [] {
      var j := NextPosition(p.index, |p.playlist|);
      PlayKeepsValid(p.(index := j), Some(j), engine, flavor, now);
    }
  }

  /** `resume()` after `stop()` never starts playback again. */
  lemma ResumeAfterStop(p: PlayerState)
    requires Valid(p)
    ensures !Resume(Stop(p)).isPlaying
    ensures Resume(Stop(p)) == Stop(p)
  {
  }

  /** Pausing and resuming a playing player plays again at the same position,
      with one `paused` and one `resumed` more on the queue. */
  lemma PauseThenResume(p: PlayerState)
    requires p.isPlaying && Valid(p)
    ensures Resume(Pause(p)) == p.(outbox := p.outbox + [Paused(), Resumed()])
  {
  }

  /** The end-of-track event calls `skip()` whatever came before, so a
      track that ends after `stop()` starts the next one playing. */
  lemma SkipAfterStopPlays(p: PlayerState, details: string, now: int)
    requires p.playlist != []
    ensures var r := Skip(Stop(p), Pass, Ok(details), now);
      r.isPlaying && !r.isStopped && r.index == NextPosition(p.index, |p.playlist|)
  {
    var q := Stop(p);
    var j := NextPosition(q.index, |q.playlist|);
    assert !PlayReturnsEarly(q.(index := j), Some(j));
  }

  /** `skip` applied `n` times with the same engine answers. */
  function Skips(p: PlayerState, n: nat, engine: Outcome, flavor: Result<string>, now: int): PlayerState
    decreases n
  {
    if n == 0 then p else Skips(Skip(p, engine, flavor, now), n - 1, engine, flavor, now)
  }

  /** Up to the end of the playlist, `n` skips move the position `n` steps
      forward, and reaching the end wraps to the first entry. */
  lemma {:induction false} SkipsAdvance(p: PlayerState, n: nat, engine: Outcome, flavor: Result<string>, now: int)
    requires p.index < |p.playlist| && p.index + n <= |p.playlist|
    ensures Skips(p, n, engine, flavor, now).index == if p.index + n == |p.playlist| then 0 else p.index + n
    ensures Skips(p, n, engine, flavor, now).playlist == p.playlist
    decreases n
  {
    if n > 0 {
      var q := Skip(p, engine, flavor, now);
      if n > 1 {
        SkipsAdvance(q, n - 1, engine, flavor, now);
      }
    }
  }

  /** As many skips as the playlist is long, from the first entry, come back to it. */
  lemma SkipsComeBack(p: PlayerState, engine: Outcome, flavor: Result<string>, now: int)
    requires p.playlist != [] && p.index == 0
    ensures Skips(p, |p.playlist|, engine, flavor, now).index == 0
  {
    SkipsAdvance(p, |p.playlist|, engine, flavor, now);
  }

  /** The volume is always between 0 and 1 and the report always between 0 and 100. */
  lemma VolumeInRange(p: PlayerState, v: real)
    ensures 0.0 <= SetVolume(p, v).volume <= 1.0
    ensures var m := SetVolume(p, v).outbox[|p.outbox|]; m.data["volume"].FInt? && 0 <= m.data["volume"].i <= 100
  {
  }
}
