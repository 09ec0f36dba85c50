/** The `MusicPlayer` object: the player's fields, updated in place by its
    methods. Each method leaves the fields as the matching function of
    module `Music` says, so every property proved there holds of the
    object too. */
module Player {
  import opened Values
  import opened PyStr
  import opened Music

  class MusicPlayer {
    var playlist: seq<Track>
    var index: nat
    var currentTitle: string
    var volume: real
    var isOnline: bool
    var isPlaying: bool
    var isStopped: bool
    var presence: Presence
    var outbox: seq<Msg>
    var catalog: map<string, Track>
    var playlistFiles: map<string, seq<Track>>

    /** The object's fields as one state. */
    function Model(): PlayerState
      reads this
    {
      PlayerState(playlist, index, currentTitle, volume, isOnline, isPlaying, isStopped,
                  presence, outbox, catalog, playlistFiles)
    }

    /** `MusicPlayer(ui_queue)`, over the metadata and playlist directories it shares. */
    constructor (catalog: map<string, Track>, playlistFiles: map<string, seq<Track>>)
      ensures Model() == Initial(catalog, playlistFiles)
    {
      playlist := [];
      index := 0;
      currentTitle := "";
      volume := 0.8;
      isOnline := true;
      isPlaying := false;
      isStopped := true;
      presence := Idle;
      outbox := [];
      this.catalog := catalog;
      this.playlistFiles := playlistFiles;
    }

    /** `play(index)`; `raised` is the exception that escapes it. */
    method Play(idx: Option<int>, engine: Outcome, flavor: Result<string>, now: int) returns (raised: Option<string>)
      modifies this
      ensures var r := Music.Play(old(Model()), idx, engine, flavor, now);
        && (r.Ok? ==> raised == None && Model() == r.value)
        && (r.Err? ==> raised == Some(r.error) && Model() == old(Model()))
    {
      raised := None;
      if idx.Some? {
        if 0 <= idx.value < |playlist| {
          index := idx.value;
        } else {
          return;
        }
      }
      if playlist == [] {
        return;
      }
      if index >= |playlist| {
        raised := Some("IndexError: list index out of range");
        return;
      }
      StartTrack(engine, flavor, now);
    }

    /** The `try` block of `play`, once the entry at `index` exists. */
    method StartTrack(engine: Outcome, flavor: Result<string>, now: int)
      requires index < |playlist|
      modifies this
      ensures Model() == Start(old(Model()), engine, flavor, now)
    {
      var track := playlist[index];
      match engine
      case Fail(e) =>
        outbox := outbox + [PlayError(e)];
      case Pass =>
        currentTitle := track.title;
        outbox := outbox + [PlayStarted(index + 1, currentTitle)];
        if isOnline {
          match flavor
          case Err(e) =>
            outbox := outbox + [PlayError(e)];
            return;
          case Ok(details) =>
            presence := Listening(details, "Listening to " + currentTitle, now);
        }
        isPlaying := true;
        isStopped := false;
    }

    /** `pause()`. */
    method Pause()
      modifies this
      ensures Model() == Music.Pause(old(Model()))
    {
      if isPlaying {
        isPlaying := false;
        outbox := outbox + [Paused()];
      }
    }

    /** `resume()`. */
    method Resume()
      modifies this
      ensures Model() == Music.Resume(old(Model()))
    {
      if !isPlaying && !isStopped {
        isPlaying := true;
        outbox := outbox + [Resumed()];
      }
    }

    /** `stop()`. */
    method Stop()
      modifies this
      ensures Model() == Music.Stop(old(Model()))
    {
      if !isStopped {
        isPlaying := false;
        isStopped := true;
        presence := Idle;
        outbox := outbox + [Stopped()];
      }
    }

    /** `skip()`: the call to `play` at the next position cannot raise. */
    method Skip(engine: Outcome, flavor: Result<string>, now: int)
      modifies this
      ensures Model() == Music.Skip(old(Model()), engine, flavor, now)
    {
      if playlist == [] {
        return;
      }
      index := index + 1;
      if index >= |playlist| {
        index := 0;
      }
      var raised := Play(Some(index), engine, flavor, now);
    }

    /** `set_volume(v)`. */
    method SetVolume(v: real)
      modifies this
      ensures Model() == Music.SetVolume(old(Model()), v)
    {
      volume := if v < 0.0 then 0.0 else if v > 1.0 then 1.0 else v;
      outbox := outbox + [VolumeReport((volume * 100.0).Floor)];
    }

    /** `save_playlist(name)`; `write` is whether writing the file succeeds. */
    method SavePlaylist(name: string, write: Outcome)
      modifies this
      ensures Model() == Music.SavePlaylist(old(Model()), name, write)
    {
      if name == "" {
        outbox := outbox + [SaveFailedNamed(EmptyName)];
        return;
      }
      match write
      case Pass =>
        playlistFiles := playlistFiles[name := playlist];
        outbox := outbox + [SaveOk(name)];
      case Fail(e) =>
        outbox := outbox + [SaveFailed(e)];
    }

    /** `load_playlist(name)`; `existing` is the set of paths that exist. */
    method LoadPlaylist(name: string, existing: set<string>)
      modifies this
      ensures Model() == Music.LoadPlaylist(old(Model()), name, existing)
    {
      if name == "" {
        outbox := outbox + [LoadFailedNamed(EmptyName)];
        return;
      }
      if name !in playlistFiles {
        outbox := outbox + [LoadFailed(NoPlaylistFile)];
        return;
      }
      playlist := KeepExisting(playlistFiles[name], existing);
      index := 0;
      outbox := outbox + [LoadOk(name, |playlist|)];
    }

    /** `load_song(title)`; `save` is whether writing the metadata back
        succeeds, and `raised` is the exception that escapes. */
    method LoadSong(title: string, save: Outcome) returns (raised: Option<string>)
      modifies this
      ensures var r := Music.LoadSong(old(Model()), title, save);
        && (r.Ok? ==> raised == None && Model() == r.value)
        && (r.Err? ==> raised == Some(r.error) && Model() == old(Model()))
    {
      if title !in catalog {
        return Some("FileNotFoundError: no metadata file");
      }
      var metadata := catalog[title];
      if save.Fail? {
        return Some(save.reason);
      }
      catalog := catalog[metadata.title := metadata];
      playlist := playlist + [metadata];
      outbox := outbox + [SongAdded(title)];
      return None;
    }

    /** `check_music_dir_for_new_songs()` over the directory listing `listing`. */
    method CheckMusicDir(musicDir: string, listing: seq<string>, idOk: set<string>, probe: map<string, int>)
      modifies this
      ensures Model() == ScanMusicDir(old(Model()), musicDir, listing, idOk, probe)
    {
      var i := 0;
      while i < |listing|
        invariant 0 <= i <= |listing|
        invariant Model() == ScanMusicDir(old(Model()), musicDir, listing[..i], idOk, probe)
      {
        ScanMusicDirStep(old(Model()), musicDir, listing, i, idOk, probe);
        ScanSong(musicDir, listing[i], idOk, probe);
        i := i + 1;
      }
      assert listing[..|listing|] == listing;
    }

    /** The body of the scan's loop, for the directory entry `song`. */
    method ScanSong(musicDir: string, song: string, idOk: set<string>, probe: map<string, int>)
      modifies this
      ensures Model() == ScanEntry(old(Model()), musicDir, song, idOk, probe)
    {
      var path := JoinPath(musicDir, song);
      if EndsWith(song, ".mp3") && !HasMetadata(catalog, path) {
        var metadata := SongMetadata(path, idOk, probe);
        AddSong(metadata);
      }
    }

    /** `save_song_metadata(metadata)`, the append to the queue and its
        `song_added`. */
    method AddSong(metadata: Track)
      modifies this
      ensures Model() == old(Model()).(catalog := old(catalog)[metadata.title := metadata],
                                       playlist := old(playlist) + [metadata],
                                       outbox := old(outbox) + [SongAdded(metadata.title)])
    {
      catalog := catalog[metadata.title := metadata];
      playlist := playlist + [metadata];
      outbox := outbox + [SongAdded(metadata.title)];
    }

    /** `_download_worker(url)`, run to its end; `x` is what the downloader
        reports, and the scan that ends the worker sees `listing`. */
    method DownloadWorker(x: Extraction, existing: set<string>, probe: map<string, int>, save: Outcome,
                          musicDir: string, listing: seq<string>, idOk: set<string>)
      modifies this
      ensures Model() == Music.DownloadWorker(old(Model()), x, existing, probe, save, musicDir, listing, idOk)
    {
      Download(x, existing, probe, save);
      CheckMusicDir(musicDir, listing, idOk, probe);
    }

    /** The `try` block of `_download_worker`. */
    method Download(x: Extraction, existing: set<string>, probe: map<string, int>, save: Outcome)
      modifies this
      ensures Model() == DownloadBranch(old(Model()), x, existing, probe, save)
    {
      match x {
        case ExtractFailed(e) =>
          outbox := outbox + [DownloadFailed(e)];
        case Extracted(title, id, filename) =>
          var path := DownloadedFile(filename, existing);
          if path.Some? {
            var entry := DownloadEntry(title, id, path.value, probe);
            match save
            case Fail(e) =>
              outbox := outbox + [DownloadFailed(e)];
            case Pass =>
              catalog := catalog[entry.title := entry];
              playlist := playlist + [entry];
              outbox := outbox + [DownloadComplete(entry.title)];
          } else {
            outbox := outbox + [DownloadFailed("file-not-found-after-download")];
          }
      }
    }
  }
}
