# Terra's Music Player, modelled in Dafny

This project models the playback core of a pygame music player, following its own source:

- **`MusicPlayer`** holds a queue of songs, a position, and the `is_playing`/`is_stopped` flags. It posts tagged messages to the UI thread through a queue.
- **The playlist widget** lets the user drag rows to reorder the queue, delete a row with Shift and the right mouse button, show a row's folder, and scroll.
- **The main loop** drains the message queue onto two labels through a table of `str.format` templates. Its Download button splits the URL box into lines.
- **`ui_framework`** contributes a publish/subscribe event registry, a style sheet, and the input handling of buttons, text boxes and sliders.
- **The JSON UI loader** turns scene descriptions into constructor calls. It edits the stored scene in place while doing so.
- **The playlist repair script** rewrites the durations stored in a saved playlist.

Each part is modelled in the form its source takes:

- **Objects become classes.** `MusicPlayer`, `PlaylistWidget`, `UIEventRegistry`, `Button`, `TextBox`, `Slider` and `JSONUILoader` each become a Dafny `class` with the same fields. Their methods update those fields.
- **Each state-changing method is proved against a function.** Most `MusicPlayer` methods ensure `Model() == F(old(Model()), …)`, where `F` is a function of module `Music`. `Play` and `LoadSong` go through the `Result` of their function: an error leaves the state unchanged, and a success gives the function's state. `AddSong` has no function of its own; it ensures the record update (metadata stored, entry appended, `song_added` posted) written out. The lemmas about the player are stated over the functions. The widget's methods are proved the same way against `QueueStep`, and the loader's against `SceneToUi`.
- **Loops stay loops.** The directory scan, the scene reload, the loader's transform, the message drain, `dispatch`, and the playlist repair are `while` loops with invariants. The repair loop works in place on an `array`.
- **Oracles replace the outside world.** The audio engine, the downloader (yt_dlp), the MP3 probe (mutagen), the YouTube check (an HTTP request), the random flavour line, the clock, `os.path.exists` and the outcome of the playlist, metadata and download writes become parameters. Each is an `Outcome`, a `Result`, a set of paths that exist, or a map of probe answers.
- **Directories become maps.** The metadata directory is a map from file stem to song metadata. The playlist directory is a map from name to saved entries. The scene folder is a sequence of parsed files.
- **Python semantics are written out.** Slicing with negative and clamped bounds, `str.strip`, `str.splitlines`, `str.replace` and `str(int)` follow Python's definitions. `os.path.basename`, `os.path.join` and `os.path.splitext` follow POSIX `posixpath`. A dict keeps its insertion order: it is a sequence of key/value pairs.

Modules: `Values` (values.dfy), `PyStr` (text.dfy), `UiFramework` (framework.dfy), `JsonUiLoader` (loader.dfy), `Music` (player.dfy), `Player` (player_class.dfy), `PlaylistQueue` (widget.dfy), `MainLoop` (status.dfy) and `PlaylistFix` (playlist_fix.dfy).

Two behaviours of the code are easy to misread:

- **A stop at the end of a track does not stay stopped.** The main loop calls `skip()` on every end-of-track event (music.py:723-725), even after `stop()`. Since `skip()` plays the next entry, playback starts again; `Music.SkipAfterStopPlays` states this.
- **The messages are the code's own.** The player's tags and payloads are modelled as the code writes them. Three of them do not fit the main loop's status table, and the wheel-down bound can go negative; both are listed under Findings. The player class uses these as-written definitions, and the corrected ones sit beside them.

## Model

| member | source | states |
|---|---|---|
| UiFramework.StyleManager.GetStyle | utils/ui_framework.py:12-13 | the style filed under both the widget type and the state; an empty dict when either key is missing |
| UiFramework.Registered | utils/ui_framework.py:25-28 | the registered kind gets the handler appended to its list, which is created empty if the kind is new; every other kind keeps its handlers; the only key added is that kind |
| UiFramework.RegisterAllKeepsOrder | utils/ui_framework.py:25-28 | after any run of registrations, each kind has its earlier handlers followed by the ones registered for it, in registration order |
| UiFramework.Invocations | utils/ui_framework.py:30-33 | one call per handler, in order, each with the event's data |
| UiFramework.FirstRaise | utils/ui_framework.py:32-33 | the position of the first handler that raises, or the number of handlers: every earlier call returns normally |
| UiFramework.DispatchOf | utils/ui_framework.py:30-33 | the calls a dispatch makes are a prefix of the handler list; none raises exactly when all are made; otherwise the last call made raises with the propagated error and every earlier one returns |
| UiFramework.DispatchWithoutRaise | utils/ui_framework.py:30-33 | when no handler raises, every handler is called in order and nothing propagates |
| UiFramework.UIEventRegistry.constructor | utils/ui_framework.py:21-23 | empty registry and empty event queue |
| UiFramework.UIEventRegistry.Register | utils/ui_framework.py:25-28 | the registry becomes `Registered` of the old one; the queue is unchanged |
| UiFramework.UIEventRegistry.Dispatch | utils/ui_framework.py:30-33 | the handlers of the event's kind are called in order, once each, with the event's data, until one raises; that error propagates and no later handler is called; an unregistered kind calls nothing |
| UiFramework.UIEventRegistry.Post | utils/ui_framework.py:23 | `event_queue.append(e)` by a client (no code in the repository makes one): the event goes at the back and nothing else changes |
| UiFramework.UIEventRegistry.ProcessNextEvent | utils/ui_framework.py:35-38 | an empty queue does nothing; otherwise the oldest event leaves the queue, the rest keep their order, and the calls and the propagated error are those of dispatching that event |
| UiFramework.ButtonStep | utils/ui_framework.py:72-81 | a press inside shows "pressed" and fires exactly when `fire_event` is non-empty, with no data; motion shows "hover" inside and "default" outside; nothing else changes the state or fires |
| UiFramework.Button.constructor | utils/ui_framework.py:66-69 | rect, text and callback are stored and the state is "default" |
| UiFramework.Button.HandleEvent | utils/ui_framework.py:72-81 | the new state is `ButtonStep`'s; when `ButtonStep` fires, the calls and any propagated error are those of dispatching the callback with no data; otherwise no call is made |
| UiFramework.CleanPaste | utils/ui_framework.py:134 | the result contains none of the characters the pattern strips |
| UiFramework.CleanPasteCounts | utils/ui_framework.py:134 | every occurrence of every other character is kept (tab, line feed and carriage return among them), and every occurrence of a stripped one is removed |
| UiFramework.CleanPasteConcat | utils/ui_framework.py:134 | cleaning works character by character, so the kept characters stay in order |
| UiFramework.CleanPasteKeeps | utils/ui_framework.py:134 | text with nothing to strip is pasted unchanged |
| UiFramework.TextBoxKeys | utils/ui_framework.py:123-143 | a press anywhere sets `active` to whether it hit the box; an inactive box ignores keys; Backspace drops the last character (empty stays empty); Return deactivates without editing; any other key appends its text; Ctrl+V appends the cleaned clipboard, then the key's text |
| UiFramework.TextBoxStep | utils/ui_framework.py:123-143 | only a key press on an active box changes the text; every key but Backspace only appends to it; an inactive box ignores everything but a click |
| UiFramework.TextBox.constructor | utils/ui_framework.py:115-121 | rect and text stored, inactive |
| UiFramework.TextBox.HandleEvent | utils/ui_framework.py:123-143 | the new text and `active` are those of the step function that `TextBoxKeys` describes |
| UiFramework.Clamp01 | utils/ui_framework.py:179 | the result is in [0, 1] and equals the input inside that range |
| UiFramework.SliderStep | utils/ui_framework.py:172-182 | the step raises exactly for a drag over a zero-width slider; any event other than a drag leaves the value and fires nothing |
| UiFramework.SliderStaysInRange | utils/ui_framework.py:177-180 | with `min_val <= max_val`, a drag leaves the value in [min_val, max_val], and a value inside that range stays inside it |
| UiFramework.DragValueInRange | utils/ui_framework.py:178-180 | `min_val + pct * (max_val - min_val)` with the clamped `pct` lies in [min_val, max_val] |
| UiFramework.DragValue | utils/ui_framework.py:178-180 | a cursor left of the track gives `min_val`, one right of it gives `max_val` |
| UiFramework.Slider.constructor | utils/ui_framework.py:164-170 | bounds, start value and callback stored, not dragging |
| UiFramework.Slider.HandleEvent | utils/ui_framework.py:172-182 | the new value and dragging flag are `SliderStep`'s; a fault changes nothing; a drag with a callback dispatches it with the new value, stopping at the first handler that raises |
| JsonUiLoader.DefaultWidgetTypes | utils/json_ui_loader.py:13-19 | exactly the five type names container, label, button, slider and textbox |
| JsonUiLoader.ScenesOf | utils/json_ui_loader.py:27-32 | no more scenes than files, and the last file read is stored under its stem |
| JsonUiLoader.ScenesOfKeys | utils/json_ui_loader.py:27-32 | the scenes read are keyed by exactly the folder's file stems, each once |
| JsonUiLoader.ScenesOfLast | utils/json_ui_loader.py:29-32 | the scene under a stem is the contents of the last file with that stem |
| JsonUiLoader.TransformWidget | utils/json_ui_loader.py:55-59 | a failing entry is left as it was, or with only `name` set when the style lookup raised; a successful entry is left holding exactly the constructor's arguments |
| JsonUiLoader.StyleArgument | utils/json_ui_loader.py:57 | the style for the entry's `state`, "default" when there is none; a list or dict as the state raises |
| JsonUiLoader.TransformTyped | utils/json_ui_loader.py:56-59 | the entry is left with `name` set to its key whether or not the style lookup raises; a success calls the registered class with the edited entry |
| JsonUiLoader.FirstFailure | utils/json_ui_loader.py:54-60 | the index of the first entry that raises: every earlier one succeeds |
| JsonUiLoader.SceneToUiWidgets | utils/json_ui_loader.py:54-61 | a successful load makes one constructor call per widget entry, in order, with the registered class, `name` = the entry's key, and `style` = the style for (type, state or "default"); without duplicate keys, `type` is gone |
| JsonUiLoader.SceneToUi | utils/json_ui_loader.py:43-61 | a scene without a dict of widgets raises and is left as it was; otherwise only its `widgets` entry is rewritten, and a success makes as many calls as there are entries |
| JsonUiLoader.TransformWidgetArgs | utils/json_ui_loader.py:55-59 | the arguments of one successfully transformed entry: class, `name` and `style` as above, and no `type` |
| JsonUiLoader.WidgetArgsFacts | utils/json_ui_loader.py:56-59 | setting `name` and `style` and popping `type` leaves both set, `type` gone and the keys distinct |
| JsonUiLoader.UnregisteredTypeFails | utils/json_ui_loader.py:55 | an entry whose type is not registered makes the whole load return no UI |
| JsonUiLoader.SecondLoadFails | utils/json_ui_loader.py:54-70 | the transform edits the stored scene, so loading the same scene again fails on its first entry's missing `type` |
| JsonUiLoader.UntypedFirstFails | utils/json_ui_loader.py:55 | a scene whose first entry has no `type` loads nothing |
| JsonUiLoader.JSONUILoader.constructor | utils/json_ui_loader.py:8-25 | the five built-in types, the given style sheet, and every scene of the folder, no name twice |
| JsonUiLoader.JSONUILoader.ReloadScenes | utils/json_ui_loader.py:27-32 | `scenes` is replaced wholesale by the folder's scenes, no name twice; the type registry and styles are unchanged |
| JsonUiLoader.JSONUILoader.RegisterWidgetType | utils/json_ui_loader.py:34-41 | exactly one type name is added or rebound; everything else is unchanged |
| JsonUiLoader.JSONUILoader.GetSceneNames | utils/json_ui_loader.py:82-88 | the keys of `scenes`, in order; no name occurs twice |
| JsonUiLoader.JSONUILoader.LoadScene | utils/json_ui_loader.py:63-70 | a missing name raises and changes nothing; otherwise the result is the transform of the stored scene, and the edited scene stays stored under its name; no name is stored twice afterwards |
| JsonUiLoader.JSONUILoader.TransformScene | utils/json_ui_loader.py:43-61 | matches `SceneToUi`, including the three ways a scene that is not shaped right raises |
| JsonUiLoader.JSONUILoader.TransformEntries | utils/json_ui_loader.py:54-61 | the loop stops at the first entry that raises, having edited it and every entry before it; if none raises, one call per entry |
| Values.Lookup | playlist_fix.py:15 | `d.get(k)`: a value exactly when the key is present, and that value is stored under the key |
| Values.Store | utils/json_ui_loader.py:57-58 | `d[k] = v`: the key now maps to `v`; an existing key adds no entry, a new key goes to the end; distinct keys stay distinct |
| Values.Remove | utils/json_ui_loader.py:59 | `del`/`pop` of `k`: one entry fewer when `k` is present, nothing changes otherwise; with distinct keys, exactly `k` is gone |
| Values.RemoveOther | utils/json_ui_loader.py:59 | popping one key leaves every other key's value |
| Values.StoreOther | utils/json_ui_loader.py:57-58 | setting one key leaves every other key's value |
| PyStr.SliceBound | music.py:97 | a slice bound normalised as Python does: negative bounds count from the end, and out-of-range bounds are clamped |
| PyStr.Slice | music.py:100 | `s[lo:hi]` is the chars between the normalised bounds, or empty when they cross |
| PyStr.Strip | music.py:669 | neither end of the result is white space; the result is empty exactly when the text is all white space; otherwise it is the run after the leading white space |
| PyStr.StripIdempotent | music.py:673 | stripping twice is stripping once |
| PyStr.StripFixed | music.py:673 | text without surrounding white space is unchanged |
| PyStr.LineBreakIsSpace | music.py:669-673 | every line break is white space |
| PyStr.IsSpace | music.py:669-673 | `str.isspace`: blank, tab, newline and carriage return are white space, and no printable ASCII character other than the blank is |
| PyStr.IsLineBreak | music.py:673 | the `splitlines` breaks include newline and carriage return; every break is white space, but neither blank nor tab is a break |
| PyStr.SplitLines | music.py:673 | no line contains a line break, and there are at most as many lines as characters |
| PyStr.SplitLinesFirst | music.py:673 | a line without breaks followed by a line feed is the first line, and the rest is split on its own |
| PyStr.SplitJoinLines | music.py:673 | lines without breaks, each ended by a line feed, split back into the same lines, empty ones included |
| PyStr.ReplaceAbsent | music.py:132 | text without the pattern is left as it is |
| PyStr.ReplaceAll | music.py:132 | `str.replace`: replacing a pattern by itself changes nothing; a replacement no longer than the pattern never lengthens the text, and one of equal length keeps it |
| PyStr.Basename | music.py:84 | the text after the last `/`: a slash-free suffix, preceded by a slash unless it is the whole path |
| PyStr.JoinPath | music.py:232 | an absolute second part replaces the first; otherwise the result ends with the second part |
| PyStr.EndsWith | music.py:234 | `str.endswith`: the text is some prefix followed by the suffix, in both directions |
| PyStr.BasenameOfJoin | music.py:132 | the base name of a directory entry joined onto a directory is the entry's name |
| PyStr.SplitExtRoot | music.py:195 | the path up to its last `.` of the final component (the leading dots of a name do not count) |
| PyStr.SplitExtOf | music.py:195 | splitting the extension off `root + "." + ext` gives back `root` |
| PyStr.NatToStr | music.py:770 | `str(n)`: non-empty decimal digits without leading zeros |
| PyStr.NatToStrValue | music.py:770 | the digits read back give the number |
| PyStr.IntToStr | music.py:770 | `str(i)`: non-empty, led by `-` exactly for a negative number; the digits read back as the number (its magnitude when negative) |
| Music.StripYoutubeId | music.py:95-97 | the first `len-16` characters; empty for a name shorter than 16 |
| Music.YoutubeId | music.py:99-100 | the 11 characters ending four before the end, for a name of at least 15; the clamped slice for shorter ones |
| Music.StripYoutubeIdSplits | music.py:95-100 | for a name of at least 16 characters, the title followed by its last 16 characters is the name |
| Music.YoutubeTemplate | music.py:95-100 | both helpers undo the download template `<title>-<id>.mp3` for an 11-character id |
| Music.Initial | music.py:161-170 | the new player is valid, with an empty queue, position 0, no title, volume 0.8, stopped and not playing, online, the default presence, no messages, and the given metadata and playlist directories |
| Music.Play | music.py:249-277 | an index out of range, or an empty queue, changes nothing; a stale position raises; otherwise it plays the entry at the position. An engine failure posts only `play_error`. Success sets the title and posts one `play_started` with the 1-based position; it sets playing and not stopped, unless the flavour line fails, which posts `play_error`. Queue, volume and directories are untouched |
| Music.Start | music.py:258-277 | the library, queue and position are untouched; one or two messages are added. An engine failure posts `play_error` first and leaves the flags and title. Otherwise `play_started` with the 1-based position comes first and the title is set. The flags change only to playing and not stopped, and the presence only on a flavour line while online. Each case is a whole record: an engine failure only appends `play_error`; a flavour error while online sets the title and appends `play_started` then `play_error`; otherwise the title is set, the player is playing and not stopped, `play_started` alone is appended, and the presence is the flavour card when online |
| Music.Pause | music.py:279-283 | acts only while playing: clears `is_playing` and posts `paused` |
| Music.Resume | music.py:285-289 | acts only when neither playing nor stopped: sets `is_playing` and posts `resumed` |
| Music.Stop | music.py:291-298 | acts only when not stopped: stopped, not playing, default presence, `stopped` posted, and every other field (title, queue, position, volume) as it was; when already stopped, nothing changes |
| Music.NextPosition | music.py:303-305 | the next position, wrapping to 0 at the end; always within the queue |
| Music.Skip | music.py:300-306 | an empty queue is left alone; otherwise the position moves to `NextPosition` and that entry is started as `Start` does; the queue, volume and directories are untouched |
| Music.ClampVolume | music.py:309 | `max(0, min(1, v))`: in [0, 1], and equal to `v` inside it |
| Music.VolumePercent | music.py:311 | `int(volume*100)`, the floor: between 0 and 100 |
| Music.SetVolume | music.py:308-311 | the volume is clamped; one report of its percentage is posted under the tag `volume`, as written; nothing else changes |
| Music.SetVolumeCorrected | music.py:308-311 | corrected: the same state, with the report under the tag `volume_changed` that the status table reads |
| Music.SavePlaylist | music.py:313-323 | an empty name posts `save_failed` carrying its text under `name`, as written, and writes nothing; a successful write stores the queue under the name and posts `save_ok`; a failed write posts `save_failed` with the error |
| Music.SavePlaylistCorrected | music.py:313-316 | corrected: the empty-name failure carries its text under `error`; every other name behaves as in `SavePlaylist` |
| Music.KeepExisting | music.py:334 | only entries whose path exists, and no more than there were |
| Music.KeepExistingCounts | music.py:334 | every copy of an entry whose path exists is kept; no copy of any other |
| Music.KeepExistingInOrder | music.py:334 | the kept entries are a subsequence: their order is kept |
| Music.KeepExistingAll | music.py:334 | when every path exists, everything is kept |
| Music.LoadPlaylist | music.py:325-338 | an empty name posts `load_failed` carrying its text under `name`, as written; a missing file posts `load_failed` with the no-such-file error; both leave the queue and position alone. A load keeps the entries whose paths exist, resets the position to 0, and reports the new length as the count |
| Music.LoadPlaylistCorrected | music.py:325-328 | corrected: the empty-name failure carries its text under `error`; every other name behaves as in `LoadPlaylist` |
| Music.SaveThenLoad | music.py:313-338 | saving then loading a queue whose files all exist gives the same queue, from position 0 |
| Music.LoadSong | music.py:240-244 | raises exactly when there is no metadata file of that stem, or when writing it back fails (with that write's error); otherwise the metadata is appended, written back under its title, and `song_added` is posted; the position and flags are unchanged |
| Music.SongMetadata | music.py:131-150 | the metadata records the file's path |
| Music.SongMetadataFields | music.py:131-150 | the probe's duration, or none; a name for which the id request succeeds (`idOk`) is split by the download template, carrying the id; any other name is the file name without `.mp3`, with no id |
| Music.ScanEntryRecords | music.py:234-238 | after its turn, an MP3 entry of the listing has metadata |
| Music.HasMetadata | music.py:123-129 | `check_for_metadata_file` finds something exactly when some stored metadata names the path |
| Music.ScanEntry | music.py:231-238 | one turn of the scan: a listed MP3 file without metadata adds one entry with that path and posts its `song_added`; the new entry is `SongMetadata` of the joined path and the metadata directory gains it under its title (the save at music.py:236); any other name changes nothing; position, title, flags, online flag, presence, volume and saved playlists are unchanged |
| Music.ScanMusicDir | music.py:230-238 | the scan keeps position, title, flags, online flag, presence, volume and saved playlists, keeps the queue as a prefix, and adds at most one entry per listed name |
| Music.ScanOnlyAppends | music.py:230-238 | the scan only appends: one entry and one `song_added` per new MP3 file, at most one per listed name; position, flags, volume and saved playlists unchanged |
| Music.ScanAddsListedFiles | music.py:230-238 | every appended entry is the metadata of an MP3 file of the listing |
| Music.ScanCoversListing | music.py:230-238 | with fresh titles, every MP3 file of the listing has metadata after the scan |
| Music.ScanCatalogTitles | music.py:234-238 | every metadata key the scan adds is the title of an MP3 file of the listing |
| Music.DownloadedFile | music.py:195-203 | `.mp3` on the template's root when it exists, else `.m4a`, else `.aac`; none exactly when none exists |
| Music.DownloadEntry | music.py:206-219 | the reported title, or else the file's base name when the title is missing or empty; the reported id; the probed duration, or 0 when the probe raises |
| Music.DownloadBranch | music.py:190-227 | exactly one message. Either one entry is appended and written, with `download_complete`; or nothing is added, with `download_failed`. Everything but the queue, the metadata and the messages is unchanged |
| Music.DownloadWorker | music.py:173-228 | position, title, flags, online flag, presence, volume and saved playlists are unchanged; the old queue and messages stay in front; the first new message is the one `DownloadBranch` posts (`download_complete` or `download_failed`), and every later one is a `song_added` of the scan; the branch's queue is a prefix of the result |
| Music.PlayOutOfRange | music.py:251-255 | `play(i)` with `i` out of range changes nothing at all |
| Music.PlayKeepsValid | music.py:249-277 | `play` keeps the volume in range and never leaves the player playing and stopped at once |
| Music.TransportKeepsValid | music.py:279-311 | so do pause, resume, stop and set_volume |
| Music.SkipKeepsValid | music.py:300-306 | so does skip |
| Music.ResumeAfterStop | music.py:285-298 | resume after stop never restarts playback |
| Music.PauseThenResume | music.py:279-289 | pause then resume plays again at the same position, with `paused` and `resumed` posted |
| Music.SkipAfterStopPlays | music.py:723-725 | the end-of-track skip after a stop starts the next track playing |
| Music.SkipsAdvance | music.py:300-306 | up to the end of the queue, `n` skips advance the position by `n`, wrapping to 0 at the end; the queue is unchanged |
| Music.SkipsComeBack | music.py:300-306 | as many skips as there are entries, from position 0, come back to 0 |
| Music.VolumeInRange | music.py:308-311 | the volume is in [0, 1] and the reported percentage in [0, 100] |
| Player.MusicPlayer.constructor | music.py:161-170 | the fields are those of `Initial` |
| Player.MusicPlayer.Play | music.py:249-258 | the fields become `Music.Play`'s state; on a stale position nothing changes and the `IndexError` escapes |
| Player.MusicPlayer.StartTrack | music.py:258-277 | the fields become those of `play`'s `try` block |
| Player.MusicPlayer.Pause | music.py:279-283 | the fields become `Music.Pause`'s state |
| Player.MusicPlayer.Resume | music.py:285-289 | the fields become `Music.Resume`'s state |
| Player.MusicPlayer.Stop | music.py:291-298 | the fields become `Music.Stop`'s state |
| Player.MusicPlayer.Skip | music.py:300-306 | the fields become `Music.Skip`'s state |
| Player.MusicPlayer.SetVolume | music.py:308-311 | the fields become `Music.SetVolume`'s state, the report under `volume` included |
| Player.MusicPlayer.SavePlaylist | music.py:313-323 | the fields become `Music.SavePlaylist`'s state, the as-written empty-name message included |
| Player.MusicPlayer.LoadPlaylist | music.py:325-338 | the fields become `Music.LoadPlaylist`'s state, the as-written empty-name message included |
| Player.MusicPlayer.LoadSong | music.py:240-244 | nothing raises and the fields become `Music.LoadSong`'s state; or the missing file's or the failed write's error is returned and nothing changes |
| Player.MusicPlayer.CheckMusicDir | music.py:230-238 | the loop over the listing leaves the fields as `ScanMusicDir` says |
| Player.MusicPlayer.ScanSong | music.py:231-238 | one turn of the scan: an MP3 file without metadata is described, written, appended and announced |
| Player.MusicPlayer.AddSong | music.py:236-238 | the metadata is filed under its title and appended, and `song_added` is posted; nothing else changes |
| Player.MusicPlayer.Download | music.py:190-227 | the fields become `DownloadBranch`'s state |
| Player.MusicPlayer.DownloadWorker | music.py:173-228 | the download branch, then the scan of the music directory |
| PlaylistQueue.RemoveAt | music.py:429 | `pop(i)`: one entry shorter, entries before `i` in place, those after moved up by one |
| PlaylistQueue.InsertAt | music.py:409 | `insert(i, x)`: `x` at `i`, entries before it in place, those after moved down by one |
| PlaylistQueue.Reorder | music.py:408-409 | `pop(from)` then `insert(to, item)`: same length, the dragged entry on row `to`, entries outside the two rows in place, and those between shifted by one towards the vacated row |
| PlaylistQueue.InsertRemoveInverse | music.py:408-409 | popping what was just inserted gives the list back |
| PlaylistQueue.RemoveInsertInverse | music.py:408-409 | inserting what was just popped, where it was, gives the list back |
| PlaylistQueue.ReorderPermutes | music.py:408-409 | a drag keeps the length and the multiset of entries, and puts the dragged entry on the drop row |
| PlaylistQueue.ReorderBack | music.py:408-409 | dragging the entry back to where it came from undoes the drag |
| PlaylistQueue.RemoveAtCounts | music.py:429 | a delete takes out exactly one copy of that entry |
| PlaylistQueue.Row | music.py:400-401 | `scroll + (y - rect.y) // item_height` as floor division: the row whose band of `item_height` pixels holds the cursor |
| PlaylistQueue.Visible | music.py:445 | `rect.h // item_height` as floor division: the number of whole rows the widget's height holds, never negative for a non-negative height |
| PlaylistQueue.WheelDown | music.py:445 | as written: at most one row further, and at most `len - visible`, which may be negative; it is one of the two |
| PlaylistQueue.WheelDownCorrected | music.py:445 | corrected: the written bound, and never below row 0 |
| PlaylistQueue.WheelDownGoesNegative | music.py:445 | a two-entry list in a ten-row widget scrolls to row -8 as written |
| PlaylistQueue.WheelDownCorrectedBounds | music.py:441-445 | the corrected scroll is in [0, scroll+1] and never past the last full page, or row 0 when everything fits |
| PlaylistQueue.PressLeft | music.py:398-403 | raises only for a press inside the widget on a non-negative row with no player (the chained `0 <= idx < len(...)` never reads the player for a negative row); a press inside the widget on a row of the playlist, with a player, gives exactly the old state with that row being dragged; any other press that does not raise changes nothing |
| PlaylistQueue.Drop | music.py:404-410 | raises for a missing player on a non-negative drop row, or a drop on a row when the dragged row has left the queue; otherwise the drag ends and the queue keeps its length and entries |
| PlaylistQueue.PressRight | music.py:411-440 | raises only for a press inside the widget on a non-negative row with no player; while debouncing nothing changes; a change to the queue is a Shift deletion of one row that starts the debounce; a folder shown is that of the row's entry, without Shift |
| PlaylistQueue.NegativeRowReadsNoPlayer | music.py:402-415 | on a negative row a missing player is never read: a left or right press changes nothing, and a drop only ends the drag |
| PlaylistQueue.Wheel | music.py:441-445 | raises only for a wheel-down with no player; the scroll alone changes: up gives `max(0, scroll - 1)`, down gives the as-written `WheelDown` bound `min(len - visible, scroll + 1)` |
| PlaylistQueue.QueueStep | music.py:389-445 | only mouse events raise; the Shift flag follows the key events; the queue keeps its length or loses one entry; a folder is shown only on a right press, which then leaves the queue alone |
| PlaylistQueue.DropMovesEntry | music.py:404-410 | a drop on a row moves the dragged entry there, keeping every entry; a drop elsewhere changes nothing; the drag ends either way |
| PlaylistQueue.StaleDragFaults | music.py:404-410 | a drag whose row has left the queue makes the pop raise exactly when the drop lands on a row |
| PlaylistQueue.ShiftClickDeletes | music.py:411-431 | with Shift, a right click on a row deletes exactly that row and starts the debounce; without Shift, it asks for that row's folder; while debouncing, a right click does nothing |
| PlaylistQueue.QueueEditsOnly | music.py:389-445 | every event keeps the queue's entries or deletes exactly one; with no player, the queue never changes |
| PlaylistQueue.ScrollNegativeOnlyByWheel | music.py:441-445 | the first row shown turns negative only through a wheel-down over the widget when the queue has fewer entries than it has rows, and then it is `len - visible` |
| PlaylistQueue.WheelDownScrollsNegative | music.py:389-445 | through `handle_event`, a wheel-down over a ten-row widget holding two entries scrolls from row 0 to row -8 |
| PlaylistQueue.ShiftKeys | music.py:391-396 | a Shift press or release changes only whether Shift is held |
| PlaylistQueue.ShiftAfter | music.py:391-396 | whether Shift is held changes only on a Shift key event; after a Shift press it is held, after a Shift release it is not |
| PlaylistQueue.PlaylistWidget.constructor | music.py:342-353 | row height `max(20, line size + 4)`, scroll 0, no drag, Shift up, no debounce |
| PlaylistQueue.PlaylistWidget.SetPlayer | music.py:355-356 | only the player changes |
| PlaylistQueue.PlaylistWidget.DebounceElapsed | music.py:422-424 | the debounce ends; nothing else changes |
| PlaylistQueue.PlaylistWidget.OnPressLeft | music.py:398-403 | the state becomes `PressLeft`'s; with a player, a press inside the widget on a row of the playlist raises nothing and sets `dragging` to that row, changing no other field |
| PlaylistQueue.PlaylistWidget.OnDrop | music.py:404-410 | the state and queue become `Drop`'s; the player's position and everything else of the player are unchanged |
| PlaylistQueue.PlaylistWidget.MoveEntry | music.py:408-409 | the pop and insert on the player's queue make `Reorder` of it; nothing else of the player changes |
| PlaylistQueue.PlaylistWidget.OnPressRight | music.py:411-440 | the state, queue and folder become `PressRight`'s; the position is unchanged |
| PlaylistQueue.PlaylistWidget.OnWheel | music.py:441-445 | the scroll becomes `Wheel`'s, as written, so it can turn negative |
| PlaylistQueue.PlaylistWidget.HandleEvent | music.py:389-445 | state, queue, folder and exception are exactly `QueueStep`'s, with the as-written wheel; only the player's queue changes, never its position |
| MainLoop.FormatOk | music.py:770 | formatting succeeds exactly when the data has every key the template names |
| MainLoop.FormatMissing | music.py:770 | a failure names a missing key of the template |
| MainLoop.Format | music.py:770 | a success means every key the template names was present; a failure means one was missing |
| MainLoop.Render | music.py:770 | `str(v)` of a message value: a string as it is; an integer as its decimal text, led by `-` exactly when negative |
| MainLoop.NowText | music.py:756 | the `now_text` template names exactly the keys `index` and `title` |
| MainLoop.StatusMessages | music.py:740-754 | the table has `volume_changed`, `save_failed` and `load_failed`, but neither `volume` nor `stopped` |
| MainLoop.ShowOk | music.py:758-772 | a message is shown without raising exactly when it has every key its template names |
| MainLoop.Show | music.py:758-772 | only `play_started` changes the now-playing label, and it sets the status to "Playing"; a tag outside the table changes nothing; only tags that are handled can raise |
| MainLoop.Drain | music.py:758-774 | without `play_started` the now-playing label is never changed; a crash is caused by a message of the queue that cannot be shown |
| MainLoop.DrainDisplayable | music.py:758-774 | a queue of displayable messages drains without a crash |
| MainLoop.DrainAppend | music.py:758-774 | draining two queues in turn is draining them joined, and a crash in the first ends it |
| MainLoop.IgnoredTags | music.py:768-772 | a tag outside the table, `volume` and `stopped` among them, leaves both labels as they are |
| MainLoop.PlayStartedShown | music.py:764-767 | `play_started` shows `Now: <position>: <title>` and `Playing` |
| MainLoop.PlaybackMessagesDisplayable | music.py:740-756 | every playback message the player posts can be shown |
| MainLoop.PlaylistMessagesDisplayable | music.py:740-756 | so can every volume and playlist-file message of the corrected player |
| MainLoop.LibraryMessagesDisplayable | music.py:740-756 | so can `song_added` and `download_started` |
| MainLoop.DownloadMessagesDisplayable | music.py:740-756 | so can `download_complete` and `download_failed` |
| MainLoop.SaveEmptyNameAsWrittenCrashes | music.py:313-316 | as written, the message of a save without a name raises `KeyError: 'error'` in the drain |
| MainLoop.SaveEmptyNameShown | music.py:313-316 | corrected, it shows "Failed to save playlist: empty-name" |
| MainLoop.LoadEmptyNameAsWrittenCrashes | music.py:325-328 | as written, the message of a load without a name raises `KeyError: 'error'` in the drain |
| MainLoop.LoadEmptyNameShown | music.py:325-328 | corrected, it shows "Failed to load playlist: empty-name" |
| MainLoop.VolumeAsWrittenIgnored | music.py:311 | as written, the volume report leaves both labels untouched |
| MainLoop.VolumeShown | music.py:308-311 | corrected, it shows "Volume changed: <percent>" |
| MainLoop.StatusLabels.DrainQueue | music.py:758-774 | the loop leaves the labels as `Drain` says, and the exception that ends the program is the first message that cannot be formatted |
| MainLoop.StrippedLines | music.py:673 | no more URLs than lines |
| MainLoop.StrippedLinesKept | music.py:673 | every line holding more than white space gives its stripped text as a URL |
| MainLoop.StrippedLinesFrom | music.py:673 | every URL is the non-empty stripped text of one of the lines |
| MainLoop.StrippedLinesAppend | music.py:673 | the URLs of two runs of lines come in the order of the lines |
| MainLoop.OnDownload | music.py:668-678 | a box of only white space is left alone and nothing is posted; otherwise one download per non-blank stripped line, one `download_started`, and the box is cleared |
| MainLoop.StrippedLinesClean | music.py:673 | every URL is non-blank, with no surrounding white space and no line break |
| MainLoop.OnDownloadUrls | music.py:668-678 | a box with some text starts at least one download, each of such a URL |
| PlaylistFix.FixEntryChanges | playlist_fix.py:21-23 | the loop body changes an entry exactly when it writes a new duration |
| PlaylistFix.PathOf | playlist_fix.py:15-16 | a path exactly when `path` holds a non-empty string, and then that string |
| PlaylistFix.SameDuration | playlist_fix.py:21 | a missing duration never equals the probed one, and a stored int equals exactly itself |
| PlaylistFix.FixEntry | playlist_fix.py:15-23 | an entry whose probe succeeds ends holding a duration equal to the probed one; any other entry is untouched; at most the key `duration` is added |
| PlaylistFix.FixAll | playlist_fix.py:14-25 | the same length, each entry passed through the loop body in order |
| PlaylistFix.FixOne | playlist_fix.py:15-25 | the body's branches give the entry of `FixEntry` and the flag of `Changes` |
| PlaylistFix.FixDurations | playlist_fix.py:13-25 | the array is updated in place to `FixAll` of its old contents, and `updated` is true exactly when some entry changed |
| PlaylistFix.UpdatePlaylistDurations | playlist_fix.py:5-32 | a missing file raises; otherwise `updated` is true exactly when some entry changed, and the file is rewritten with the fixed playlist exactly then |
| PlaylistFix.SkippedUntouched | playlist_fix.py:15-17 | an entry with no usable path, or whose file does not exist, is untouched |
| PlaylistFix.ProbeFailureUntouched | playlist_fix.py:18-25 | an entry whose probe raises is untouched |
| PlaylistFix.ProbedDuration | playlist_fix.py:18-23 | an entry whose probe succeeds ends with the probed duration |
| PlaylistFix.OtherFieldsKept | playlist_fix.py:21-22 | every key other than `duration` keeps its value, and the keys are the same except possibly an added `duration` |
| PlaylistFix.UpdatedIffChanged | playlist_fix.py:13-23 | the flag is raised exactly when the playlist written back differs from the one read |
| PlaylistFix.FixEntryTwice | playlist_fix.py:21-23 | a fixed entry needs no further fixing |
| PlaylistFix.SecondRunIdle | playlist_fix.py:5-32 | a second run with the same probe results changes nothing and raises no flag |

## Left out

- Drawing, fonts and surfaces; `Label`, `Container`, `UIManager`, `SearchBoxWidget`, `ProgressBar` and the progress ratio (floating point over the mixer clock).
- `JSONUILoader.save_scene` and every JSON read and write: files are given as parsed values or maps. JSON parse errors are not modelled.
- Well-shaped JSON is assumed: a `Track` always has a `path`, and the style sheet is a map of maps. Three shape errors of the code are therefore not modelled. A saved playlist entry without `path` raises `KeyError` at music.py:334; it is caught and posted as `load_failed`. A metadata file without `path` raises `KeyError` at music.py:127; it escapes the scan and ends the download thread. A style entry that is not a dict raises `AttributeError` at utils/ui_framework.py:13; it escapes `load_scene` (music.py:76-80 guards its own lookups against this).
- Paths follow POSIX `posixpath`. On Windows (the branch at music.py:433), `os.path` is `ntpath`: a backslash is also a separator, and `join` inserts a backslash. Under `ntpath`, `PyStr.Basename`, `PyStr.JoinPath` and `PyStr.SplitExtRoot`, and through them the title `Music.SongMetadata` derives from a path, would differ.
- The constructors of the widget classes that `_scene_to_ui` calls are represented by the call they would receive. An argument a class does not accept (a `TypeError`) is not modelled.
- Threads: the download thread, the debounce timer and the connection loop. Each effect is one atomic step: `DownloadWorker`, and `DebounceElapsed` for the timer. Their interleaving with the UI thread is not modelled.
- The Discord presence card is a value (`Presence`): its image fields are constants and not modelled, and the RPC client is not modelled.
- `subprocess.Popen` for showing a folder: `HandleEvent` returns the path it would show.
- Oracles: the audio engine, yt_dlp, mutagen's probe, the YouTube check, the flavour file and the random pick, `time.time()`, `os.path.exists`, and the outcome of the writes in `save_playlist`, `load_song` and the download branch are parameters. A failed write is modelled as raising before the file is touched, so the earlier contents stay. `open(path, "w")` truncates the file first (music.py:116-117, 318-319), so a write that fails after the open, inside `json.dump`, would leave an empty or partial file; that case is not modelled.
- Music.ScanEntry: the metadata write of the scan (music.py:236) is taken to succeed. A failing write would raise out of the scan and end the download thread; `Music.ScanMusicDir`, `Music.DownloadWorker`, `Player.MusicPlayer.ScanSong` and `Player.MusicPlayer.CheckMusicDir` inherit this.
- UiFramework.UIEventRegistry.Dispatch: a handler is modelled only by whether its call raises (`run`). What it does besides is not modelled. A handler that registers another handler for the kind being dispatched is not modelled either; Python's loop over the growing list would call the new one too.
- The metadata directory is a map, and `check_for_metadata_file` is membership of a path among the stored metadata (`Paths`). The order in which it visits files is not modelled. The `print` of a failed probe is not modelled.
- `updater.py` and `utils/updater.py` are not part of this model.
- Module start-up in music.py (settings, directories, widget registration) and the rest of `main`'s event loop are not modelled, apart from the drain and `on_download`.
- The exception texts in the model (`IndexError: …`, `KeyError: …`, the file errors) stand for the exception; only whether one is raised, and which key a `KeyError` names, is meant.
- `PlaylistFix.PathOf`: a `path` that is a truthy non-string (a number, a list) counts as unusable and the entry is skipped. Python would hand it to `os.path.exists`.
- `PlaylistFix.UpdatePlaylistDurations`: entries that are not dicts are not modelled, and neither is the `print` of the verdict.
- Floating point: volumes, slider values and percentages are mathematical reals, so `float` rounding is not modelled (`Music.SetVolume`, `Music.VolumePercent`, `UiFramework.Slider.HandleEvent`).
- The `.200s` truncation of the title in the download template is not modelled: yt_dlp reports the file name it wrote.

## Findings

| source | as written | input that shows it | evidently intended | confidence | as-written member | corrected member |
|---|---|---|---|---|---|---|
| music.py:315 | `save_playlist("")` posts `save_failed` with data `{"name": "empty-name"}`, but the template "Failed to save playlist: {error}" reads `error`, so `format` raises `KeyError` in the drain and `main` ends | `save_playlist("")`, then one UI tick; nothing in music.py calls `save_playlist`, so the defect is latent | the failure text under `error`, as the other `save_failed` message carries it | high, not executed | MainLoop.SaveEmptyNameAsWrittenCrashes | Music.SavePlaylistCorrected, MainLoop.SaveEmptyNameShown |
| music.py:327 | `load_playlist("")` posts `load_failed` with data `{"name": "empty-name"}`; the template reads `error`, so the drain raises `KeyError` | a playlist file named `.json`, or any playlist file name of five characters or fewer: the playlist search box offers `playlist[:-5]` (music.py:112), which is empty, and choosing it calls `load_playlist("")` (music.py:692); then one UI tick | the failure text under `error` | high, not executed | MainLoop.LoadEmptyNameAsWrittenCrashes | Music.LoadPlaylistCorrected, MainLoop.LoadEmptyNameShown |
| music.py:311 | `set_volume` posts the tag `volume`, which the status table lacks (it has `volume_changed` with a `{volume}` field), so a volume change is never shown | `set_volume(0.5)`, then one UI tick | the tag `volume_changed` | medium, not executed | MainLoop.VolumeAsWrittenIgnored | Music.SetVolumeCorrected, MainLoop.VolumeShown |
| music.py:445 | the wheel down sets `scroll = min(len - visible, scroll + 1)`, which is negative when the queue is shorter than the widget, so rows are drawn and hit-tested from a negative index | 2 entries, `rect.h` 200, `item_height` 20, one wheel-down from row 0: scroll -8 | `max(0, …)` around it, as the wheel-up branch does | medium, not executed | PlaylistQueue.WheelDownGoesNegative, PlaylistQueue.WheelDownScrollsNegative | PlaylistQueue.WheelDownCorrected, PlaylistQueue.WheelDownCorrectedBounds |
