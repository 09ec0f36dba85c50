/** `update_playlist_durations`: read a playlist file, set each entry's
    `duration` to what the MP3 probe reports for its file, and write the
    file back when something changed. The file system is a map from path to
    the parsed playlist, `existing` is the set of paths that exist and
    `probe` holds the whole-second length the probe reports for each file
    it can read (a path outside it makes the probe raise). */
module PlaylistFix {
  import opened Values

  /** `entry.get("path")` when it is a usable file name: a non-empty string. */
  function PathOf(entry: Fields): (r: Option<string>)
    ensures r.Some? <==> exists t :: Lookup(entry, "path") == Some(VStr(t)) && t != ""
    ensures r.Some? ==> Lookup(entry, "path") == Some(VStr(r.value))
  {
    var v := Lookup(entry, "path");
    if v.Some? && v.value.VStr? && v.value.s != "" then Some(v.value.s) else None
  }

  /** Python's `entry.get("duration") == duration`: a stored `5.0` or `True`
      compares equal to the int it stands for, a missing key to nothing. */
  predicate SameDuration(stored: Option<Value>, d: int)
    ensures SameDuration(stored, d) ==> stored.Some?
    ensures stored == Some(VInt(d)) ==> SameDuration(stored, d)
    ensures SameDuration(stored, d) && stored.value.VInt? ==> stored.value.i == d
  {
    match stored
    case None => false
    case Some(v) =>
      match v
      case VInt(i) => i == d
      case VReal(r) => r == d as real
      case VBool(b) => (if b then 1 else 0) == d
      case _ => false
  }

  /** The duration the loop obtains for an entry, or `None` when it skips
      the entry (no usable path, a file that does not exist) or the probe
      raises. */
  function Probed(entry: Fields, existing: set<string>, probe: map<string, int>): Option<int>
  {
    var p := PathOf(entry);
    if p.None? || p.value !in existing || p.value !in probe then None
    else Some(probe[p.value])
  }

  /** Whether the loop writes a new duration into this entry. */
  predicate Changes(entry: Fields, existing: set<string>, probe: map<string, int>)
  {
    var d := Probed(entry, existing, probe);
    d.Some? && !SameDuration(Lookup(entry, "duration"), d.value)
  }

  /** One turn of the loop body. */
  function FixEntry(entry: Fields, existing: set<string>, probe: map<string, int>): (r: Fields)
    ensures Probed(entry, existing, probe).Some? ==> SameDuration(Lookup(r, "duration"), Probed(entry, existing, probe).value)
    ensures Probed(entry, existing, probe).None? ==> r == entry
    ensures Keys(r) == Keys(entry) || Keys(r) == Keys(entry) + {"duration"}
  {
    if Changes(entry, existing, probe) then Store(entry, "duration", VInt(Probed(entry, existing, probe).value))
    else entry
  }

  /** The loop body changes an entry exactly when it writes a new duration. */
  lemma FixEntryChanges(entry: Fields, existing: set<string>, probe: map<string, int>)
    ensures Changes(entry, existing, probe) <==> FixEntry(entry, existing, probe) != entry
  {
    if Changes(entry, existing, probe) {
      var r := Store(entry, "duration", VInt(Probed(entry, existing, probe).value));
      assert Lookup(r, "duration") != Lookup(entry, "duration");
    }
  }

  /** The playlist after the loop. */
  function FixAll(playlist: seq<Fields>, existing: set<string>, probe: map<string, int>): (r: seq<Fields>)
    ensures |r| == |playlist|
    ensures forall i :: 0 <= i < |playlist| ==> r[i] == FixEntry(playlist[i], existing, probe)
  {
    seq(|playlist|, i requires 0 <= i < |playlist| => FixEntry(playlist[i], existing, probe))
  }

  /** Whether the loop changes any entry. */
  predicate AnyChange(playlist: seq<Fields>, existing: set<string>, probe: map<string, int>)
  {
    exists i :: 0 <= i < |playlist| && Changes(playlist[i], existing, probe)
  }

  /** The body of the loop for one entry: the entry as it leaves the body,
      and whether the body wrote a new duration. */
  method FixOne(entry: Fields, existing: set<string>, probe: map<string, int>) returns (fixed: Fields, changed: bool)
    ensures fixed == FixEntry(entry, existing, probe)
    ensures changed == Changes(entry, existing, probe)
  {
    fixed, changed := entry, false;
    var filePath := PathOf(entry);
    if filePath.None? || filePath.value !in existing {
      return;
    }
    if filePath.value in probe {
      var duration := probe[filePath.value];
      if !SameDuration(Lookup(entry, "duration"), duration) {
        fixed := Store(entry, "duration", VInt(duration));
        changed := true;
      }
    }
  }

  /** The loop over the entries, updating each in place; `updated` is the
      dirty flag. */
  method FixDurations(playlist: array<Fields>, existing: set<string>, probe: map<string, int>) returns (updated: bool)
    modifies playlist
    ensures playlist[..] == FixAll(old(playlist[..]), existing, probe)
    ensures updated <==> AnyChange(old(playlist[..]), existing, probe)
  {
    ghost var before := playlist[..];
    updated := false;
    var i := 0;
    while i < playlist.Length
      invariant 0 <= i <= playlist.Length
      invariant forall j :: 0 <= j < i ==> playlist[j] == FixEntry(before[j], existing, probe)
      invariant forall j :: i <= j < playlist.Length ==> playlist[j] == before[j]
      invariant updated <==> exists j :: 0 <= j < i && Changes(before[j], existing, probe)
    {
      var fixed, changed := FixOne(playlist[i], existing, probe);
      ghost var prev := playlist[..];
      if changed {
        playlist[i] := fixed;
        updated := true;
      }
      assert forall j :: 0 <= j < playlist.Length && j != i ==> playlist[j] == prev[j];
      i := i + 1;
    }
    assert playlist[..] == FixAll(before, existing, probe);
  }

  /** What a run leaves behind: the files, and whether it rewrote the playlist. */
  datatype FixRun = FixRun(files: map<string, seq<Fields>>, updated: bool)

  /** The text of the error opening a file that does not exist. */
  const NoSuchFile := "FileNotFoundError: [Errno 2] No such file or directory"

  /** `update_playlist_durations(path)`: the playlist at `path` is loaded,
      fixed, and written back only when the loop changed something. */
  method UpdatePlaylistDurations(files: map<string, seq<Fields>>, path: string,
                                 existing: set<string>, probe: map<string, int>) returns (r: Result<FixRun>)
    ensures path !in files ==> r == Err(NoSuchFile)
    ensures path in files ==> r.Ok? && (r.value.updated <==> AnyChange(files[path], existing, probe))
    ensures path in files && r.Ok? ==>
      r.value.files == if r.value.updated then files[path := FixAll(files[path], existing, probe)] else files
  {
    if path !in files {
      return Err(NoSuchFile);
    }
    var playlist := new Fields[|files[path]|](i requires 0 <= i < |files[path]| => files[path][i]);
    assert playlist[..] == files[path];
    var updated := FixDurations(playlist, existing, probe);
    if updated {
      return Ok(FixRun(files[path := playlist[..]], true));
    }
    return Ok(FixRun(files, false));
  }

  // ---------------------------------------------------------- properties

  /** An entry without a usable path, or whose file does not exist, is left
      as it is. */
  lemma SkippedUntouched(entry: Fields, existing: set<string>, probe: map<string, int>)
    requires PathOf(entry).None? || PathOf(entry).value !in existing
    ensures FixEntry(entry, existing, probe) == entry
  {
  }

  /** An entry whose probe raises is left as it is. */
  lemma ProbeFailureUntouched(entry: Fields, existing: set<string>, probe: map<string, int>)
    requires PathOf(entry).Some? && PathOf(entry).value !in probe
    ensures FixEntry(entry, existing, probe) == entry
  {
  }

  /** An entry whose probe succeeds ends up with the probed duration. */
  lemma ProbedDuration(entry: Fields, existing: set<string>, probe: map<string, int>)
    requires PathOf(entry).Some? && PathOf(entry).value in existing && PathOf(entry).value in probe
    ensures SameDuration(Lookup(FixEntry(entry, existing, probe), "duration"), probe[PathOf(entry).value])
  {
  }

  /** Only `duration` may change: every other key keeps its value, and the
      keys stay the same apart from a `duration` that may be added. */
  lemma OtherFieldsKept(entry: Fields, existing: set<string>, probe: map<string, int>, k: string)
    requires k != "duration"
    ensures Lookup(FixEntry(entry, existing, probe), k) == Lookup(entry, k)
    ensures Keys(entry) <= Keys(FixEntry(entry, existing, probe)) <= Keys(entry) + {"duration"}
  {
    if Changes(entry, existing, probe) {
      StoreOther(entry, "duration", VInt(Probed(entry, existing, probe).value), k);
    }
  }

  /** The flag is raised exactly when the playlist written back differs from
      the one read. */
  lemma UpdatedIffChanged(playlist: seq<Fields>, existing: set<string>, probe: map<string, int>)
    ensures AnyChange(playlist, existing, probe) <==> FixAll(playlist, existing, probe) != playlist
  {
    var r := FixAll(playlist, existing, probe);
    if r != playlist {
      var i :| 0 <= i < |playlist| && r[i] != playlist[i];
      FixEntryChanges(playlist[i], existing, probe);
    } else {
      forall i | 0 <= i < |playlist|
        ensures !Changes(playlist[i], existing, probe)
      {
        FixEntryChanges(playlist[i], existing, probe);
      }
    }
  }

  /** A fixed entry needs no further fixing. */
  lemma FixEntryTwice(entry: Fields, existing: set<string>, probe: map<string, int>)
    ensures !Changes(FixEntry(entry, existing, probe), existing, probe)
  {
    var e := FixEntry(entry, existing, probe);
    StoreOther(entry, "duration", VInt(0), "path");
    if Changes(entry, existing, probe) {
      StoreOther(entry, "duration", VInt(Probed(entry, existing, probe).value), "path");
      assert PathOf(e) == PathOf(entry);
    }
  }

  /** A second run with the same files and probe results changes nothing. */
  lemma SecondRunIdle(playlist: seq<Fields>, existing: set<string>, probe: map<string, int>)
    ensures !AnyChange(FixAll(playlist, existing, probe), existing, probe)
    ensures FixAll(FixAll(playlist, existing, probe), existing, probe) == FixAll(playlist, existing, probe)
  {
    var r := FixAll(playlist, existing, probe);
    forall i | 0 <= i < |r|
      ensures !Changes(r[i], existing, probe)
    {
      FixEntryTwice(playlist[i], existing, probe);
    }
    UpdatedIffChanged(r, existing, probe);
  }
}
