/** The main loop's side of the message queue: the status table, the
    `str.format` of its templates, the drain that shows queued messages on
    the two labels, and what the Download button does with the URL box. */
module MainLoop {
  import opened Values
  import opened PyStr
  import opened Music

  // ------------------------------------------------------- templates

  /** A format string, piece by piece: literal text, a `{key}` field, or its end. */
  datatype Template = End | Lit(text: string, rest: Template) | Hole(key: string, rest: Template)

  /** The keys a template names. */
  function Holes(t: Template): set<string>
  {
    match t
    case End => {}
    case Lit(_, rest) => Holes(rest)
    case Hole(k, rest) => {k} + Holes(rest)
  }

  /** `str(v)` of a message value. */
  function Render(f: Field): (r: string)
    ensures f.FStr? ==> r == f.s
    ensures f.FInt? ==> r != "" && (r[0] == '-' <==> f.i < 0)
    ensures f.FInt? && f.i >= 0 ==> DecimalValue(r) == f.i
  {
    match f
    case FStr(s) => s
    case FInt(i) => IntToStr(i)
  }

  /** `template.format(**data)`: left to right, the first field whose key is
      missing raises `KeyError`. */
  function Format(t: Template, data: map<string, Field>): (r: Result<string>)
    ensures r.Ok? ==> Holes(t) <= data.Keys
    ensures r.Err? ==> exists k :: k in Holes(t) && k !in data
  {
    match t
    case End => Ok("")
    case Lit(s, rest) =>
      var r := Format(rest, data);
      if r.Err? then r else Ok(s + r.value)
    case Hole(k, rest) =>
      if k !in data then Err("KeyError: '" + k + "'")
      else
        var r := Format(rest, data);
        if r.Err? then r else Ok(Render(data[k]) + r.value)
  }

  /** Formatting succeeds exactly when the data has every key the template names. */
  lemma {:induction false} FormatOk(t: Template, data: map<string, Field>)
    ensures Format(t, data).Ok? <==> Holes(t) <= data.Keys
  {
    match t
    case End =>
    case Lit(_, rest) => FormatOk(rest, data);
    case Hole(_, rest) => FormatOk(rest, data);
  }

  /** A missing key is reported by its name. */
  lemma {:induction false} FormatMissing(t: Template, data: map<string, Field>)
    ensures Format(t, data).Err? ==> exists k :: k in Holes(t) && k !in data && Format(t, data).error == "KeyError: '" + k + "'"
  {
    match t
    case End =>
    case Lit(_, rest) => FormatMissing(rest, data);
    case Hole(_, rest) => FormatMissing(rest, data);
  }

  // ---------------------------------------------------- status table

  /** `status_messages`: the status line for each tag it knows. */
  function StatusMessages(): (table: map<string, Template>)
    ensures "volume" !in table && "stopped" !in table
    ensures "volume_changed" in table && "save_failed" in table && "load_failed" in table
  {
    map[
      "download_complete" := Lit("Downloaded: ", Hole("title", End)),
      "download_failed" := Lit("Download failed: ", Hole("error", End)),
      "download_started" := Lit("Downloading...", End),
      "play_started" := Lit("Playing", End),
      "play_error" := Lit("Error: ", Hole("error", End)),
      "paused" := Lit("Paused", End),
      "resumed" := Lit("Resumed", End),
      "save_ok" := Lit("Saved playlist as ", Hole("name", End)),
      "save_failed" := Lit("Failed to save playlist: ", Hole("error", End)),
      "load_ok" := Lit("Playlist loaded: ", Hole("name", Lit(" (", Hole("count", Lit(" songs)", End))))),
      "load_failed" := Lit("Failed to load playlist: ", Hole("error", End)),
      "volume_changed" := Lit("Volume changed: ", Hole("volume", End)),
      "song_added" := Lit("Added ", Hole("title", Lit(" to queue", End)))
    ]
  }

  /** `now_text`. */
  function NowText(): (t: Template)
    ensures Holes(t) == {"index", "title"}
  {
    Lit("Now: ", Hole("index", Lit(": ", Hole("title", End))))
  }

  /** The message the Download button posts. */
  function DownloadStarted(): Msg { Msg("download_started", map[]) }

  // ----------------------------------------------------------- drain

  /** The texts of the now-playing label and the status label. */
  datatype Labels = Labels(now: string, status: string)

  /** One message taken off the queue: `play_started` sets both labels, a
      tag of the table sets the status label, any other tag is ignored. */
  function Show(l: Labels, m: Msg): (r: Result<Labels>)
    ensures r.Ok? && m.tag != "play_started" ==> r.value.now == l.now
    ensures r.Ok? && m.tag == "play_started" ==> r.value.status == "Playing"
    ensures r.Ok? && m.tag !in StatusMessages() && m.tag != "play_started" ==> r.value == l
    ensures r.Err? ==> m.tag == "play_started" || m.tag in StatusMessages()
  {
    if m.tag == "play_started" then
      var now := Format(NowText(), m.data);
      if now.Err? then Err(now.error) else Ok(Labels(now.value, "Playing"))
    else if m.tag in StatusMessages() then
      var status := Format(StatusMessages()[m.tag], m.data);
      if status.Err? then Err(status.error) else Ok(l.(status := status.value))
    else Ok(l)
  }

  /** How a drain ends: the queue emptied, or a message raised (the loop
      and the program end with it), leaving the labels as they were then. */
  datatype DrainOutcome = Drained(labels: Labels) | Crashed(labels: Labels, error: string)

  /** Draining `queue` in order. */
  function Drain(l: Labels, queue: seq<Msg>): (r: DrainOutcome)
    ensures (forall i :: 0 <= i < |queue| ==> queue[i].tag != "play_started") ==> r.labels.now == l.now
    ensures r.Crashed? ==> exists i :: 0 <= i < |queue| && Show(r.labels, queue[i]).Err?
    decreases |queue|
  {
    if queue == [] then Drained(l)
    else
      var r := Show(l, queue[0]);
      if r.Err? then Crashed(l, r.error) else Drain(r.value, queue[1..])
  }

  /** One message off the front of a non-empty queue. */
  lemma DrainStep(l: Labels, queue: seq<Msg>)
    requires queue != []
    ensures Drain(l, queue) == if Show(l, queue[0]).Err? then Crashed(l, Show(l, queue[0]).error)
                               else Drain(Show(l, queue[0]).value, queue[1..])
  {
  }

  /** Whether a message can be shown without raising. */
  predicate Displayable(m: Msg)
  {
    && (m.tag == "play_started" ==> Holes(NowText()) <= m.data.Keys)
    && (m.tag != "play_started" && m.tag in StatusMessages() ==> Holes(StatusMessages()[m.tag]) <= m.data.Keys)
  }

  /** A message raises exactly when it is not displayable, whatever the labels. */
  lemma ShowOk(l: Labels, m: Msg)
    ensures Show(l, m).Ok? <==> Displayable(m)
  {
    FormatOk(NowText(), m.data);
    if m.tag in StatusMessages() {
      FormatOk(StatusMessages()[m.tag], m.data);
    }
  }

  /** A queue of displayable messages drains without a crash. */
  lemma {:induction false} DrainDisplayable(l: Labels, queue: seq<Msg>)
    requires forall i :: 0 <= i < |queue| ==> Displayable(queue[i])
    ensures Drain(l, queue).Drained?
    decreases |queue|
  {
    if queue != [] {
      ShowOk(l, queue[0]);
      DrainDisplayable(Show(l, queue[0]).value, queue[1..]);
    }
  }

  /** Draining two queues one after the other is draining them joined. */
  lemma {:induction false} DrainAppend(l: Labels, a: seq<Msg>, b: seq<Msg>)
    ensures Drain(l, a + b) == match Drain(l, a) case Drained(l') => Drain(l', b) case Crashed(l', e) => Crashed(l', e)
    decreases |a|
  {
    if a == [] {
      assert a + b == b;
    } else {
      assert a + b != [];
      assert (a + b)[0] == a[0];
      assert (a + b)[1..] == a[1..] + b;
      var r := Show(l, a[0]);
      if r.Ok? {
        DrainAppend(r.value, a[1..], b);
      }
    }
  }

  /** The `volume` and `stopped` messages and every other tag outside the
      table leave both labels as they are. */
  lemma IgnoredTags(l: Labels, m: Msg)
    requires m.tag != "play_started" && m.tag !in StatusMessages()
    ensures Show(l, m) == Ok(l)
    ensures Show(l, Msg("volume", m.data)) == Ok(l) && Show(l, Msg("stopped", m.data)) == Ok(l)
  {
  }

  /** A `play_started` shows `Now: <position>: <title>` and `Playing`. */
  lemma PlayStartedShown(l: Labels, position: int, title: string)
    ensures Show(l, PlayStarted(position, title)) == Ok(Labels("Now: " + IntToStr(position) + ": " + title, "Playing"))
  {
    var d := PlayStarted(position, title).data;
    FormatLast("", "title", d);
    assert Format(Lit(": ", Hole("title", End)), d) == Ok(": " + title);
    assert Format(Hole("index", Lit(": ", Hole("title", End))), d) == Ok(IntToStr(position) + (": " + title));
    assert "Now: " + (IntToStr(position) + (": " + title)) == "Now: " + IntToStr(position) + ": " + title;
  }

  /** The status drain can show the player's messages, with the exceptions
      the next lemmas name: first those of playback, ... */
  lemma PlaybackMessagesDisplayable(s: string, i: int)
    ensures Displayable(PlayStarted(i, s)) && Displayable(PlayError(s))
    ensures Displayable(Paused()) && Displayable(Resumed()) && Displayable(Stopped())
  {
  }

  /** ... then those of the playlist files, other than the failures for a
      missing name, and the volume report under the corrected tag
      `volume_changed` (the player posts `volume`, which is never shown), ... */
  lemma PlaylistMessagesDisplayable(s: string, i: int)
    ensures Displayable(VolumeChanged(i)) && Displayable(SaveOk(s)) && Displayable(SaveFailed(s))
    ensures Displayable(LoadOk(s, i)) && Displayable(LoadFailed(s))
  {
  }

  /** ... those of the library, ... */
  lemma LibraryMessagesDisplayable(s: string)
    ensures Displayable(SongAdded(s)) && Displayable(DownloadStarted())
  {
  }

  /** ... and those of downloads. */
  lemma DownloadMessagesDisplayable(s: string)
    ensures Displayable(DownloadComplete(s)) && Displayable(DownloadFailed(s))
  {
  }

  /** Formatting the last piece of a template. */
  lemma FormatLast(s: string, k: string, d: map<string, Field>)
    ensures Format(Lit(s, End), d) == Ok(s)
    ensures k in d ==> Format(Hole(k, End), d) == Ok(Render(d[k]))
  {
    assert s + "" == s;
    if k in d {
      assert Render(d[k]) + "" == Render(d[k]);
    }
  }

  // -------------------------------------------------------- findings

  /** The entries of the table that the findings below read. */
  lemma FailureTemplates()
    ensures "save_failed" in StatusMessages() && "load_failed" in StatusMessages() && "volume_changed" in StatusMessages()
    ensures StatusMessages()["save_failed"] == Lit("Failed to save playlist: ", Hole("error", End))
    ensures StatusMessages()["load_failed"] == Lit("Failed to load playlist: ", Hole("error", End))
    ensures StatusMessages()["volume_changed"] == Lit("Volume changed: ", Hole("volume", End))
  {
  }

  /** A one-field template whose field is missing raises `KeyError`. */
  lemma MissingField(s: string, k: string, d: map<string, Field>)
    requires k !in d
    ensures Format(Lit(s, Hole(k, End)), d) == Err("KeyError: '" + k + "'")
  {
  }

  /** A one-field template whose field is there renders it after the text. */
  lemma PresentField(s: string, k: string, d: map<string, Field>)
    requires k in d
    ensures Format(Lit(s, Hole(k, End)), d) == Ok(s + Render(d[k]))
  {
    FormatLast(s, k, d);
  }

  /** A message of a table tag whose template has one field, carrying just
      that field: the status line shows the text followed by the field. */
  lemma StatusLine(l: Labels, tag: string, s: string, k: string, f: Field)
    requires tag != "play_started" && tag in StatusMessages() && StatusMessages()[tag] == Lit(s, Hole(k, End))
    ensures Show(l, Msg(tag, map[k := f])) == Ok(l.(status := s + Render(f)))
  {
    PresentField(s, k, map[k := f]);
  }

  /** A save without a name posts a `save_failed` that the drain
      cannot format: the template wants `error`, the message has `name`. */
  lemma SaveEmptyNameAsWrittenCrashes(p: PlayerState, write: Outcome, l: Labels)
    ensures Show(l, SavePlaylist(p, "", write).outbox[|p.outbox|]) == Err("KeyError: 'error'")
  {
    var m := SavePlaylist(p, "", write).outbox[|p.outbox|];
    assert m == Msg("save_failed", map["name" := FStr(EmptyName)]);
    FailureTemplates();
    MissingField("Failed to save playlist: ", "error", m.data);
  }

  /** The corrected save reports the missing name on the status line. */
  lemma SaveEmptyNameShown(p: PlayerState, write: Outcome, l: Labels)
    ensures Show(l, SavePlaylistCorrected(p, "", write).outbox[|p.outbox|]) == Ok(l.(status := "Failed to save playlist: empty-name"))
  {
    assert SavePlaylistCorrected(p, "", write).outbox[|p.outbox|] == SaveFailed(EmptyName);
    FailureTemplates();
    StatusLine(l, "save_failed", "Failed to save playlist: ", "error", FStr(EmptyName));
    assert "Failed to save playlist: " + EmptyName == "Failed to save playlist: empty-name";
  }

  /** The same holds of a load without a name, and of its correction. */
  lemma LoadEmptyNameAsWrittenCrashes(p: PlayerState, existing: set<string>, l: Labels)
    ensures Show(l, LoadPlaylist(p, "", existing).outbox[|p.outbox|]) == Err("KeyError: 'error'")
  {
    var m := LoadPlaylist(p, "", existing).outbox[|p.outbox|];
    assert m == Msg("load_failed", map["name" := FStr(EmptyName)]);
    FailureTemplates();
    MissingField("Failed to load playlist: ", "error", m.data);
  }

  lemma LoadEmptyNameShown(p: PlayerState, existing: set<string>, l: Labels)
    ensures Show(l, LoadPlaylistCorrected(p, "", existing).outbox[|p.outbox|]) == Ok(l.(status := "Failed to load playlist: empty-name"))
  {
    assert LoadPlaylistCorrected(p, "", existing).outbox[|p.outbox|] == LoadFailed(EmptyName);
    FailureTemplates();
    StatusLine(l, "load_failed", "Failed to load playlist: ", "error", FStr(EmptyName));
    assert "Failed to load playlist: " + EmptyName == "Failed to load playlist: empty-name";
  }

  /** A volume change is never shown: its tag `volume` is not in the table. */
  lemma VolumeAsWrittenIgnored(p: PlayerState, v: real, l: Labels)
    ensures Show(l, SetVolume(p, v).outbox[|p.outbox|]) == Ok(l)
  {
    assert SetVolume(p, v).outbox[|p.outbox|].tag == "volume";
  }

  /** The corrected volume change shows the new volume in percent. */
  lemma VolumeShown(p: PlayerState, v: real, l: Labels)
    ensures Show(l, SetVolumeCorrected(p, v).outbox[|p.outbox|])
      == Ok(l.(status := "Volume changed: " + IntToStr(VolumePercent(ClampVolume(v)))))
  {
    assert SetVolumeCorrected(p, v).outbox[|p.outbox|] == VolumeChanged(VolumePercent(ClampVolume(v)));
    FailureTemplates();
    StatusLine(l, "volume_changed", "Volume changed: ", "volume", FInt(VolumePercent(ClampVolume(v))));
  }

  // ------------------------------------------------------- the labels

  /** The two labels the drain writes. */
  class StatusLabels {
    var now: string
    var status: string

    constructor (now: string, status: string)
      ensures this.now == now && this.status == status
    {
      this.now := now;
      this.status := status;
    }

    /** The drain in `main`: take messages off the queue until it is empty;
        `crash` is the exception that ends the program. */
    method DrainQueue(queue: seq<Msg>) returns (crash: Option<string>)
      modifies this
      ensures var r := Drain(old(Labels(now, status)), queue);
        && Labels(now, status) == r.labels
        && (r.Drained? ==> crash == None)
        && (r.Crashed? ==> crash == Some(r.error))
    {
      var i := 0;
      while i < |queue|
        invariant 0 <= i <= |queue|
        invariant Drain(old(Labels(now, status)), queue) == Drain(Labels(now, status), queue[i..])
      {
        DrainStep(Labels(now, status), queue[i..]);
        assert queue[i..][1..] == queue[i + 1..];
        var m := queue[i];
        if m.tag == "play_started" {
          var text := Format(NowText(), m.data);
          if text.Err? {
            return Some(text.error);
          }
          now := text.value;
          status := "Playing";
        } else if m.tag in StatusMessages() {
          var text := Format(StatusMessages()[m.tag], m.data);
          if text.Err? {
            return Some(text.error);
          }
          status := text.value;
        }
        i := i + 1;
      }
      return None;
    }
  }

  // ----------------------------------------------------------- download

  /** `[u.strip() for u in lines if u.strip()]`. */
  function StrippedLines(lines: seq<string>): (urls: seq<string>)
    ensures |urls| <= |lines|
    decreases |lines|
  {
    if lines == [] then []
    else
      var rest := StrippedLines(lines[1..]);
      if Strip(lines[0]) == "" then rest else [Strip(lines[0])] + rest
  }

  /** Every line with something besides white space gives its stripped text as a URL. */
  lemma {:induction false} StrippedLinesKept(lines: seq<string>)
    ensures forall i :: 0 <= i < |lines| && Strip(lines[i]) != "" ==> Strip(lines[i]) in StrippedLines(lines)
    decreases |lines|
  {
    if lines != [] {
      var tail := lines[1..];
      StrippedLinesKept(tail);
      forall i | 1 <= i < |lines| && Strip(lines[i]) != ""
        ensures Strip(lines[i]) in StrippedLines(lines)
      {
        assert lines[i] == tail[i - 1];
      }
    }
  }

  /** Every URL is the non-empty stripped text of one of the lines. */
  lemma {:induction false} StrippedLinesFrom(lines: seq<string>)
    ensures forall u :: u in StrippedLines(lines) ==> u != "" && exists i :: 0 <= i < |lines| && u == Strip(lines[i])
    decreases |lines|
  {
    if lines != [] {
      var tail := lines[1..];
      StrippedLinesFrom(tail);
      forall u | u in StrippedLines(lines)
        ensures u != "" && exists i :: 0 <= i < |lines| && u == Strip(lines[i])
      {
        if u in StrippedLines(tail) {
          var j :| 0 <= j < |tail| && u == Strip(tail[j]);
          assert tail[j] == lines[j + 1];
        }
      }
    }
  }

  /** The URLs of two runs of lines come in the order of the lines. */
  lemma {:induction false} StrippedLinesAppend(a: seq<string>, b: seq<string>)
    ensures StrippedLines(a + b) == StrippedLines(a) + StrippedLines(b)
    decreases |a|
  {
    if a != [] {
      assert (a + b)[1..] == a[1..] + b;
      StrippedLinesAppend(a[1..], b);
    }
    else {
      assert a + b == b;
    }
  }

  /** What pressing Download does: the URLs it starts downloading, the
      messages it posts and the text left in the URL box. */
  datatype DownloadClick = DownloadClick(urls: seq<string>, posts: seq<Msg>, boxText: string)

  /** `on_download()`. A box holding only white space is left alone. */
  function OnDownload(text: string): (r: DownloadClick)
    ensures Strip(text) == "" ==> r == DownloadClick([], [], text)
    ensures Strip(text) != "" ==>
      r.posts == [DownloadStarted()] && r.boxText == "" && r.urls == StrippedLines(SplitLines(Strip(text)))
  {
    var t := Strip(text);
    if t == "" then DownloadClick([], [], text)
    else DownloadClick(StrippedLines(SplitLines(t)), [DownloadStarted()], "")
  }

  /** A piece of text without line breaks. */
  predicate NoBreak(u: string)
  {
    forall i :: 0 <= i < |u| ==> !IsLineBreak(u[i])
  }

  /** A URL as the downloader receives it: non-blank, with no surrounding
      white space and no line break. */
  predicate Clean(u: string)
  {
    u != "" && !IsSpace(u[0]) && !IsSpace(u[|u| - 1]) && NoBreak(u)
  }

  /** Stripping keeps a line free of line breaks. */
  lemma StripNoBreak(s: string)
    requires NoBreak(s)
    ensures NoBreak(Strip(s))
  {
    var r := Strip(s);
    var off := LeadingSpace(s);
    forall i | 0 <= i < |r|
      ensures !IsLineBreak(r[i])
    {
      assert r[i] == s[off + i];
    }
  }

  /** A stripped non-blank line without line breaks is clean. */
  lemma StripClean(s: string)
    requires NoBreak(s) && Strip(s) != ""
    ensures Clean(Strip(s))
  {
    StripNoBreak(s);
  }

  /** Every element of a list of URLs is clean. */
  predicate AllClean(urls: seq<string>)
  {
    forall k :: 0 <= k < |urls| ==> Clean(urls[k])
  }

  lemma AllCleanCons(u: string, rest: seq<string>)
    requires Clean(u) && AllClean(rest)
    ensures AllClean([u] + rest)
  {
    var urls := [u] + rest;
    forall k | 0 <= k < |urls|
      ensures Clean(urls[k])
    {
      if k > 0 {
        assert urls[k] == rest[k - 1];
      }
    }
  }

  /** Every URL of lines without line breaks is clean. */
  lemma {:induction false} StrippedLinesClean(lines: seq<string>)
    requires forall j :: 0 <= j < |lines| ==> NoBreak(lines[j])
    ensures AllClean(StrippedLines(lines))
    decreases |lines|
  {
    if lines != [] {
      StrippedLinesClean(lines[1..]);
      if Strip(lines[0]) != "" {
        StripClean(lines[0]);
        AllCleanCons(Strip(lines[0]), StrippedLines(lines[1..]));
      }
    }
  }

  /** A box with some text starts at least one download, each of a clean URL. */
  lemma OnDownloadUrls(text: string)
    requires Strip(text) != ""
    ensures |OnDownload(text).urls| >= 1
    ensures AllClean(OnDownload(text).urls)
  {
    var t := Strip(text);
    var lines := SplitLines(t);
    forall j | 0 <= j < |lines|
      ensures NoBreak(lines[j])
    {
    }
    StrippedLinesClean(lines);
    LineBreakIsSpace(t[0]);
    var k := FirstBreak(t);
    assert k >= 1;
    var first := t[..k];
    assert lines[0] == first;
    assert !IsSpace(first[0]);
    assert Strip(first) != "";
  }
}
