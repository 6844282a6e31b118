/** `music_player.py`: choosing the audio stream that mpv is started on, and
    assembling the yt-dlp options for a download and relaying its outcome to a
    progress callback. yt-dlp, mpv and the file system are not modelled: what
    they answer is passed in, and what is handed to them is returned. */
module MusicPlayer {
  import opened Outcomes

  // ---------------------------------------------------------------- playback

  /** A dict value the stream search may meet: Python `None` or a string. */
  datatype PyValue = PyNone | PyStr(text: string)

  /** `not v` in Python: `None` and the empty string are false. */
  predicate Falsy(v: PyValue) {
    v.PyNone? || v.text == ""
  }

  /** One entry of `info['formats']`: the two keys the stream search reads,
      each absent or present with its value. */
  datatype Format = Format(url: Option<PyValue>, acodec: Option<PyValue>)

  /** The part of the dict `extract_info` returns that `play_music` reads. */
  datatype Info = Info(url: Option<PyValue>, formats: Option<seq<Format>>)

  /** An exception raised inside yt-dlp: `yt_dlp.utils.DownloadError` or any
      other `Exception`, with the text `str(e)` gives. */
  datatype Raised = DownloadError(message: string) | OtherError(message: string)

  /** What `subprocess.Popen` does with the player command. */
  datatype Launch = Launched | PlayerNotFound | LaunchFailed(message: string)

  /** The started mpv process, known by the argument vector it was given. */
  datatype PlayerProcess = PlayerProcess(argv: seq<string>)

  /** A format the search stops at: it has the keys `url` and `acodec`, and its
      `acodec` is not the string 'none' (a `None` codec passes that test). */
  predicate Playable(f: Format) {
    f.url.Some? && f.acodec.Some? && f.acodec.value != PyStr("none")
  }

  /** Where the `for f in info['formats']` loop stops: at the first playable
      format, or past the end. */
  function FirstPlayable(fs: seq<Format>): (k: nat)
    ensures k <= |fs|
    ensures forall j :: 0 <= j < k ==> !Playable(fs[j])
    ensures k < |fs| ==> Playable(fs[k])
  {
    if fs == [] then 0
    else if Playable(fs[0]) then 0
    else 1 + FirstPlayable(fs[1..])
  }

  /** The value of `audio_url` once the stream search is over: the top-level
      `url` when the key is present, else the `url` of the first playable
      format, else `None`. */
  function ChosenUrl(info: Info): PyValue {
    if info.url.Some? then info.url.value
    else if info.formats.Some? then
      var fs := info.formats.value;
      var k := FirstPlayable(fs);
      if k < |fs| then fs[k].url.value else PyNone
    else PyNone
  }

  /** A top-level `url` wins and `formats` is not looked at; otherwise the
      search either finds no playable format and leaves `None`, or takes the
      value of the first playable format's `url`, whatever it holds. */
  lemma ChosenUrlSpec(info: Info)
    ensures info.url.Some? ==> ChosenUrl(info) == info.url.value
    ensures info.url.None? && info.formats.None? ==> ChosenUrl(info).PyNone?
    ensures info.url.None? && info.formats.Some? ==>
              var fs := info.formats.value;
              || ((forall j :: 0 <= j < |fs| ==> !Playable(fs[j])) && ChosenUrl(info).PyNone?)
              || (exists k :: 0 <= k < |fs| && Playable(fs[k])
                              && (forall j :: 0 <= j < k ==> !Playable(fs[j]))
                              && ChosenUrl(info) == fs[k].url.value)
  {
    if info.url.None? && info.formats.Some? {
      var fs := info.formats.value;
      var k := FirstPlayable(fs);
      if k < |fs| {
        assert Playable(fs[k]);
      }
    }
  }

  /** The stream search of `play_music`: a loop over the formats that stops at
      the first playable one. */
  method SelectStream(info: Info) returns (audioUrl: PyValue)
    ensures audioUrl == ChosenUrl(info)
  {
    audioUrl := PyNone;
    if info.url.Some? {
      audioUrl := info.url.value;
    } else if info.formats.Some? {
      var fs := info.formats.value;
      var i := 0;
      while i < |fs|
        invariant 0 <= i <= |fs|
        invariant forall j :: 0 <= j < i ==> !Playable(fs[j])
        invariant audioUrl.PyNone?
      {
        if fs[i].url.Some? && fs[i].acodec.Some? && fs[i].acodec.value != PyStr("none") {
          audioUrl := fs[i].url.value;
          assert FirstPlayableAt(fs, i);
          break;
        }
        i := i + 1;
      }
      if i == |fs| {
        NoneBeforeEnd(fs);
      }
    }
  }

  /** The first playable format is at index `i` when it is playable and no
      earlier one is. */
  predicate FirstPlayableAt(fs: seq<Format>, i: nat)
    requires i < |fs|
  {
    Playable(fs[i]) && (forall j :: 0 <= j < i ==> !Playable(fs[j])) && FirstPlayable(fs) == i
  }

  lemma {:induction false} NoneBeforeEnd(fs: seq<Format>)
    requires forall j :: 0 <= j < |fs| ==> !Playable(fs[j])
    ensures FirstPlayable(fs) == |fs|
  {
    if fs != [] {
      assert forall j :: 0 <= j < |fs| - 1 ==> fs[1..][j] == fs[j + 1];
      NoneBeforeEnd(fs[1..]);
    }
  }

  /** The command `play_music` starts: mpv, its two options for audio only in
      the console, and the stream as the last argument. */
  function MpvCommand(audioUrl: string): (argv: seq<string>)
    ensures |argv| == 4 && argv[0] == "mpv" && argv[|argv| - 1] == audioUrl
    ensures argv[1..|argv| - 1] == ["--no-video", "--force-window=no"]
  {
    ["mpv", "--no-video", "--force-window=no", audioUrl]
  }

  /** `play_music(video_url)`, where `extraction` is what
      `extract_info(video_url, download=False)` returned or raised and `launch`
      is how `Popen` fared. Returns the started process and the command handed
      to `Popen`, if it was called at all. */
  method PlayMusic(videoUrl: string, extraction: Result<Info, Raised>, launch: Launch)
    returns (player: Option<PlayerProcess>, command: Option<seq<string>>)
    ensures extraction.Err? ==> player.None? && command.None?
    ensures extraction.Ok? ==>
              var u := ChosenUrl(extraction.value);
              if Falsy(u) then player.None? && command.None?
              else command == Some(MpvCommand(u.text))
                   && (player.Some? <==> launch.Launched?)
                   && (player.Some? ==> player.value.argv == MpvCommand(u.text))
  {
    if extraction.Err? {
      return None, None;
    }
    var audioUrl := SelectStream(extraction.value);
    if audioUrl.PyNone? || audioUrl.text == "" {
      return None, None;
    }
    var argv := MpvCommand(audioUrl.text);
    command := Some(argv);
    if launch.Launched? {
      player := Some(PlayerProcess(argv));
    } else {
      player := None;
    }
  }

  // ---------------------------------------------------------------- download

  /** A value in yt-dlp's option dict. `Hooks` is the one-element list holding
      the caller's progress callback. */
  datatype OptValue =
    | Text(text: string)
    | Switch(on: bool)
    | Hooks
    | PostProcessors(steps: seq<map<string, string>>)

  type Options = map<string, OptValue>

  /** A progress dict passed to the callback; only string values are modelled. */
  type Event = map<string, string>

  /** What `ydl.download` was called with. */
  datatype DownloadCall = DownloadCall(options: Options, urls: seq<string>)

  const OutputTemplate: string := "%(title)s.%(ext)s"
  const AudioSelector: string := "bestaudio/best"
  const VideoSelector: string := "bestvideo[ext=mp4]+bestaudio[ext=m4a]/best[ext=mp4]/best"
  const ExtractAudio: map<string, string> :=
    map["key" := "FFmpegExtractAudio", "preferredcodec" := "mp3", "preferredquality" := "192"]
  const ConvertVideo: map<string, string> :=
    map["key" := "FFmpegVideoConvertor", "preferedformat" := "mp4"]

  /** POSIX `os.path.join(dir, name)`: `name` alone when it is absolute,
      otherwise one '/' between the two unless `dir` is empty or ends in one. */
  function JoinPath(dir: string, name: string): (p: string)
    ensures |p| >= |name| && p[|p| - |name|..] == name
    ensures name != [] && name[0] == '/' ==> p == name
    ensures (name == [] || name[0] != '/') ==>
              && |p| >= |dir| + |name| && p[..|dir|] == dir
              && (p[|dir|..|p| - |name|] == "/" <==> dir != [] && dir[|dir| - 1] != '/')
              && (p[|dir|..|p| - |name|] == "" <==> !(dir != [] && dir[|dir| - 1] != '/'))
  {
    if name != [] && name[0] == '/' then name
    else if dir == [] || dir[|dir| - 1] == '/' then dir + name
    else dir + "/" + name
  }

  predicate IsSupported(formatType: string) {
    formatType == "mp3" || formatType == "mp4"
  }

  /** The option dict `download_media` hands to yt-dlp, entry by entry: the output template,
      the three quiet flags, the progress hooks exactly when a callback was
      given, and the selector and post-processor of the format. */
  predicate OptionsFor(o: Options, outputPath: string, formatType: string, hasCallback: bool)
    requires IsSupported(formatType)
  {
    && o.Keys == {"outtmpl", "quiet", "noplaylist", "no_warnings", "format", "postprocessors"}
                 + (if hasCallback then {"progress_hooks"} else {})
    && o["outtmpl"] == Text(JoinPath(outputPath, OutputTemplate))
    && o["quiet"] == Switch(true)
    && o["noplaylist"] == Switch(true)
    && o["no_warnings"] == Switch(true)
    && (hasCallback ==> o["progress_hooks"] == Hooks)
    && (formatType == "mp3" ==>
          o["format"] == Text(AudioSelector) && o["postprocessors"] == PostProcessors([ExtractAudio]))
    && (formatType == "mp4" ==>
          o["format"] == Text(VideoSelector) && o["postprocessors"] == PostProcessors([ConvertVideo]))
  }

  /** `OptionsFor` pins the option dict down: two dicts that both meet it are
      the same dict. */
  lemma OptionsForUnique(a: Options, b: Options, outputPath: string, formatType: string, hasCallback: bool)
    requires IsSupported(formatType)
    requires OptionsFor(a, outputPath, formatType, hasCallback)
    requires OptionsFor(b, outputPath, formatType, hasCallback)
    ensures a == b
  {
    assert a.Keys == b.Keys;
  }

  /** The option dict for a supported format, built step by step; `None` for
      any other format token. */
  method BuildDownloadOptions(outputPath: string, formatType: string, hasCallback: bool)
    returns (opts: Option<Options>)
    ensures opts.Some? <==> IsSupported(formatType)
    ensures opts.Some? ==> OptionsFor(opts.value, outputPath, formatType, hasCallback)
  {
    var o: Options := map[
      "outtmpl" := Text(JoinPath(outputPath, OutputTemplate)),
      "quiet" := Switch(true),
      "noplaylist" := Switch(true),
      "no_warnings" := Switch(true)
    ];
    assert o.Keys == {"outtmpl", "quiet", "noplaylist", "no_warnings"};
    if hasCallback {
      o := o["progress_hooks" := Hooks];
    }
    ghost var common := o;
    if formatType == "mp3" {
      o := o["format" := Text(AudioSelector)]["postprocessors" := PostProcessors([ExtractAudio])];
    } else if formatType == "mp4" {
      o := o["format" := Text(VideoSelector)]["postprocessors" := PostProcessors([ConvertVideo])];
    } else {
      return None;
    }
    assert o.Keys == common.Keys + {"format", "postprocessors"};
    return Some(o);
  }

  function StatusEvent(status: string, message: string): Event {
    map["status" := status, "message" := message]
  }

  const Finished: string := "finished"
  const Error: string := "error"

  /** The event sent once `ydl.download` has returned or raised. */
  function TerminalEvent(raised: Option<Raised>): (e: Event)
    ensures e.Keys == {"status", "message"}
    ensures e["status"] == Finished <==> raised.None?
    ensures e["status"] == Error <==> raised.Some?
    ensures raised.None? ==> e["message"] == "Download complete!"
    ensures raised.Some? && raised.value.DownloadError? ==>
              e["message"] == "Download error: " + raised.value.message
    ensures raised.Some? && raised.value.OtherError? ==>
              e["message"] == "Unexpected error: " + raised.value.message
  {
    match raised
    case None => StatusEvent(Finished, "Download complete!")
    case Some(DownloadError(m)) => StatusEvent(Error, "Download error: " + m)
    case Some(OtherError(m)) => StatusEvent(Error, "Unexpected error: " + m)
  }

  /** Everything the progress callback receives during `download_media`, where
      `ticks` are the progress dicts yt-dlp itself sends and `raised` is what
      `ydl.download` raised, if anything. */
  function DownloadEvents(formatType: string, ticks: seq<Event>, raised: Option<Raised>): (events: seq<Event>)
    ensures IsSupported(formatType) ==>
              |events| == |ticks| + 1 && events[..|ticks|] == ticks
              && events[|ticks|] == TerminalEvent(raised)
    ensures !IsSupported(formatType) ==>
              events == [StatusEvent(Error, "Unsupported format: " + formatType)]
  {
    if IsSupported(formatType) then ticks + [TerminalEvent(raised)]
    else [StatusEvent(Error, "Unsupported format: " + formatType)]
  }

  /** Exactly one event closes a download's stream of events: after yt-dlp's
      own ticks comes one 'finished' or 'error' event, and a rejected format
      produces nothing but one 'error' event. */
  lemma DownloadEventsEndOnce(formatType: string, ticks: seq<Event>, raised: Option<Raised>)
    ensures var events := DownloadEvents(formatType, ticks, raised);
            && |events| > 0
            && events[|events| - 1]["status"]
               == (if IsSupported(formatType) && raised.None? then Finished else Error)
            && events[..|events| - 1] == (if IsSupported(formatType) then ticks else [])
  {
    var events := DownloadEvents(formatType, ticks, raised);
    if IsSupported(formatType) {
      assert events[|events| - 1] == TerminalEvent(raised);
    }
  }

  /** The progress callback, as the list of dicts it has been called with. */
  class ProgressLog {
    var events: seq<Event>

    constructor ()
      ensures events == []
    {
      events := [];
    }

    method Report(e: Event)
      modifies this
      ensures events == old(events) + [e]
    {
      events := events + [e];
    }

    /** yt-dlp calling the progress hook once per progress dict, in order. */
    method ReportAll(ticks: seq<Event>)
      modifies this
      ensures events == old(events) + ticks
    {
      var i := 0;
      while i < |ticks|
        invariant 0 <= i <= |ticks|
        invariant events == old(events) + ticks[..i]
      {
        Report(ticks[i]);
        assert ticks[..i + 1] == ticks[..i] + [ticks[i]];
        i := i + 1;
      }
      assert ticks[..|ticks|] == ticks;
    }
  }

  /** `download_media(video_url, format_type, output_path, progress_callback)`,
      where `callback` is the callback or null, `dirs` the directories that
      exist beforehand, `ticks` the progress dicts yt-dlp sends and `raised`
      what `ydl.download` raised, if anything. Returns what `ydl.download` was
      called with, if it was called, and the directories that exist after. */
  method DownloadMedia(videoUrl: string, formatType: string, outputPath: string,
                       callback: ProgressLog?, dirs: set<string>,
                       ticks: seq<Event>, raised: Option<Raised>)
    returns (call: Option<DownloadCall>, dirsAfter: set<string>)
    modifies callback
    ensures dirsAfter == dirs + {outputPath}
    ensures call.Some? <==> IsSupported(formatType)
    ensures call.Some? ==> call.value.urls == [videoUrl]
                           && OptionsFor(call.value.options, outputPath, formatType, callback != null)
    ensures callback != null ==>
              callback.events == old(callback.events) + DownloadEvents(formatType, ticks, raised)
  {
    dirsAfter := dirs;
    if outputPath !in dirs {
      dirsAfter := dirs + {outputPath};
    }
    var opts := BuildDownloadOptions(outputPath, formatType, callback != null);
    if opts.None? {
      if callback != null {
        callback.Report(StatusEvent(Error, "Unsupported format: " + formatType));
        assert DownloadEvents(formatType, ticks, raised)
               == [StatusEvent(Error, "Unsupported format: " + formatType)];
      }
      return None, dirsAfter;
    }
    call := Some(DownloadCall(opts.value, [videoUrl]));
    assert OptionsFor(call.value.options, outputPath, formatType, callback != null);
    if callback != null {
      callback.ReportAll(ticks);
      callback.Report(TerminalEvent(raised));
      assert DownloadEvents(formatType, ticks, raised) == ticks + [TerminalEvent(raised)];
    }
  }
}
