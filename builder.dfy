/** `VideoBuilder`: a fluent object that collects a background (image or video),
    an audio file, captions and an output path, and turns them into one ffmpeg
    argument list, refusing combinations it cannot render. */
module Builder {
  import opened Results
  import opened Text
  import opened Numeric
  import opened Effects

  /** The background component: an image with its effect, or a video. */
  datatype Background = Image(file: string, effect: EffectConfig) | Video(file: string)

  /** The captions component. A missing or `None` entry is the empty string, which
      every use in the builder treats as absent. */
  datatype Captions = Captions(file: string, fontsdir: string, forceStyle: string)

  /** `MediaUtils.get_audio_info(path).get("duration")`: the duration in seconds, or
      `None` when the key is missing. */
  type AudioInfo = string -> Option<real>

  /** `str()` of a float, which the command embeds as text. */
  type FloatText = real -> string

  /** The fields of a builder, as `build_command` reads them. */
  datatype Settings = Settings(
    width: int, height: int, ffmpegPath: string,
    background: Option<Background>, audioFile: string, captions: Option<Captions>,
    outputPath: string, media: Option<AudioInfo>)

  /** A duration counts only when it is present and non-zero (`if not audio_duration`). */
  predicate Truthy(d: Option<real>) {
    d.Some? && d.value != 0.0
  }

  const Fps: int := 25

  // The messages of the ValueErrors the builder raises.
  const NoBackground: string := "Background must be set (image or video)."
  const NoAudioNorCaptions: string := "At least one of audio_file or captions must be provided."
  const ImageNeedsAudio: string := "Audio file must be provided if background is an image."
  const VideoNeedsAudioOrCaptions: string := "Audio file or captions must be provided if background is a video."
  const NoMediaUtils: string := "Media manager must be set to determine audio duration."
  const NoDuration: string := "Could not determine audio duration"
  const BadDimensions: string := "Dimensions must be a tuple of (width, height)."

  // ---------------------------------------------------------------------------
  // _build_subtitles_filter

  /** `force_style.replace(",", "\\,")`. */
  function EscapeCommas(style: string): string {
    ReplaceChar(style, ',', "\\,")
  }

  /** Removes the backslash in front of each comma, reading left to right. */
  function UnescapeCommas(t: string): string {
    if |t| >= 2 && t[0] == '\\' && t[1] == ',' then "," + UnescapeCommas(t[2..])
    else if t == [] then []
    else [t[0]] + UnescapeCommas(t[1..])
  }

  lemma EscapeCommasCons(c: char, rest: string)
    ensures EscapeCommas([c] + rest) == (if c == ',' then "\\," else [c]) + EscapeCommas(rest)
  {
    assert ([c] + rest)[1..] == rest;
  }

  /** Every comma of the escaped style is preceded by a backslash, so ffmpeg's
      filter parser cannot split the option there, and removing those backslashes
      gives the configured style back. */
  lemma {:induction false} EscapeCommasSpec(style: string)
    ensures var t := EscapeCommas(style);
      forall i :: 0 <= i < |t| && t[i] == ',' ==> 0 < i && t[i - 1] == '\\'
    ensures UnescapeCommas(EscapeCommas(style)) == style
    ensures EscapeCommas(style) == [] <==> style == []
  {
    if style != [] {
      var c, rest := style[0], style[1..];
      EscapeCommasSpec(rest);
      assert [c] + rest == style;
      EscapeCommasCons(c, rest);
      var t := EscapeCommas(style);
      var tr := EscapeCommas(rest);
      if c == ',' {
        assert t == "\\," + tr;
        assert t[2..] == tr;
        forall i | 0 <= i < |t| && t[i] == ','
          ensures 0 < i && t[i - 1] == '\\'
        {
          if i >= 2 {
            assert t[i] == tr[i - 2];
            if i >= 3 {
              assert t[i - 1] == tr[i - 3];
            }
          }
        }
      } else {
        assert t == [c] + tr;
        assert t[1..] == tr;
        if c == '\\' && tr != [] {
          EscapeHead(rest);
        }
        forall i | 0 <= i < |t| && t[i] == ','
          ensures 0 < i && t[i - 1] == '\\'
        {
          assert i != 0;
          assert t[i] == tr[i - 1];
          if i >= 2 {
            assert t[i - 1] == tr[i - 2];
          }
        }
      }
    }
  }

  /** An escaped style starts with a backslash where the style starts with a comma,
      and with the style's own first character otherwise. */
  lemma EscapeHead(style: string)
    requires style != []
    ensures EscapeCommas(style)[0] == (if style[0] == ',' then '\\' else style[0])
  {
    EscapeCommasCons(style[0], style[1..]);
    assert [style[0]] + style[1..] == style;
  }

  /** The `subtitles` filter options: the quoted file, then the fonts directory and
      the escaped force_style when they are set. */
  function SubtitleOptions(c: Captions): seq<string> {
    ["'" + c.file + "'"] +
    (if c.fontsdir != [] then ["fontsdir='" + c.fontsdir + "'"] else []) +
    (if c.forceStyle != [] then ["force_style='" + EscapeCommas(c.forceStyle) + "'"] else [])
  }

  /** `_build_subtitles_filter`: the filter chain from `[bg]` to `[v]` and its output
      label, or `None` without captions or without a caption file. */
  function SubtitlesFilter(captions: Option<Captions>): Option<(string, string)> {
    if captions.None? || captions.value.file == [] then None
    else Some(("[bg]subtitles=" + Join(SubtitleOptions(captions.value), ":") + "[v]", "[v]"))
  }

  /** There is a subtitles chain exactly when a caption file is set; it reads
      `[bg]`, renders the quoted file first and writes `[v]`, which is the label
      it returns. */
  lemma SubtitlesFilterSpec(captions: Option<Captions>)
    ensures SubtitlesFilter(captions).Some? <==> captions.Some? && captions.value.file != []
    ensures SubtitlesFilter(captions).Some? ==>
      var chain := SubtitlesFilter(captions).value.0;
      var head := "[bg]subtitles='" + captions.value.file + "'";
      SubtitlesFilter(captions).value.1 == "[v]" &&
      StartsWith(chain, head) && chain[|chain| - 3..] == "[v]"
  {
    if captions.Some? && captions.value.file != [] {
      var opts := SubtitleOptions(captions.value);
      var first := "'" + captions.value.file + "'";
      var chain := SubtitlesFilter(captions).value.0;
      var head := "[bg]subtitles=" + first;
      JoinHead(opts, ":");
      assert chain == "[bg]subtitles=" + Join(opts, ":") + "[v]";
      assert chain[..|head|] == head;
    }
  }

  /** A join starts with its first element. */
  lemma JoinHead(ss: seq<string>, sep: string)
    requires ss != []
    ensures StartsWith(Join(ss, sep), ss[0])
  {
    if |ss| >= 2 {
      JoinCons(ss, sep);
    }
  }

  // ---------------------------------------------------------------------------
  // build_command

  /** The validation of `build_command`, in the source's order. The fourth check
      is kept as written; `VideoCheckUnreachable` shows it never fires. */
  function Validate(s: Settings): Result<real> {
    if s.background.None? then Err(ValueError(NoBackground))
    else if s.audioFile == [] && s.captions.None? then
      Err(ValueError(NoAudioNorCaptions))
    else if s.background.value.Image? && s.audioFile == [] then
      Err(ValueError(ImageNeedsAudio))
    else if s.background.value.Video? && s.audioFile == [] && s.captions.None? then
      Err(ValueError(VideoNeedsAudioOrCaptions))
    else if s.audioFile != [] && s.media.None? then
      Err(ValueError(NoMediaUtils))
    else if s.audioFile != [] && !Truthy(s.media.value(s.audioFile)) then
      Err(ValueError(NoDuration))
    else if s.audioFile != [] then Ok(s.media.value(s.audioFile).value)
    else Ok(0.0)
  }

  /** The logging prefix every command starts with. */
  function Prefix(ffmpegPath: string): seq<string> {
    [ffmpegPath, "-y", "-hide_banner", "-loglevel", "level+info", "-report"]
  }

  /** The background input: a looped image held for the audio's duration at 25 fps,
      or a video file. */
  function BackgroundInput(bg: Background, duration: real, show: FloatText): seq<string> {
    if bg.Image? then ["-loop", "1", "-t", show(duration), "-r", IntToString(Fps), "-i", bg.file]
    else ["-i", bg.file]
  }

  /** `duration_frames + 1`, the zoompan length of a Ken Burns background. */
  function ZoompanFrames(duration: real): int {
    Trunc(duration * Fps as real) + 1
  }

  /** The zoompan of a Ken Burns background lasts at least one frame and strictly
      longer than the audio, so the audio (with `-shortest`) decides the length. */
  lemma ZoompanFramesSpec(duration: real)
    requires duration >= 0.0
    ensures ZoompanFrames(duration) >= 1
    ensures ZoompanFrames(duration) as real / Fps as real > duration
  {
  }

  /** The background filter, reading input 0 and writing `[bg]`. */
  function BackgroundFilter(bg: Background, w: int, h: int, duration: real, show: FloatText): string {
    var plain := "[0]scale=" + IntToString(w) + ":" + IntToString(h) + ",setsar=1:1[bg]";
    if bg.Video? then plain
    else
      var eff := bg.effect;
      if EffectType(eff) == "ken_burns" then
        "[0]scale=" + IntToString(w) + ":-2,setsar=1:1," +
        "crop=" + IntToString(w) + ":" + IntToString(h) + "," +
        "zoompan=" + ZoomExpr(Get(eff.direction, "zoom-to-top-left"), ZoomFactor(eff)) +
        ":d=" + IntToString(ZoompanFrames(duration)) +
        ":s=" + IntToString(w) + "x" + IntToString(h) + ":fps=" + IntToString(Fps) + "[bg]"
      else if EffectType(eff) == "pan" then
        var sw := Scaled(w, 1.3);
        var sh := Scaled(h, 1.3);
        var o := PanOffsets(Get(eff.direction, "left-to-right"), w, h, sw, sh);
        var speed := SpeedMult(Get(eff.speed, "normal"));
        "[0]scale=" + IntToString(sw) + ":" + IntToString(sh) + ",setsar=1:1," +
        "crop=" + IntToString(w) + ":" + IntToString(h) + ":" +
        PanExpr(o.startX, o.endX, show(duration), speed) + ":" +
        PanExpr(o.startY, o.endY, show(duration), speed) + "[bg]"
      else plain
  }

  /** An image whose effect is neither Ken Burns nor pan is only scaled, like a
      video; a Ken Burns zoom towards an unknown direction is the top-left zoom;
      a pan in an unknown direction is the left-to-right pan. */
  lemma BackgroundFilterFallbacks(file: string, eff: EffectConfig, w: int, h: int, duration: real, show: FloatText)
    ensures EffectType(eff) !in ["ken_burns", "pan"] ==>
      BackgroundFilter(Image(file, eff), w, h, duration, show) == BackgroundFilter(Video(file), w, h, duration, show)
    ensures EffectType(eff) == "ken_burns" && Get(eff.direction, "zoom-to-top-left") !in ZoomDirections ==>
      BackgroundFilter(Image(file, eff), w, h, duration, show) ==
      BackgroundFilter(Image(file, eff.(direction := Some("zoom-to-top-left"))), w, h, duration, show)
    ensures EffectType(eff) == "pan" && Get(eff.direction, "left-to-right") !in PanDirections ==>
      BackgroundFilter(Image(file, eff), w, h, duration, show) ==
      BackgroundFilter(Image(file, eff.(direction := Some("left-to-right"))), w, h, duration, show)
  {
    ZoomExprSpec(Get(eff.direction, "zoom-to-top-left"), ZoomFactor(eff));
    PanOffsetsSpec(Get(eff.direction, "left-to-right"), w, h, Scaled(w, 1.3), Scaled(h, 1.3));
  }

  /** The filter parts: the background, then the subtitles chain if any. */
  function FilterParts(s: Settings, duration: real, show: FloatText): (parts: seq<string>)
    requires s.background.Some?
    ensures parts != []
  {
    var sub := SubtitlesFilter(s.captions);
    [BackgroundFilter(s.background.value, s.width, s.height, duration, show)] +
    (if sub.Some? then [sub.value.0] else [])
  }

  /** The arguments after the filter graph: the video map, the audio map and codec
      when there is audio, the video codec, `-shortest` and the output path. */
  function OutputArgs(mapLabel: string, hasAudio: bool, outputPath: string): seq<string> {
    ["-map", mapLabel] +
    (if hasAudio then ["-map", "1:a"] else []) +
    ["-c:v", "libx264", "-preset", "ultrafast", "-crf", "23", "-pix_fmt", "yuv420p"] +
    (if hasAudio then ["-c:a", "aac", "-b:a", "192k"] else []) +
    ["-shortest", outputPath]
  }

  /** The video stream map: `[v]` after subtitles, `[bg]` otherwise. */
  function VideoLabel(captions: Option<Captions>): string {
    var sub := SubtitlesFilter(captions);
    if sub.Some? then sub.value.1 else "[bg]"
  }

  /** The `-filter_complex` graph: the filter parts joined with ';'. */
  function FilterGraph(s: Settings, duration: real, show: FloatText): string
    requires s.background.Some?
  {
    Join(FilterParts(s, duration, show), ";")
  }

  /** The whole command for settings that passed validation, around a filter graph. */
  function Assemble(s: Settings, duration: real, show: FloatText, graph: string): seq<string>
    requires s.background.Some?
  {
    Prefix(s.ffmpegPath) +
    BackgroundInput(s.background.value, duration, show) +
    (if s.audioFile != [] then ["-i", s.audioFile] else []) +
    ["-filter_complex", graph] +
    OutputArgs(VideoLabel(s.captions), s.audioFile != [], s.outputPath)
  }

  /** `build_command`: the validation errors, or the argument list. */
  function Command(s: Settings, show: FloatText): Result<seq<string>> {
    var v := Validate(s);
    if v.Err? then Err(v.error) else Ok(Assemble(s, v.value, show, FilterGraph(s, v.value, show)))
  }

  /** The checks fire in order: no background; neither audio nor captions; an image
      without audio; audio without a media helper; audio whose duration is missing
      or zero. */
  lemma CommandErrors(s: Settings, show: FloatText)
    ensures s.background.None? ==>
      Command(s, show) == Err(ValueError(NoBackground))
    ensures s.background.Some? && s.audioFile == [] && s.captions.None? ==>
      Command(s, show) == Err(ValueError(NoAudioNorCaptions))
    ensures s.background.Some? && s.background.value.Image? && s.audioFile == [] && s.captions.Some? ==>
      Command(s, show) == Err(ValueError(ImageNeedsAudio))
    ensures s.background.Some? && s.audioFile != [] && s.media.None? ==>
      Command(s, show) == Err(ValueError(NoMediaUtils))
    ensures s.background.Some? && s.audioFile != [] && s.media.Some? && !Truthy(s.media.value(s.audioFile)) ==>
      Command(s, show) == Err(ValueError(NoDuration))
  {
  }

  /** A command is built exactly when none of the checks applies. */
  lemma CommandBuilt(s: Settings, show: FloatText)
    ensures Command(s, show).Ok? <==>
      s.background.Some? &&
      (s.audioFile == [] ==> s.captions.Some? && s.background.value.Video?) &&
      (s.audioFile != [] ==> s.media.Some? && Truthy(s.media.value(s.audioFile)))
  {
  }

  /** The video-only check never fires: a video without audio reaching it has
      captions, since the second check already refused the case without. */
  lemma VideoCheckUnreachable(s: Settings, show: FloatText)
    ensures Command(s, show) != Err(ValueError(VideoNeedsAudioOrCaptions))
  {
  }

  /** The command after validation is the assembled argument list. */
  lemma CommandAssembled(s: Settings, show: FloatText)
    requires Command(s, show).Ok?
    ensures s.background.Some? && Command(s, show).value == Assemble(s, Validate(s).value, show, FilterGraph(s, Validate(s).value, show))
    ensures s.background.value.Image? ==> s.audioFile != [] && Validate(s).value == s.media.value(s.audioFile).value
  {
  }

  /** The assembled list starts with the logging prefix and ends with `-shortest`
      and the output path. */
  lemma AssembleFrame(s: Settings, duration: real, show: FloatText, graph: string)
    requires s.background.Some?
    ensures var cmd := Assemble(s, duration, show, graph);
      |cmd| >= 8 && cmd[..6] == Prefix(s.ffmpegPath) && cmd[0] == s.ffmpegPath &&
      cmd[|cmd| - 2..] == ["-shortest", s.outputPath]
  {
    var cmd := Assemble(s, duration, show, graph);
    var pre := Prefix(s.ffmpegPath);
    var bg := BackgroundInput(s.background.value, duration, show);
    var audio := if s.audioFile != [] then ["-i", s.audioFile] else [];
    var out := OutputArgs(VideoLabel(s.captions), s.audioFile != [], s.outputPath);
    var c4 := pre + bg + audio + ["-filter_complex", graph];
    assert cmd == c4 + out;
    VideoLabelSpec(s.captions);
    OutputArgsSpec(VideoLabel(s.captions), s.audioFile != [], s.outputPath);
    SuffixWithin(c4, out, 2);
    SliceWithin(c4, out, 0, 6);
    SliceWithin(pre + bg + audio, ["-filter_complex", graph], 0, 6);
    SliceWithin(pre + bg, audio, 0, 6);
    SliceWithin(pre, bg, 0, 6);
  }

  lemma SuffixWithin<T>(a: seq<T>, b: seq<T>, n: nat)
    requires n <= |b|
    ensures (a + b)[|a + b| - n..] == b[|b| - n..]
  {
  }

  /** The background is input 0 (an image looped for `duration` at 25 fps, or the
      video) and follows the prefix; the audio, when set, is input 1 right after. */
  lemma AssembleInputs(s: Settings, duration: real, show: FloatText, graph: string)
    requires s.background.Some?
    ensures var cmd := Assemble(s, duration, show, graph);
      s.background.value.Image? ==>
        |cmd| >= 14 && cmd[6..14] == ["-loop", "1", "-t", show(duration), "-r", "25", "-i", s.background.value.file]
    ensures var cmd := Assemble(s, duration, show, graph);
      s.background.value.Video? ==> |cmd| >= 8 && cmd[6..8] == ["-i", s.background.value.file]
    ensures var cmd := Assemble(s, duration, show, graph);
      var k := |BackgroundInput(s.background.value, duration, show)| + 6;
      s.audioFile != [] ==> |cmd| >= k + 2 && cmd[k..k + 2] == ["-i", s.audioFile]
  {
    var cmd := Assemble(s, duration, show, graph);
    var pre := Prefix(s.ffmpegPath);
    var bg := BackgroundInput(s.background.value, duration, show);
    var audio := if s.audioFile != [] then ["-i", s.audioFile] else [];
    var filter := ["-filter_complex", graph];
    var out := OutputArgs(VideoLabel(s.captions), s.audioFile != [], s.outputPath);
    var c2 := pre + bg;
    var c3 := c2 + audio;
    var c4 := c3 + filter;
    assert cmd == c4 + out;
    SliceWithin(c4, out, 6, |c3|);
    SliceWithin(c3, filter, 6, |c3|);
    SliceWithin(c2, audio, 6, |c2|);
    assert cmd[6..|c2|] == bg;
    assert cmd[|c2|..|c3|] == audio;
    assert IntToString(Fps) == "25";
  }

  lemma SliceWithin<T>(a: seq<T>, b: seq<T>, i: nat, j: nat)
    requires i <= j <= |a|
    ensures (a + b)[i..j] == a[i..j]
  {
  }

  /** The stream arguments map the given video label first and end with
      `-shortest` and the output path; before the output path, `1:a` and `aac`
      occur exactly when there is audio. */
  lemma OutputArgsSpec(videoLabel: string, hasAudio: bool, outputPath: string)
    requires videoLabel in ["[v]", "[bg]"]
    ensures var out := OutputArgs(videoLabel, hasAudio, outputPath);
      |out| >= 4 && out[..2] == ["-map", videoLabel] && out[|out| - 2..] == ["-shortest", outputPath] &&
      ("1:a" in out[..|out| - 1] <==> hasAudio) && ("aac" in out[..|out| - 1] <==> hasAudio)
  {
    var out := OutputArgs(videoLabel, hasAudio, outputPath);
    if hasAudio {
      assert out[..|out| - 1][3] == "1:a";
      assert out[..|out| - 1][13] == "aac";
    } else {
      assert out[..|out| - 1] == ["-map", videoLabel, "-c:v", "libx264", "-preset", "ultrafast", "-crf", "23", "-pix_fmt", "yuv420p", "-shortest"];
    }
  }

  /** The video is mapped from `[v]` exactly when a caption file is set, and from
      `[bg]` otherwise. */
  lemma VideoLabelSpec(captions: Option<Captions>)
    ensures VideoLabel(captions) in ["[v]", "[bg]"]
    ensures VideoLabel(captions) == "[v]" <==> captions.Some? && captions.value.file != []
  {
    SubtitlesFilterSpec(captions);
  }

  /** A built command ends with the stream arguments for its captions and audio. */
  lemma AssembleStreams(s: Settings, duration: real, show: FloatText, graph: string)
    requires s.background.Some?
    ensures var cmd := Assemble(s, duration, show, graph);
      var out := OutputArgs(VideoLabel(s.captions), s.audioFile != [], s.outputPath);
      |out| <= |cmd| && cmd[|cmd| - |out|..] == out
  {
    var cmd := Assemble(s, duration, show, graph);
    var out := OutputArgs(VideoLabel(s.captions), s.audioFile != [], s.outputPath);
    var front := Prefix(s.ffmpegPath) + BackgroundInput(s.background.value, duration, show) +
      (if s.audioFile != [] then ["-i", s.audioFile] else []) +
      ["-filter_complex", graph];
    assert cmd == front + out;
    assert cmd[|cmd| - |out|..] == out;
  }

  // ---------------------------------------------------------------------------
  // The builder object

  class VideoBuilder {
    var width: int
    var height: int
    var ffmpegPath: string
    var background: Option<Background>
    var audioFile: string
    var captions: Option<Captions>
    var outputPath: string
    var mediaUtils: Option<AudioInfo>

    /** A builder with no components and the output path "output.mp4". */
    constructor(width: int, height: int, ffmpegPath: string)
      ensures Snapshot() == Settings(width, height, ffmpegPath, None, [], None, "output.mp4", None)
    {
      this.width := width;
      this.height := height;
      this.ffmpegPath := ffmpegPath;
      background := None;
      audioFile := [];
      captions := None;
      outputPath := "output.mp4";
      mediaUtils := None;
    }

    function Snapshot(): Settings
      reads this
    {
      Settings(width, height, ffmpegPath, background, audioFile, captions, outputPath, mediaUtils)
    }

    method SetMediaUtils(media: AudioInfo)
      modifies this
      ensures Snapshot() == old(Snapshot()).(media := Some(media))
    {
      mediaUtils := Some(media);
    }

    /** The background becomes the image, with the given effect or Ken Burns. */
    method SetBackgroundImage(file: string, effect: Option<EffectConfig>)
      modifies this
      ensures Snapshot() == old(Snapshot()).(background := Some(Image(file, OrDefault(effect))))
    {
      background := Some(Image(file, OrDefault(effect)));
    }

    method SetBackgroundVideo(file: string)
      modifies this
      ensures Snapshot() == old(Snapshot()).(background := Some(Video(file)))
    {
      background := Some(Video(file));
    }

    method SetAudio(file: string)
      modifies this
      ensures Snapshot() == old(Snapshot()).(audioFile := file)
    {
      audioFile := file;
    }

    /** Captions are set, even when the file is missing. */
    method SetCaptions(file: string, fontsdir: string, forceStyle: string)
      modifies this
      ensures Snapshot() == old(Snapshot()).(captions := Some(Captions(file, fontsdir, forceStyle)))
    {
      captions := Some(Captions(file, fontsdir, forceStyle));
    }

    method SetOutputPath(path: string)
      modifies this
      ensures Snapshot() == old(Snapshot()).(outputPath := path)
    {
      outputPath := path;
    }

    /** `build_command`: the checks, then the argument list. */
    method BuildCommand(show: FloatText) returns (r: Result<seq<string>>)
      ensures r == Command(Snapshot(), show)
    {
      var v := Validate(Snapshot());
      if v.Err? {
        return Err(v.error);
      }
      var cmd := AssembleCommand(v.value, show);
      r := Ok(cmd);
    }

    /** The argument list of `build_command`, extended step by step. */
    method AssembleCommand(duration: real, show: FloatText) returns (cmd: seq<string>)
      requires background.Some?
      ensures cmd == Assemble(Snapshot(), duration, show, FilterGraph(Snapshot(), duration, show))
    {
      var bg := background.value;
      cmd := Prefix(ffmpegPath);
      var filterParts: seq<string> := [];
      var inputIndex := 0;
      cmd := cmd + BackgroundInput(bg, duration, show);
      filterParts := filterParts + [BackgroundFilter(bg, width, height, duration, show)];
      inputIndex := inputIndex + 1;
      var videoLabel := "[bg]";
      var audioIndex: Option<nat> := None;
      if audioFile != [] {
        cmd := cmd + ["-i", audioFile];
        audioIndex := Some(inputIndex);
        inputIndex := inputIndex + 1;
      }
      var sub := SubtitlesFilter(captions);
      if sub.Some? {
        filterParts := filterParts + [sub.value.0];
        videoLabel := sub.value.1;
      }
      if filterParts != [] {
        cmd := cmd + ["-filter_complex", Join(filterParts, ";")];
      }
      assert filterParts == FilterParts(Snapshot(), duration, show);
      var tail := StreamArgs(videoLabel, audioIndex);
      cmd := cmd + tail;
    }

    /** The stream maps, codecs, `-shortest` and the output path. */
    method StreamArgs(videoLabel: string, audioIndex: Option<nat>) returns (tail: seq<string>)
      requires audioIndex.Some? <==> audioFile != []
      requires audioIndex.Some? ==> audioIndex.value == 1
      ensures tail == OutputArgs(videoLabel, audioFile != [], outputPath)
    {
      tail := ["-map", videoLabel];
      if audioIndex.Some? {
        assert IntToString(audioIndex.value) + ":a" == "1:a";
        tail := tail + ["-map", IntToString(audioIndex.value) + ":a"];
      }
      tail := tail + ["-c:v", "libx264", "-preset", "ultrafast", "-crf", "23", "-pix_fmt", "yuv420p"];
      if audioFile != [] {
        tail := tail + ["-c:a", "aac", "-b:a", "192k"];
      }
      tail := tail + ["-shortest"];
      tail := tail + [outputPath];
    }
  }

  /** `VideoBuilder(dimensions, ffmpeg_path)`: anything but a pair of dimensions is
      refused with ValueError. */
  method NewVideoBuilder(dimensions: seq<int>, ffmpegPath: string) returns (r: Result<VideoBuilder>)
    ensures r.Err? <==> |dimensions| != 2
    ensures r.Err? ==> r.error == ValueError(BadDimensions)
    ensures r.Ok? ==> (fresh(r.value) &&
      r.value.Snapshot() == Settings(dimensions[0], dimensions[1], ffmpegPath, None, [], None, "output.mp4", None))
  {
    if |dimensions| != 2 {
      return Err(ValueError(BadDimensions));
    }
    var b := new VideoBuilder(dimensions[0], dimensions[1], ffmpegPath);
    r := Ok(b);
  }
}
