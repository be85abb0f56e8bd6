/** `MultiImageVideoBuilder`: renders one video-only segment per image, joins the
    segments, then adds the audio track and burns in the captions in a final mux.
    This module models the duration plan, the segment filters, the escaping of
    filter paths, the final-mux dispatch and the checks and order of `build`. */
module Slideshow {
  import opened Results
  import opened Text
  import opened Effects

  // ---------------------------------------------------------------------------
  // _compute_durations

  // The messages of the ValueErrors raised while planning durations.
  const LengthMismatch: string := "image_durations length must match number of images"
  const NotPositive: string := "All image_durations must be positive"
  const NoAudioDuration: string := "Could not read audio duration"

  function Sum(xs: seq<real>): real {
    if xs == [] then 0.0 else Sum(xs[..|xs| - 1]) + xs[|xs| - 1]
  }

  predicate AllPositive(ds: seq<real>) {
    forall i :: 0 <= i < |ds| ==> ds[i] > 0.0
  }

  function RealMax(a: real, b: real): real {
    if a >= b then a else b
  }

  /** `total / max(1, n)`. */
  function Share(total: real, n: nat): real {
    total / (if n > 1 then n else 1) as real
  }

  /** `_compute_durations`, with the audio duration `get_audio_info` reports
      (`None` when it is missing). Explicit durations must match the image count
      and be positive; otherwise the audio is shared evenly, the last share taking
      up the remainder (at least 0.01 s). `durations[-1]` on no images raises
      IndexError. */
  function Durations(n: nat, audioDuration: Option<real>, imageDurations: Option<seq<real>>): Result<seq<real>> {
    if imageDurations.Some? then
      if |imageDurations.value| != n then Err(ValueError(LengthMismatch))
      else if !AllPositive(imageDurations.value) then Err(ValueError(NotPositive))
      else Ok(imageDurations.value)
    else if audioDuration.None? || audioDuration.value == 0.0 then Err(ValueError(NoAudioDuration))
    else if n == 0 then Err(IndexError)
    else
      var others := seq(n - 1, _ => Share(audioDuration.value, n));
      Ok(others + [RealMax(0.01, audioDuration.value - Sum(others))])
  }

  /** Explicit durations come back unchanged when there is one per image and all
      are positive, and are refused otherwise, whatever the audio says. */
  lemma ExplicitDurations(n: nat, audioDuration: Option<real>, ds: seq<real>)
    ensures |ds| != n ==> Durations(n, audioDuration, Some(ds)) == Err(ValueError(LengthMismatch))
    ensures |ds| == n && (exists i :: 0 <= i < n && ds[i] <= 0.0) ==>
      Durations(n, audioDuration, Some(ds)) == Err(ValueError(NotPositive))
    ensures Durations(n, audioDuration, Some(ds)).Ok? <==> |ds| == n && forall i :: 0 <= i < n ==> ds[i] > 0.0
    ensures Durations(n, audioDuration, Some(ds)).Ok? ==> Durations(n, audioDuration, Some(ds)).value == ds
  {
  }

  lemma {:induction false} SumConst(k: nat, b: real)
    ensures Sum(seq(k, _ => b)) == k as real * b
  {
    if k > 0 {
      var xs := seq(k, _ => b);
      assert xs[..k - 1] == seq(k - 1, _ => b);
      SumConst(k - 1, b);
    }
  }

  lemma SumSnoc(xs: seq<real>, x: real)
    ensures Sum(xs + [x]) == Sum(xs) + x
  {
    assert (xs + [x])[..|xs|] == xs;
  }

  /** The n-1 equal shares leave exactly one share of the total. */
  lemma ShareRemainder(total: real, n: nat)
    requires n >= 1
    ensures total - (n - 1) as real * Share(total, n) == Share(total, n)
    ensures total > 0.0 ==> Share(total, n) > 0.0
  {
    var b := Share(total, n);
    assert b * n as real == total;
    assert (n - 1) as real * b == n as real * b - b;
  }

  /** Without explicit durations, a known non-zero audio length is split into
      `n` equal shares, the last raised to 0.01 s if needed; the durations then
      add up to the audio length whenever a share is at least 0.01 s, and they are
      all positive when the audio length is. */
  lemma SharedDurations(n: nat, total: real)
    requires n >= 1 && total != 0.0
    ensures Durations(n, Some(total), None).Ok?
    ensures var ds := Durations(n, Some(total), None).value;
      |ds| == n && (forall i :: 0 <= i < n - 1 ==> ds[i] == Share(total, n)) &&
      ds[n - 1] == RealMax(0.01, Share(total, n))
    ensures Share(total, n) >= 0.01 ==> Sum(Durations(n, Some(total), None).value) == total
    ensures total > 0.0 ==> AllPositive(Durations(n, Some(total), None).value)
  {
    var b := Share(total, n);
    var others := seq(n - 1, _ => b);
    SumConst(n - 1, b);
    ShareRemainder(total, n);
    var ds := Durations(n, Some(total), None).value;
    assert ds == others + [RealMax(0.01, total - Sum(others))];
    SumSnoc(others, ds[n - 1]);
    assert ds[..n - 1] == others;
  }

  /** Missing audio information, a zero length and an empty image list are errors. */
  lemma SharedDurationErrors(n: nat, audioDuration: Option<real>)
    ensures audioDuration.None? || audioDuration.value == 0.0 ==>
      Durations(n, audioDuration, None) == Err(ValueError(NoAudioDuration))
    ensures audioDuration.Some? && audioDuration.value != 0.0 && n == 0 ==>
      Durations(n, audioDuration, None) == Err(IndexError)
  {
  }

  // ---------------------------------------------------------------------------
  // _escape_for_filter_path

  /** `p.replace("\\", "\\\\").replace(":", "\\:").replace("'", "\\'")`. */
  function EscapeForFilterPath(p: string): string {
    ReplaceChar(ReplaceChar(ReplaceChar(p, '\\', "\\\\"), ':', "\\:"), '\'', "\\'")
  }

  predicate IsFilterSpecial(c: char) {
    c == '\\' || c == ':' || c == '\''
  }

  /** One character, escaped. */
  function EscapeChar(c: char): string {
    if IsFilterSpecial(c) then ['\\', c] else [c]
  }

  /** The escaping character by character. */
  function EscapeEach(p: string): string {
    if p == [] then [] else EscapeChar(p[0]) + EscapeEach(p[1..])
  }

  /** The reading of ffmpeg's filter arguments: a backslash takes the next
      character literally. */
  function Unescape(t: string): string {
    if t == [] then []
    else if t[0] == '\\' && |t| >= 2 then [t[1]] + Unescape(t[2..])
    else [t[0]] + Unescape(t[1..])
  }

  /** Every special character of `t` is inside a backslash pair. */
  predicate Escaped(t: string) {
    if t == [] then true
    else if t[0] == '\\' then |t| >= 2 && Escaped(t[2..])
    else !IsFilterSpecial(t[0]) && Escaped(t[1..])
  }

  lemma {:induction false} ReplaceCharAppend(a: string, b: string, c: char, r: string)
    ensures ReplaceChar(a + b, c, r) == ReplaceChar(a, c, r) + ReplaceChar(b, c, r)
  {
    if a != [] {
      assert (a + b)[1..] == a[1..] + b;
      ReplaceCharAppend(a[1..], b, c, r);
    } else {
      assert a + b == b;
    }
  }

  lemma EscapeOneChar(c: char)
    ensures EscapeForFilterPath([c]) == EscapeChar(c)
  {
    assert ReplaceChar([c], '\\', "\\\\") == (if c == '\\' then "\\\\" else [c]) by {
      assert [c][1..] == [];
    }
    if c == '\\' {
      assert ReplaceChar("\\\\", ':', "\\:") == "\\\\" by {
        assert "\\\\"[1..] == "\\";
        assert "\\"[1..] == [];
      }
      assert ReplaceChar("\\\\", '\'', "\\'") == "\\\\" by {
        assert "\\\\"[1..] == "\\";
        assert "\\"[1..] == [];
      }
    } else {
      assert ReplaceChar([c], ':', "\\:") == (if c == ':' then "\\:" else [c]) by {
        assert [c][1..] == [];
      }
      if c == ':' {
        assert ReplaceChar("\\:", '\'', "\\'") == "\\:" by {
          assert "\\:"[1..] == ":";
          assert ":"[1..] == [];
        }
      } else {
        assert ReplaceChar([c], '\'', "\\'") == (if c == '\'' then "\\'" else [c]) by {
          assert [c][1..] == [];
        }
      }
    }
  }

  /** The three chained replacements escape each special character once: doubling
      the backslashes first keeps the later replacements from being re-escaped. */
  lemma {:induction false} EscapeIsEach(p: string)
    ensures EscapeForFilterPath(p) == EscapeEach(p)
  {
    if p != [] {
      var c, rest := p[0], p[1..];
      assert p == [c] + rest;
      EscapeIsEach(rest);
      EscapeOneChar(c);
      var e1 := ReplaceChar([c], '\\', "\\\\");
      var r1 := ReplaceChar(rest, '\\', "\\\\");
      ReplaceCharAppend([c], rest, '\\', "\\\\");
      var e2 := ReplaceChar(e1, ':', "\\:");
      var r2 := ReplaceChar(r1, ':', "\\:");
      ReplaceCharAppend(e1, r1, ':', "\\:");
      ReplaceCharAppend(e2, r2, '\'', "\\'");
    }
  }

  lemma {:induction false} EachRoundTrip(p: string)
    ensures Unescape(EscapeEach(p)) == p
    ensures Escaped(EscapeEach(p))
  {
    if p != [] {
      EachRoundTrip(p[1..]);
      var t := EscapeEach(p);
      var rest := EscapeEach(p[1..]);
      if IsFilterSpecial(p[0]) {
        assert t == ['\\', p[0]] + rest;
        assert t[2..] == rest;
      } else {
        assert t == [p[0]] + rest;
        assert t[1..] == rest;
      }
    }
  }

  /** The escaped path has no bare special character, and reading it back the way
      ffmpeg does gives the original path. */
  lemma EscapeRoundTrip(p: string)
    ensures Escaped(EscapeForFilterPath(p))
    ensures Unescape(EscapeForFilterPath(p)) == p
  {
    EscapeIsEach(p);
    EachRoundTrip(p);
  }

  // ---------------------------------------------------------------------------
  // _render_image_segment_video_only

  /** `str()` and `:.6f` of a float, which the filters embed as text. */
  datatype FloatFormat = FloatFormat(repr: real -> string, fixed6: real -> string)

  /** The filter-side bound of every segment: trim to the duration, then restart
      the timestamps, writing `[v]`. */
  function Bound(duration: real, fmt: FloatFormat): string {
    "trim=duration=" + fmt.fixed6(duration) + ",setpts=PTS-STARTPTS[v]"
  }

  /** The scale factor of a pan: the configured one, or 1.3. */
  function PanScale(eff: EffectConfig): real {
    if eff.scaleFactor.Some? then eff.scaleFactor.value else 1.3
  }

  /** The filter graph of one segment, by effect, before its bound. */
  function EffectFilter(w: int, h: int, fps: int, duration: real, eff: EffectConfig, fmt: FloatFormat): string {
    if EffectType(eff) == "ken_burns" then
      "[0]scale=" + IntToString(w) + ":-2,setsar=1:1," +
      "crop=" + IntToString(w) + ":" + IntToString(h) + "," +
      "zoompan=" + ZoomExpr(Get(eff.direction, "zoom-to-top-left"), ZoomFactor(eff)) +
      ":d=" + IntToString(SegmentFrames(duration, fps)) +
      ":s=" + IntToString(w) + "x" + IntToString(h) + ":fps=" + IntToString(fps) + ","
    else if EffectType(eff) == "pan" then
      var sw := Scaled(w, PanScale(eff));
      var sh := Scaled(h, PanScale(eff));
      var o := PanOffsets(Get(eff.direction, "left-to-right"), w, h, sw, sh);
      var speed := SpeedMult(Get(eff.speed, "normal"));
      "[0]scale=" + IntToString(sw) + ":" + IntToString(sh) + ",setsar=1:1," +
      "crop=" + IntToString(w) + ":" + IntToString(h) + ":" +
      PanExpr(o.startX, o.endX, fmt.repr(duration), speed) + ":" +
      PanExpr(o.startY, o.endY, fmt.repr(duration), speed) + "," +
      "fps=" + IntToString(fps) + ","
    else
      "[0]scale=" + IntToString(w) + ":" + IntToString(h) + ",setsar=1:1," +
      "fps=" + IntToString(fps) + ","
  }

  /** The whole filter graph of one segment. */
  function SegmentFilter(w: int, h: int, fps: int, duration: real, eff: EffectConfig, fmt: FloatFormat): string {
    EffectFilter(w, h, fps, duration, eff, fmt) + Bound(duration, fmt)
  }

  /** Whatever the effect, the segment's filter ends with the trim to its duration,
      so the looped image cannot run past it. */
  lemma SegmentFilterBounded(w: int, h: int, fps: int, duration: real, eff: EffectConfig, fmt: FloatFormat)
    ensures var f := SegmentFilter(w, h, fps, duration, eff, fmt);
      var b := Bound(duration, fmt);
      |b| <= |f| && f[|f| - |b|..] == b
  {
    var e := EffectFilter(w, h, fps, duration, eff, fmt);
    var b := Bound(duration, fmt);
    assert (e + b)[|e|..] == b;
  }

  /** The H.264 encoding every re-encoding step uses. */
  const X264: seq<string> := ["-c:v", "libx264", "-preset", "ultrafast", "-crf", "23", "-pix_fmt", "yuv420p"]

  /** The AAC audio encoding of the final mux. */
  const Aac: seq<string> := ["-c:a", "aac", "-b:a", "192k"]

  /** The ffmpeg command of one segment: the image looped with no input-side
      length, the filter graph, video only. */
  function SegmentCommand(ffmpegPath: string, image: string, filter: string, out: string): seq<string> {
    [ffmpegPath, "-y", "-loop", "1", "-i", image, "-filter_complex", filter, "-map", "[v]"] + X264 + ["-an", out]
  }

  // ---------------------------------------------------------------------------
  // _concat_videos

  /** The two attempts of `_concat_videos`: stream copy, then re-encoding. */
  function ConcatCopy(ffmpegPath: string, listFile: string, out: string): seq<string> {
    [ffmpegPath, "-y", "-f", "concat", "-safe", "0", "-i", listFile, "-c", "copy", out]
  }

  function ConcatReencode(ffmpegPath: string, listFile: string, out: string): seq<string> {
    [ffmpegPath, "-y", "-f", "concat", "-safe", "0", "-i", listFile] + X264 + [out]
  }

  /** The commands `_concat_videos` runs and whether it succeeded: the re-encode
      runs only after the stream copy fails. */
  function ConcatSegments(ffmpegPath: string, listFile: string, out: string, run: seq<string> -> bool): (bool, seq<seq<string>>) {
    var copy := ConcatCopy(ffmpegPath, listFile, out);
    if run(copy) then (true, [copy])
    else
      var reencode := ConcatReencode(ffmpegPath, listFile, out);
      (run(reencode), [copy, reencode])
  }

  /** The stream copy always runs first; the re-encode runs exactly when it fails,
      and the join succeeds when either attempt does. */
  lemma ConcatSpec(ffmpegPath: string, listFile: string, out: string, run: seq<string> -> bool)
    ensures var (ok, issued) := ConcatSegments(ffmpegPath, listFile, out, run);
      var copy := ConcatCopy(ffmpegPath, listFile, out);
      var reencode := ConcatReencode(ffmpegPath, listFile, out);
      1 <= |issued| <= 2 && issued[0] == copy &&
      (|issued| == 2 <==> !run(copy)) && (|issued| == 2 ==> issued[1] == reencode) &&
      (ok <==> run(copy) || run(reencode))
  {
  }

  // ---------------------------------------------------------------------------
  // _mux_audio_and_optional_captions

  /** The final step: an ffmpeg run, or a plain file copy. */
  datatype MuxStep = Run(cmd: seq<string>) | CopyFile

  /** The start of every mux command: overwrite, reading the joined video. */
  function MuxInput(ffmpegPath: string, video: string): seq<string> {
    [ffmpegPath, "-y", "-i", video]
  }

  /** The subtitles filter with the caption path escaped. */
  function BurnFilter(captions: string): string {
    "[0:v]subtitles=filename='" + EscapeForFilterPath(captions) + "'[v]"
  }

  /** The dispatch of `_mux_audio_and_optional_captions` on which of audio and
      captions are set (the empty string stands for `None`). Caption paths are
      taken as already absolute, with forward slashes. */
  function MuxStepFor(ffmpegPath: string, video: string, audio: string, captions: string, out: string): MuxStep {
    if audio != [] && captions != [] then
      Run(MuxInput(ffmpegPath, video) +
          ["-i", audio, "-filter_complex", BurnFilter(captions), "-map", "[v]", "-map", "1:a"] +
          X264 + Aac + ["-shortest", out])
    else if audio != [] then
      Run(MuxInput(ffmpegPath, video) +
          ["-i", audio, "-map", "0:v", "-map", "1:a", "-c:v", "copy"] + Aac + ["-shortest", out])
    else if captions != [] then
      Run(MuxInput(ffmpegPath, video) + ["-vf", "subtitles='" + captions + "'"] + X264 + [out])
    else CopyFile
  }

  /** Four cases: only without audio and captions is the video copied as a file;
      otherwise ffmpeg reads the joined video first and writes the output last,
      with audio, when set, as the second input. */
  lemma MuxDispatch(ffmpegPath: string, video: string, audio: string, captions: string, out: string)
    ensures MuxStepFor(ffmpegPath, video, audio, captions, out).CopyFile? <==> audio == [] && captions == []
    ensures var m := MuxStepFor(ffmpegPath, video, audio, captions, out);
      m.Run? ==> |m.cmd| >= 8 && m.cmd[..4] == MuxInput(ffmpegPath, video) && m.cmd[|m.cmd| - 1] == out
    ensures var m := MuxStepFor(ffmpegPath, video, audio, captions, out);
      audio != [] ==> m.Run? && m.cmd[4] == "-i" && m.cmd[5] == audio
  {
    var m := MuxStepFor(ffmpegPath, video, audio, captions, out);
    var head := MuxInput(ffmpegPath, video);
    if m.Run? {
      var rest := m.cmd[4..];
      assert m.cmd == head + rest;
      assert (head + rest)[..4] == head;
    }
  }

  /** With audio and captions, the captions are burnt in through a filter whose
      escaped file name reads back as the caption path, the audio is mapped from
      the second input, and the video is re-encoded and the audio encoded as AAC. */
  lemma MuxBoth(ffmpegPath: string, video: string, audio: string, captions: string, out: string)
    requires audio != [] && captions != []
    ensures var m := MuxStepFor(ffmpegPath, video, audio, captions, out);
      m.cmd[6] == "-filter_complex" && m.cmd[7] == BurnFilter(captions) &&
      Unescape(EscapeForFilterPath(captions)) == captions &&
      m.cmd[8..12] == ["-map", "[v]", "-map", "1:a"] && m.cmd[12..20] == X264 && m.cmd[20..24] == Aac
  {
    EscapeRoundTrip(captions);
    var front := MuxInput(ffmpegPath, video) +
      ["-i", audio, "-filter_complex", BurnFilter(captions), "-map", "[v]", "-map", "1:a"];
    var cmd := front + X264 + Aac + ["-shortest", out];
    assert |front| == 12;
    assert cmd[8..12] == front[8..12] == ["-map", "[v]", "-map", "1:a"];
    assert cmd[12..20] == X264;
    assert cmd[20..24] == Aac;
  }

  /** Audio alone maps the video of the first input and the audio of the second,
      copying the video stream as it is and encoding the audio as AAC. */
  lemma MuxAudioOnly(ffmpegPath: string, video: string, audio: string, out: string)
    requires audio != []
    ensures var m := MuxStepFor(ffmpegPath, video, audio, [], out);
      m.cmd[6..12] == ["-map", "0:v", "-map", "1:a", "-c:v", "copy"] && m.cmd[12..16] == Aac
  {
  }

  /** Captions alone are burnt in with a simple video filter, re-encoding the video,
      and the joined video is the only input. */
  lemma MuxCaptionsOnly(ffmpegPath: string, video: string, captions: string, out: string)
    requires captions != []
    ensures var m := MuxStepFor(ffmpegPath, video, [], captions, out);
      m.cmd[4] == "-vf" && m.cmd[5] == "subtitles='" + captions + "'" && m.cmd[6..14] == X264 && |m.cmd| == 15
  {
  }

  // ---------------------------------------------------------------------------
  // build

  /** `os.path.join(a, b)` for a relative `b`. */
  function PathJoin(a: string, b: string): string {
    if a == [] then b else if a[|a| - 1] == '/' then a + b else a + "/" + b
  }

  /** `_make_workdir`: the given directory, or a timestamped one under output/tmp. */
  function WorkDir(tempDir: string, stamp: string): string {
    if tempDir != [] then tempDir else PathJoin("output/tmp", "slideshow_" + stamp)
  }

  /** `seg_{idx:03d}.mp4` in the working directory. */
  function SegmentPath(workdir: string, idx: nat): string {
    PathJoin(workdir, "seg_" + FormatInt(idx, 3) + ".mp4")
  }

  lemma PathJoinInjective(a: string, b: string, c: string)
    requires PathJoin(a, b) == PathJoin(a, c)
    ensures b == c
  {
    var pb := PathJoin(a, b);
    var k := |pb| - |b|;
    assert pb[k..] == b;
    assert PathJoin(a, c)[k..] == c;
  }

  /** The files of the first `k` segments, in order. */
  function SegmentPaths(workdir: string, k: nat): (paths: seq<string>)
    ensures |paths| == k
  {
    if k == 0 then [] else SegmentPaths(workdir, k - 1) + [SegmentPath(workdir, k - 1)]
  }

  /** Different segments get different files, so no segment overwrites another. */
  lemma SegmentPathsDistinct(workdir: string, i: nat, j: nat)
    requires i != j
    ensures SegmentPath(workdir, i) != SegmentPath(workdir, j)
  {
    if SegmentPath(workdir, i) == SegmentPath(workdir, j) {
      var a := "seg_" + FormatInt(i, 3) + ".mp4";
      var b := "seg_" + FormatInt(j, 3) + ".mp4";
      PathJoinInjective(workdir, a, b);
      assert a[4..|a| - 4] == FormatInt(i, 3);
      assert b[4..|b| - 4] == FormatInt(j, 3);
      ZeroPadValue(i, 3);
      ZeroPadValue(j, 3);
      assert false;
    }
  }

  /** The dimensions, ffmpeg binary and frame rate of a builder. */
  datatype Frame = Frame(width: int, height: int, ffmpegPath: string, fps: int)

  /** What `build` renders: the images, their durations and effects, and the
      working directory. */
  datatype Plan = Plan(images: seq<string>, durations: seq<real>, effects: seq<Option<EffectConfig>>, workdir: string)

  function Min(a: nat, b: nat): nat {
    if a <= b then a else b
  }

  /** `zip(images, durations, effects)` stops at the shortest of the three. */
  function SegmentCount(plan: Plan): nat {
    Min(|plan.images|, Min(|plan.durations|, |plan.effects|))
  }

  /** The command that renders segment `i`; a missing effect is Ken Burns. */
  function PlanCommand(f: Frame, plan: Plan, fmt: FloatFormat, i: nat): seq<string>
    requires i < SegmentCount(plan)
  {
    SegmentCommand(f.ffmpegPath, plan.images[i],
      SegmentFilter(f.width, f.height, f.fps, plan.durations[i], OrDefault(plan.effects[i]), fmt),
      SegmentPath(plan.workdir, i))
  }

  function PlanCommands(f: Frame, plan: Plan, fmt: FloatFormat): (cmds: seq<seq<string>>)
    ensures |cmds| == SegmentCount(plan)
  {
    seq(SegmentCount(plan), i requires 0 <= i < SegmentCount(plan) => PlanCommand(f, plan, fmt, i))
  }

  /** Running the first `k` commands in order, stopping at the first failure:
      whether all succeeded, and the commands issued. */
  function RunAll(cmds: seq<seq<string>>, run: seq<string> -> bool, k: nat): (bool, seq<seq<string>>)
    requires k <= |cmds|
  {
    if k == 0 then (true, [])
    else
      var prev := RunAll(cmds, run, k - 1);
      if !prev.0 then prev else (run(cmds[k - 1]), prev.1 + [cmds[k - 1]])
  }

  lemma RunAllStep(cmds: seq<seq<string>>, run: seq<string> -> bool, k: nat, issued: seq<seq<string>>)
    requires k < |cmds| && RunAll(cmds, run, k) == (true, issued)
    ensures RunAll(cmds, run, k + 1) == (run(cmds[k]), issued + [cmds[k]])
  {
  }

  /** Once a command fails, nothing more is run. */
  lemma {:induction false} RunAllStops(cmds: seq<seq<string>>, run: seq<string> -> bool, k: nat, m: nat)
    requires k <= m <= |cmds| && !RunAll(cmds, run, k).0
    ensures RunAll(cmds, run, m) == RunAll(cmds, run, k)
    decreases m - k
  {
    if k < m {
      RunAllStops(cmds, run, k, m - 1);
    }
  }

  lemma PlanCommandAt(f: Frame, plan: Plan, fmt: FloatFormat, i: nat)
    requires i < SegmentCount(plan)
    ensures PlanCommands(f, plan, fmt)[i] == PlanCommand(f, plan, fmt, i)
  {
  }

  /** The run issues the commands in order, each only after the previous ones
      succeeded; it succeeds exactly when all `k` succeed, having issued them all;
      a failure is the last command issued. */
  lemma {:induction false} RunAllSpec(cmds: seq<seq<string>>, run: seq<string> -> bool, k: nat)
    requires k <= |cmds|
    ensures var (ok, issued) := RunAll(cmds, run, k);
      |issued| <= k && issued == cmds[..|issued|] &&
      (forall i :: 0 <= i < |issued| - 1 ==> run(cmds[i])) &&
      (ok <==> forall i :: 0 <= i < k ==> run(cmds[i])) &&
      (ok ==> |issued| == k) &&
      (!ok ==> |issued| >= 1 && !run(cmds[|issued| - 1]))
  {
    if k > 0 {
      RunAllSpec(cmds, run, k - 1);
      var (ok, issued) := RunAll(cmds, run, k - 1);
      if ok {
        assert cmds[..k] == cmds[..k - 1] + [cmds[k - 1]];
      }
    }
  }

  /** The durations, effects and working directory `build` renders with, or why it
      stops before rendering: `Ok(None)` when it returns False, `Err` when
      `_compute_durations` raises. */
  function BuildPlan(images: seq<string>, audioFile: string, imageDurations: Option<seq<real>>,
                     effectConfig: Option<EffectConfig>, effectConfigs: Option<seq<Option<EffectConfig>>>,
                     workdir: string, audioDuration: Option<real>): Result<Option<Plan>>
  {
    if images == [] then Ok(None)
    else if imageDurations.None? && audioFile == [] then Ok(None)
    else
      var durations := if audioFile != [] then Durations(|images|, audioDuration, imageDurations)
                       else Ok(imageDurations.value);
      if durations.Err? then Err(durations.error)
      else if effectConfigs.Some? && |effectConfigs.value| != |images| then Ok(None)
      else
        var effects := if effectConfigs.Some? then effectConfigs.value else seq(|images|, _ => effectConfig);
        Ok(Some(Plan(images, durations.value, effects, workdir)))
  }

  /** The outside world of `build`: the audio duration `get_audio_info` reports,
      the timestamp of a new working directory, whether each ffmpeg command
      succeeds, and float formatting. */
  datatype Env = Env(audioDuration: Option<real>, stamp: string, run: seq<string> -> bool, fmt: FloatFormat)

  /** Rendering, joining and muxing a plan: the result of `build` and the ffmpeg
      commands issued. */
  function Execute(f: Frame, plan: Plan, captionsFile: string, audioFile: string, outputFile: string, env: Env): (bool, seq<seq<string>>) {
    var cmds := PlanCommands(f, plan, env.fmt);
    var rendered := RunAll(cmds, env.run, |cmds|);
    if !rendered.0 then rendered
    else
      var merged := PathJoin(plan.workdir, "merged_vonly.mp4");
      var joined := ConcatSegments(f.ffmpegPath, PathJoin(plan.workdir, "concat_list.txt"), merged, env.run);
      if !joined.0 then (false, rendered.1 + joined.1)
      else
        var m := MuxStepFor(f.ffmpegPath, merged, audioFile, captionsFile, outputFile);
        if m.CopyFile? then (true, rendered.1 + joined.1)
        else (env.run(m.cmd), rendered.1 + joined.1 + [m.cmd])
  }

  /** `build`: the outcome (`Err` when an exception escapes) and the commands. */
  function BuildOutcome(f: Frame, images: seq<string>, audioFile: string, captionsFile: string, outputFile: string,
                        imageDurations: Option<seq<real>>, effectConfig: Option<EffectConfig>,
                        effectConfigs: Option<seq<Option<EffectConfig>>>, tempDir: string, env: Env): (Result<bool>, seq<seq<string>>)
  {
    var plan := BuildPlan(images, audioFile, imageDurations, effectConfig, effectConfigs, WorkDir(tempDir, env.stamp), env.audioDuration);
    if plan.Err? then (Err(plan.error), [])
    else if plan.value.None? then (Ok(false), [])
    else
      var r := Execute(f, plan.value.value, captionsFile, audioFile, outputFile, env);
      (Ok(r.0), r.1)
  }

  /** `build` returns False before doing anything for no images, for neither
      durations nor audio, and for a wrong number of effect configurations; with
      audio, the duration errors escape as exceptions. */
  lemma BuildRejects(images: seq<string>, audioFile: string, imageDurations: Option<seq<real>>,
                     effectConfig: Option<EffectConfig>, effectConfigs: Option<seq<Option<EffectConfig>>>,
                     workdir: string, audioDuration: Option<real>)
    ensures images == [] ==> BuildPlan(images, audioFile, imageDurations, effectConfig, effectConfigs, workdir, audioDuration) == Ok(None)
    ensures imageDurations.None? && audioFile == [] ==>
      BuildPlan(images, audioFile, imageDurations, effectConfig, effectConfigs, workdir, audioDuration) == Ok(None)
    ensures images != [] && audioFile != [] && Durations(|images|, audioDuration, imageDurations).Err? ==>
      BuildPlan(images, audioFile, imageDurations, effectConfig, effectConfigs, workdir, audioDuration) ==
      Err(Durations(|images|, audioDuration, imageDurations).error)
    ensures (images != [] && audioFile != [] && Durations(|images|, audioDuration, imageDurations).Ok? &&
             effectConfigs.Some? && |effectConfigs.value| != |images|) ==>
      BuildPlan(images, audioFile, imageDurations, effectConfig, effectConfigs, workdir, audioDuration) == Ok(None)
  {
  }

  /** A plan has one effect per image: the given list, or the single configuration
      repeated. With audio, there is one positive duration per image whenever
      durations are given, and the durations are the even split otherwise; without
      audio the given durations are used as they are, unchecked, so a shorter list
      renders fewer segments. */
  lemma BuildPlanSpec(images: seq<string>, audioFile: string, imageDurations: Option<seq<real>>,
                      effectConfig: Option<EffectConfig>, effectConfigs: Option<seq<Option<EffectConfig>>>,
                      workdir: string, audioDuration: Option<real>)
    requires BuildPlan(images, audioFile, imageDurations, effectConfig, effectConfigs, workdir, audioDuration).Ok?
    requires BuildPlan(images, audioFile, imageDurations, effectConfig, effectConfigs, workdir, audioDuration).value.Some?
    ensures var plan := BuildPlan(images, audioFile, imageDurations, effectConfig, effectConfigs, workdir, audioDuration).value.value;
      plan.images == images && plan.workdir == workdir && |plan.effects| == |images| &&
      (effectConfigs.None? ==> forall i :: 0 <= i < |images| ==> plan.effects[i] == effectConfig) &&
      (effectConfigs.Some? ==> plan.effects == effectConfigs.value)
    ensures var plan := BuildPlan(images, audioFile, imageDurations, effectConfig, effectConfigs, workdir, audioDuration).value.value;
      audioFile != [] ==> (
        |plan.durations| == |images| && SegmentCount(plan) == |images| &&
        (imageDurations.Some? ==> plan.durations == imageDurations.value && AllPositive(plan.durations)) &&
        (imageDurations.None? ==> plan.durations == Durations(|images|, audioDuration, None).value))
    ensures var plan := BuildPlan(images, audioFile, imageDurations, effectConfig, effectConfigs, workdir, audioDuration).value.value;
      audioFile == [] ==> (
        imageDurations.Some? && plan.durations == imageDurations.value &&
        SegmentCount(plan) == Min(|images|, |imageDurations.value|))
  {
  }

  /** When `build` succeeds, it rendered every planned segment in order (each image
      to its own `seg_NNN.mp4`, all of them succeeding), then joined them
      successfully, starting with the stream copy, then muxed: the commands issued
      are exactly the segment commands, the join's attempts and, unless the final
      step is the plain file copy (neither audio nor captions), the mux command,
      which succeeded. */
  lemma BuildSucceeded(f: Frame, images: seq<string>, audioFile: string, captionsFile: string, outputFile: string,
                       imageDurations: Option<seq<real>>, effectConfig: Option<EffectConfig>,
                       effectConfigs: Option<seq<Option<EffectConfig>>>, tempDir: string, env: Env)
    requires BuildOutcome(f, images, audioFile, captionsFile, outputFile, imageDurations, effectConfig, effectConfigs, tempDir, env).0 == Ok(true)
    ensures var plan := BuildPlan(images, audioFile, imageDurations, effectConfig, effectConfigs, WorkDir(tempDir, env.stamp), env.audioDuration);
      plan.Ok? && plan.value.Some? &&
      var cmds := PlanCommands(f, plan.value.value, env.fmt);
      var issued := BuildOutcome(f, images, audioFile, captionsFile, outputFile, imageDurations, effectConfig, effectConfigs, tempDir, env).1;
      |cmds| < |issued| && issued[..|cmds|] == cmds &&
      (forall i :: 0 <= i < |cmds| ==> env.run(cmds[i])) &&
      issued[|cmds|] == ConcatCopy(f.ffmpegPath, PathJoin(plan.value.value.workdir, "concat_list.txt"),
                                   PathJoin(plan.value.value.workdir, "merged_vonly.mp4"))
    ensures var plan := BuildPlan(images, audioFile, imageDurations, effectConfig, effectConfigs, WorkDir(tempDir, env.stamp), env.audioDuration);
      plan.Ok? && plan.value.Some? &&
      var cmds := PlanCommands(f, plan.value.value, env.fmt);
      var merged := PathJoin(plan.value.value.workdir, "merged_vonly.mp4");
      var joined := ConcatSegments(f.ffmpegPath, PathJoin(plan.value.value.workdir, "concat_list.txt"), merged, env.run);
      var m := MuxStepFor(f.ffmpegPath, merged, audioFile, captionsFile, outputFile);
      var issued := BuildOutcome(f, images, audioFile, captionsFile, outputFile, imageDurations, effectConfig, effectConfigs, tempDir, env).1;
      joined.0 &&
      issued == cmds + joined.1 + (if m.Run? then [m.cmd] else []) &&
      (m.Run? ==> env.run(m.cmd)) &&
      (m.CopyFile? <==> audioFile == [] && captionsFile == [])
  {
    var plan := BuildPlan(images, audioFile, imageDurations, effectConfig, effectConfigs, WorkDir(tempDir, env.stamp), env.audioDuration).value.value;
    ExecuteSucceeded(f, plan, captionsFile, audioFile, outputFile, env);
  }

  /** A successful execution of a plan issued the segment commands, all succeeding,
      then the join's attempts, which succeeded, then the mux command unless the
      final step is the file copy. */
  lemma ExecuteSucceeded(f: Frame, plan: Plan, captionsFile: string, audioFile: string, outputFile: string, env: Env)
    requires Execute(f, plan, captionsFile, audioFile, outputFile, env).0
    ensures var cmds := PlanCommands(f, plan, env.fmt);
      var merged := PathJoin(plan.workdir, "merged_vonly.mp4");
      var joined := ConcatSegments(f.ffmpegPath, PathJoin(plan.workdir, "concat_list.txt"), merged, env.run);
      var m := MuxStepFor(f.ffmpegPath, merged, audioFile, captionsFile, outputFile);
      var issued := Execute(f, plan, captionsFile, audioFile, outputFile, env).1;
      (forall i :: 0 <= i < |cmds| ==> env.run(cmds[i])) &&
      joined.0 && joined.1 != [] && joined.1[0] == ConcatCopy(f.ffmpegPath, PathJoin(plan.workdir, "concat_list.txt"), merged) &&
      issued == cmds + joined.1 + (if m.Run? then [m.cmd] else []) &&
      (m.Run? ==> env.run(m.cmd)) &&
      (m.CopyFile? <==> audioFile == [] && captionsFile == [])
  {
    var cmds := PlanCommands(f, plan, env.fmt);
    RunAllSpec(cmds, env.run, |cmds|);
    var rendered := RunAll(cmds, env.run, |cmds|);
    assert rendered.1 == cmds;
    var merged := PathJoin(plan.workdir, "merged_vonly.mp4");
    ConcatSpec(f.ffmpegPath, PathJoin(plan.workdir, "concat_list.txt"), merged, env.run);
    MuxDispatch(f.ffmpegPath, merged, audioFile, captionsFile, outputFile);
  }

  // ---------------------------------------------------------------------------
  // The builder object

  class MultiImageVideoBuilder {
    var width: int
    var height: int
    var ffmpegPath: string
    var fps: int
    /** The working directory; empty until `build` prepares one, unless given. */
    var workdir: string

    constructor(width: int, height: int, ffmpegPath: string, fps: int, workdir: string)
      ensures this.width == width && this.height == height && this.ffmpegPath == ffmpegPath
      ensures this.fps == fps && this.workdir == workdir
    {
      this.width := width;
      this.height := height;
      this.ffmpegPath := ffmpegPath;
      this.fps := fps;
      this.workdir := workdir;
    }

    function Dims(): Frame
      reads this
    {
      Frame(width, height, ffmpegPath, fps)
    }

    /** `_compute_durations`. */
    method ComputeDurations(n: nat, audioDuration: Option<real>, imageDurations: Option<seq<real>>) returns (r: Result<seq<real>>)
      ensures r == Durations(n, audioDuration, imageDurations)
    {
      if imageDurations.Some? {
        var ds := imageDurations.value;
        if |ds| != n {
          return Err(ValueError(LengthMismatch));
        }
        for i := 0 to |ds|
          invariant AllPositive(ds[..i])
        {
          if ds[i] <= 0.0 {
            return Err(ValueError(NotPositive));
          }
          assert ds[..i + 1] == ds[..i] + [ds[i]];
        }
        assert ds[..|ds|] == ds;
        return Ok(ds);
      }
      if audioDuration.None? || audioDuration.value == 0.0 {
        return Err(ValueError(NoAudioDuration));
      }
      var total := audioDuration.value;
      var base := Share(total, n);
      var durations := seq(n, _ => base);
      if n == 0 {
        return Err(IndexError);
      }
      ghost var others := durations[..n - 1];
      assert others == seq(n - 1, _ => base);
      var last := RealMax(0.01, total - Sum(durations[..n - 1]));
      durations := durations[n - 1 := last];
      assert durations == others + [last];
      r := Ok(durations);
    }

    /** The rendering loop of `build`: one segment per zipped image, duration and
      effect, stopping at the first failure. */
    method RenderSegments(plan: Plan, env: Env) returns (ok: bool, issued: seq<seq<string>>, segmentPaths: seq<string>)
      ensures (ok, issued) == RunAll(PlanCommands(Dims(), plan, env.fmt), env.run, SegmentCount(plan))
      ensures ok ==> segmentPaths == SegmentPaths(plan.workdir, SegmentCount(plan))
    {
      ghost var cmds := PlanCommands(Dims(), plan, env.fmt);
      var n := SegmentCount(plan);
      segmentPaths := [];
      issued := [];
      var idx := 0;
      while idx < n
        invariant 0 <= idx <= n
        invariant RunAll(cmds, env.run, idx) == (true, issued)
        invariant segmentPaths == SegmentPaths(plan.workdir, idx)
      {
        var segVideo := SegmentPath(plan.workdir, idx);
        var eff := OrDefault(plan.effects[idx]);
        var cmd := SegmentCommand(ffmpegPath, plan.images[idx],
          SegmentFilter(width, height, fps, plan.durations[idx], eff, env.fmt), segVideo);
        PlanCommandAt(Dims(), plan, env.fmt, idx);
        RunAllStep(cmds, env.run, idx, issued);
        issued := issued + [cmd];
        if !env.run(cmd) {
          RunAllStops(cmds, env.run, idx + 1, n);
          return false, issued, segmentPaths;
        }
        segmentPaths := segmentPaths + [segVideo];
        idx := idx + 1;
      }
      ok := true;
    }

    /** `build`: prepares the working directory, plans, renders, joins and muxes,
        returning the outcome and the ffmpeg commands issued. */
    method Build(images: seq<string>, audioFile: string, captionsFile: string, outputFile: string,
                 imageDurations: Option<seq<real>>, effectConfig: Option<EffectConfig>,
                 effectConfigs: Option<seq<Option<EffectConfig>>>, tempDir: string, env: Env)
      returns (r: Result<bool>, issued: seq<seq<string>>)
      modifies this
      ensures (r, issued) == BuildOutcome(old(Dims()), images, audioFile, captionsFile, outputFile,
                                          imageDurations, effectConfig, effectConfigs, tempDir, env)
      ensures Dims() == old(Dims())
      ensures workdir == if images == [] || (imageDurations.None? && audioFile == []) then old(workdir)
                         else WorkDir(tempDir, env.stamp)
    {
      issued := [];
      if images == [] {
        return Ok(false), issued;
      }
      if imageDurations.None? && audioFile == [] {
        return Ok(false), issued;
      }
      workdir := WorkDir(tempDir, env.stamp);
      var durations: seq<real>;
      if audioFile != [] {
        var d := ComputeDurations(|images|, env.audioDuration, imageDurations);
        if d.Err? {
          return Err(d.error), issued;
        }
        durations := d.value;
      } else {
        durations := imageDurations.value;
      }
      var effects: seq<Option<EffectConfig>>;
      if effectConfigs.Some? {
        if |effectConfigs.value| != |images| {
          return Ok(false), issued;
        }
        effects := effectConfigs.value;
      } else {
        effects := seq(|images|, _ => effectConfig);
      }
      var plan := Plan(images, durations, effects, workdir);
      assert BuildPlan(images, audioFile, imageDurations, effectConfig, effectConfigs, workdir, env.audioDuration) == Ok(Some(plan));
      var ok;
      var segmentPaths;
      ok, issued, segmentPaths := RenderSegments(plan, env);
      if !ok {
        return Ok(false), issued;
      }
      var merged := PathJoin(workdir, "merged_vonly.mp4");
      var joined := ConcatSegments(ffmpegPath, PathJoin(workdir, "concat_list.txt"), merged, env.run);
      issued := issued + joined.1;
      if !joined.0 {
        return Ok(false), issued;
      }
      var m := MuxStepFor(ffmpegPath, merged, audioFile, captionsFile, outputFile);
      if m.CopyFile? {
        return Ok(true), issued;
      }
      issued := issued + [m.cmd];
      r := Ok(env.run(m.cmd));
    }
  }
}
