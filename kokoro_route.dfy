/** The Kokoro HTTP routes: request checks, engine choice and output paths of
    `POST /tts/kokoro/synthesize`, and the access check of `GET /tts/kokoro/file`. */
module KokoroRoute {
  import opened Results
  import opened Text
  import opened Timeline
  import opened Kokoro
  import opened KokoroCaptions

  // ---------------------------------------------------------------------------
  // The name, stem and suffix of one path component

  /** The index of the last '.' in `name[..j]`, if any (`str.rfind`). */
  function LastDot(name: string, j: nat): (i: Option<nat>)
    requires j <= |name|
    ensures i.Some? ==> i.value < j && name[i.value] == '.'
    ensures i.Some? ==> forall k :: i.value < k < j ==> name[k] != '.'
    ensures i.None? ==> forall k :: 0 <= k < j ==> name[k] != '.'
  {
    if j == 0 then None
    else if name[j - 1] == '.' then Some(j - 1)
    else LastDot(name, j - 1)
  }

  /** `PurePath.suffix`: from the last '.', unless that dot starts or ends the name. */
  function Suffix(name: string): string {
    var i := LastDot(name, |name|);
    if i.Some? && 0 < i.value < |name| - 1 then name[i.value..] else []
  }

  /** `PurePath.stem`: the name without its suffix. */
  function Stem(name: string): (stem: string)
    ensures name != [] ==> stem != []
    ensures stem + Suffix(name) == name
  {
    var i := LastDot(name, |name|);
    if i.Some? && 0 < i.value < |name| - 1 then name[..i.value] else name
  }

  /** The suffixes `with_suffix` accepts: empty, or a dot followed by something,
      with no path separator. */
  predicate ValidSuffix(suffix: string) {
    '/' !in suffix && (suffix == [] || (suffix[0] == '.' && suffix != "."))
  }

  // The messages of the ValueErrors `with_suffix` raises.
  const InvalidSuffix: string := "Invalid suffix '"
  const EmptyName: string := "has an empty name"

  /** `PurePath.with_suffix` on a path whose last component is `name`. */
  function WithSuffix(name: string, suffix: string): (r: Result<string>)
    ensures r.Ok? <==> ValidSuffix(suffix) && name != []
  {
    if !ValidSuffix(suffix) then Err(ValueError(InvalidSuffix + suffix + "'"))
    else if name == [] then Err(ValueError(EmptyName))
    else Ok(Stem(name) + suffix)
  }

  /** A suffix such as ".wav": a dot and at least one more character, none of them
      a dot or a separator. */
  predicate PlainSuffix(suffix: string) {
    |suffix| >= 2 && suffix[0] == '.' && '.' !in suffix[1..] && '/' !in suffix
  }

  /** Replacing the suffix with a plain one gives a name whose suffix is exactly that
      one and whose stem is the old stem, so replacing it again keeps the stem. */
  lemma WithSuffixSpec(name: string, suffix: string, other: string)
    requires name != [] && PlainSuffix(suffix) && PlainSuffix(other)
    ensures WithSuffix(name, suffix) == Ok(Stem(name) + suffix)
    ensures Suffix(Stem(name) + suffix) == suffix && Stem(Stem(name) + suffix) == Stem(name)
    ensures WithSuffix(Stem(name) + suffix, other) == Ok(Stem(name) + other)
  {
    var stem := Stem(name);
    var n := stem + suffix;
    assert n[|stem|] == '.';
    forall k | |stem| < k < |n|
      ensures n[k] != '.'
    {
      assert n[k] == suffix[1..][k - |stem| - 1];
    }
    var i := LastDot(n, |n|);
    assert i == Some(|stem|);
    assert n[|stem|..] == suffix;
    assert n[..|stem|] == stem;
  }

  /** The three suffixes the route writes. */
  lemma PlainSuffixes()
    ensures PlainSuffix(".wav") && PlainSuffix(".json") && PlainSuffix(".vtt")
  {
    assert ".wav"[1..] == "wav" && ".json"[1..] == "json" && ".vtt"[1..] == "vtt";
  }

  // ---------------------------------------------------------------------------
  // Paths as PurePosixPath sees them

  /** The first '/' at or after `i`, or the end of `s`. */
  function SepAt(s: string, i: nat): (j: nat)
    requires i <= |s|
    ensures i <= j <= |s| && (j < |s| ==> s[j] == '/')
    ensures forall k :: i <= k < j ==> s[k] != '/'
    decreases |s| - i
  {
    if i == |s| || s[i] == '/' then i else SepAt(s, i + 1)
  }

  /** The components of `s[i..]`: the pieces between separators, with the empty
      pieces and "." left out, as `PurePosixPath` parses them. */
  function PartsFrom(s: string, i: nat): (ps: seq<string>)
    requires i <= |s|
    decreases |s| - i
  {
    if i == |s| then []
    else
      var j := SepAt(s, i);
      var rest := if j < |s| then PartsFrom(s, j + 1) else [];
      if j == i || (j == i + 1 && s[i] == '.') then rest else [s[i..j]] + rest
  }

  /** A component of a parsed path: not empty, not ".", and free of separators. */
  predicate IsPart(p: string) {
    p != [] && !(|p| == 1 && p[0] == '.') && forall j :: 0 <= j < |p| ==> p[j] != '/'
  }

  function Parts(s: string): seq<string> {
    PartsFrom(s, 0)
  }

  /** Every piece parsing keeps is a proper component. */
  lemma {:induction false} PartsAreParts(s: string, i: nat)
    requires i <= |s|
    ensures forall k :: 0 <= k < |PartsFrom(s, i)| ==> IsPart(PartsFrom(s, i)[k])
    decreases |s| - i
  {
    if i < |s| {
      var j := SepAt(s, i);
      if j < |s| {
        PartsAreParts(s, j + 1);
      }
      if !(j == i || (j == i + 1 && s[i] == '.')) {
        forall k | 0 <= k < j - i
          ensures s[i..j][k] != '/'
        {
          assert s[i..j][k] == s[i + k];
        }
      }
    }
  }

  /** A path string that starts at the root. */
  predicate IsAbsolute(s: string) {
    s != [] && s[0] == '/'
  }

  /** `str()` of an absolute path with these components. */
  function PathText(ps: seq<string>): string {
    "/" + Join(ps, "/")
  }

  /** `dir / base` for the components of an absolute folder: an absolute `base`
      replaces the folder, a relative one is appended to it. */
  function Joined(dir: seq<string>, base: string): seq<string> {
    if IsAbsolute(base) then Parts(base) else dir + Parts(base)
  }

  /** `PurePath.name`: the last component, empty for the root. */
  function Name(ps: seq<string>): string {
    if ps == [] then [] else ps[|ps| - 1]
  }

  /** `Path.with_suffix`: the suffix is checked first, then the last component is
      renamed; a path with an empty name (the root) cannot be renamed. */
  function WithSuffixPath(ps: seq<string>, suffix: string): (r: Result<seq<string>>)
    ensures r.Ok? <==> ValidSuffix(suffix) && Name(ps) != []
    ensures r.Ok? ==> r.value == ps[..|ps| - 1] + [Stem(Name(ps)) + suffix]
  {
    var w := WithSuffix(Name(ps), suffix);
    if w.Err? then Err(w.error)
    else Ok(ps[..|ps| - 1] + [w.value])
  }

  /** Below a folder of proper components the name is empty only for the root:
      only an absolute name without components ("/", "//.") has none. */
  lemma JoinedName(dir: seq<string>, base: string)
    requires forall k :: 0 <= k < |dir| ==> IsPart(dir[k])
    ensures Name(Joined(dir, base)) == [] <==> Joined(dir, base) == []
  {
    PartsAreParts(base, 0);
    var ps := Joined(dir, base);
    if ps != [] {
      if IsAbsolute(base) || Parts(base) != [] {
        assert ps[|ps| - 1] == Parts(base)[|Parts(base)| - 1];
      } else {
        assert ps == dir;
      }
    }
  }

  /** A relative name with components lands below the folder, and every component
      it names is kept, dots and all; an absolute name ignores the folder; a
      relative name without components ("", ".", "./") is the folder itself, so
      the suffix lands on the folder's own last component. */
  lemma JoinedSpec(dir: seq<string>, base: string)
    ensures !IsAbsolute(base) ==> Joined(dir, base)[..|dir|] == dir && |Joined(dir, base)| == |dir| + |Parts(base)|
    ensures IsAbsolute(base) ==> Joined(dir, base) == Parts(base)
    ensures !IsAbsolute(base) && Parts(base) == [] ==> Joined(dir, base) == dir
  {
  }

  /** A relative name with a dotted folder: the suffix goes on the last component
      only. */
  lemma DottedFolderExample(dir: seq<string>)
    ensures Joined(dir, "v1.2/out") == dir + ["v1.2", "out"]
    ensures WithSuffixPath(dir + ["v1.2", "out"], ".wav") == Ok(dir + ["v1.2", "out.wav"])
  {
    DottedFolderParts();
    assert !IsAbsolute("v1.2/out");
    RenameLast(dir + ["v1.2"], "out", "out.wav");
    assert dir + ["v1.2"] + ["out"] == dir + ["v1.2", "out"];
    assert dir + ["v1.2"] + ["out.wav"] == dir + ["v1.2", "out.wav"];
  }

  /** A hidden file has no suffix, so the new one is appended to its whole name. */
  lemma HiddenFileExample(dir: seq<string>)
    ensures WithSuffixPath(dir + ["dir", ".hidden"], ".wav") == Ok(dir + ["dir", ".hidden.wav"])
  {
    RenameLast(dir + ["dir"], ".hidden", ".hidden.wav");
    assert dir + ["dir"] + [".hidden"] == dir + ["dir", ".hidden"];
    assert dir + ["dir"] + [".hidden.wav"] == dir + ["dir", ".hidden.wav"];
  }

  /** An absolute name leaves the output folder; the root has no name to rename. */
  lemma AbsoluteExample(dir: seq<string>)
    ensures Joined(dir, "/tmp/x") == ["tmp", "x"]
    ensures Joined(dir, "/") == [] && WithSuffixPath([], ".wav") == Err(ValueError(EmptyName))
  {
    AbsoluteParts();
    assert SepAt("/", 0) == 0;
    PlainSuffixes();
    assert ValidSuffix(".wav");
  }

  lemma DottedFolderParts()
    ensures Parts("v1.2/out") == ["v1.2", "out"]
  {
    var a := "v1.2/out";
    assert SepAt(a, 0) == 4 by { assert a[4] == '/' && a[0] != '/' && a[1] != '/' && a[2] != '/' && a[3] != '/'; }
    assert SepAt(a, 5) == 8;
    assert a[0..4] == "v1.2" && a[5..8] == "out";
  }

  lemma AbsoluteParts()
    ensures Parts("/tmp/x") == ["tmp", "x"]
  {
    var b := "/tmp/x";
    assert SepAt(b, 0) == 0;
    assert SepAt(b, 1) == 4 by { assert b[4] == '/' && b[1] != '/' && b[2] != '/' && b[3] != '/'; }
    assert SepAt(b, 5) == 6;
    assert b[0..0] == [] && b[1..4] == "tmp" && b[5..6] == "x";
  }

  /** Renaming a last component without an inner dot appends the suffix to it. */
  lemma RenameLast(folder: seq<string>, name: string, renamed: string)
    requires name != [] && (forall k :: 0 < k < |name| ==> name[k] != '.') && renamed == name + ".wav"
    ensures WithSuffixPath(folder + [name], ".wav") == Ok(folder + [renamed])
  {
    PlainSuffixes();
    assert ValidSuffix(".wav");
    var ps := folder + [name];
    assert Name(ps) == name && ps[..|ps| - 1] == folder;
    var i := LastDot(name, |name|);
    assert i.Some? ==> i.value == 0;
    assert Stem(name) == name;
  }

  // ---------------------------------------------------------------------------
  // POST /tts/kokoro/synthesize

  /** The fields of `KokoroSynthesizeRequest` the route uses (`speed` is only
      passed on to the speech pipeline). */
  datatype Request = Request(
    text: string, voice: string, filename: Option<string>,
    saveVtt: bool, saveCaptionsJson: bool)

  /** `KokoroSynthesizeResponse`; its status is always "ok". */
  datatype Response = Response(
    path: string, duration: real, sampleRate: nat, numChannels: nat,
    captionsPath: Option<string>, vttPath: Option<string>)

  /** What the route gets from outside: the components of the resolved output
      directory with the date folder appended, the timestamp of the default file
      name, what the speech pipelines yield, and whether each sidecar file write
      succeeds. */
  datatype World = World(
    dir: seq<string>, stamp: string,
    results: seq<Chunk>, split: Splitter, synth: Synth,
    jsonWritten: bool, vttWritten: bool)

  // The details of the route's error answers.
  const TooShort: string := "String should have at least 1 character"
  const EmptyText: string := "Text cannot be empty."
  const InvalidVoice: string := "Invalid voice: "
  const MissingOrderedSet: string := "Missing dependency 'ordered_set'. Install with: pip install ordered-set"
  const SynthesisFailed: string := "Kokoro synthesis failed: "

  /** `str(e)` of an exception the engines raise. */
  function ErrorText(e: Error): string {
    match e
    case ValueError(m) => m
    case NotImplementedError(m) => m
    case IndexError => []
    case HttpError(_, d) => d
  }

  /** The 500 answer to a failed synthesis. */
  function SynthesisFailure(e: Error): (r: Error)
    ensures r.HttpError? && r.status == 500
  {
    if Find(ErrorText(e), "ordered_set").Some? then
      HttpError(500, MissingOrderedSet)
    else HttpError(500, SynthesisFailed + ErrorText(e))
  }

  /** The file name asked for, or the timestamped default; an empty name counts as
      none. */
  function BaseName(req: Request, voice: string, stamp: string): (base: string)
    ensures base != []
  {
    if req.filename.Some? && req.filename.value != [] then req.filename.value
    else "kokoro_" + voice + "_" + stamp + ".wav"
  }

  /** The engine the route runs for a language code: `kokoro_english` for "a",
      `kokoro_international` otherwise. */
  function RunEngine(voices: VoiceMap, text: string, voice: string, code: string, w: World): Result<(seq<TimedText>, real)> {
    if code == "a" then EnglishResult(voices, text, voice, w.results)
    else InternationalResult(voices, text, voice, code, w.split, w.synth)
  }

  /** The components of `(outdir / base)`. */
  function Target(req: Request, w: World): seq<string> {
    Joined(w.dir, BaseName(req, Strip(req.voice), w.stamp))
  }

  /** `kokoro_synthesize`. An empty `text` never reaches the route: the request
      model's minimum length answers 422 first. A path without a name makes
      `with_suffix` raise outside the `try`, and that error leaves the route. */
  function Synthesize(voices: VoiceMap, req: Request, w: World): Result<Response> {
    if req.text == [] then Err(HttpError(422, TooShort))
    else
      var text := Strip(req.text);
      if text == [] then Err(HttpError(400, EmptyText))
      else
        var voice := Strip(req.voice);
        var code := VoiceCode(voices, voice);
        if code.None? then Err(HttpError(400, InvalidVoice + voice))
        else
          var wav := WithSuffixPath(Target(req, w), ".wav");
          if wav.Err? then Err(wav.error)
          else
            var run := RunEngine(voices, text, voice, code.value, w);
            if run.Err? then Err(SynthesisFailure(run.error))
            else Ok(Respond(req, w, wav.value, run.value.1))
  }

  /** The answer after a successful synthesis into the file with components `wav`:
      the sidecar paths are reported only for files written, and a failed JSON
      write ends the sidecar block before the VTT file. */
  function Respond(req: Request, w: World, wav: seq<string>, duration: real): Response {
    var json := WithSuffixPath(wav, ".json");
    var vtt := WithSuffixPath(wav, ".vtt");
    var jsonSaved := req.saveCaptionsJson && w.jsonWritten && json.Ok?;
    var jsonFailed := req.saveCaptionsJson && !jsonSaved;
    var vttSaved := req.saveVtt && !jsonFailed && w.vttWritten && vtt.Ok?;
    Response(
      PathText(wav), duration, SampleRate, 2,
      if jsonSaved then Some(PathText(json.value)) else None,
      if vttSaved then Some(PathText(vtt.value)) else None)
  }

  /** The 422 answer for an empty text, then the two 400 answers: blank text, then
      an unknown voice (after stripping). */
  lemma SynthesizeRejects(voices: VoiceMap, req: Request, w: World)
    ensures Synthesize(voices, req, w) == Err(HttpError(422, TooShort)) <==> req.text == []
    ensures req.text != [] ==>
      (Synthesize(voices, req, w) == Err(HttpError(400, EmptyText)) <==> Strip(req.text) == [])
    ensures Strip(req.text) != [] ==>
      (Synthesize(voices, req, w) == Err(HttpError(400, InvalidVoice + Strip(req.voice))) <==>
       VoiceCode(voices, Strip(req.voice)).None?)
  {
    var bad := InvalidVoice + Strip(req.voice);
    assert bad[0] == 'I' && EmptyText[0] == 'T' && TooShort[0] == 'S';
    if req.text == [] {
      assert Strip(req.text) == [];
    }
  }

  /** Once the route's checks pass, the engine it picks passes its own checks with
      the same code: code "a" goes to the English engine and every other code to
      the international one. */
  lemma EngineChecksPass(voices: VoiceMap, req: Request)
    requires Strip(req.text) != [] && VoiceCode(voices, Strip(req.voice)).Some?
    ensures var code := VoiceCode(voices, Strip(req.voice)).value;
      if code == "a" then EnglishChecks(voices, Strip(req.text), Strip(req.voice)) == Ok("a")
      else InternationalChecks(voices, Strip(req.text), Strip(req.voice), code) == Ok(code)
  {
    StripOfStripped(Strip(req.text));
  }

  /** Past the route's checks, a target without a name fails before any engine
      runs; otherwise the route fails with 500 exactly when the engine fails, and
      answers with the engine's audio length. */
  lemma SynthesizeDispatch(voices: VoiceMap, req: Request, w: World)
    requires Strip(req.text) != [] && VoiceCode(voices, Strip(req.voice)).Some?
    ensures Name(Target(req, w)) == [] ==> Synthesize(voices, req, w) == Err(ValueError(EmptyName))
    ensures var code := VoiceCode(voices, Strip(req.voice)).value;
      var run := RunEngine(voices, Strip(req.text), Strip(req.voice), code, w);
      Name(Target(req, w)) != [] ==>
        (Synthesize(voices, req, w).Ok? <==> run.Ok?) &&
        (run.Err? ==> Synthesize(voices, req, w) == Err(SynthesisFailure(run.error))) &&
        (run.Ok? ==> Synthesize(voices, req, w).value.duration == run.value.1)
  {
    assert req.text != [];
    PlainSuffixes();
    assert ValidSuffix(".wav");
  }

  /** A successful answer is built from the target with its last component given
      the `.wav` suffix in place of its own. */
  lemma SynthesizeWav(voices: VoiceMap, req: Request, w: World)
    ensures var t := Target(req, w);
      Synthesize(voices, req, w).Ok? ==>
        Name(t) != [] &&
        Synthesize(voices, req, w).value ==
          Respond(req, w, t[..|t| - 1] + [Stem(Name(t)) + ".wav"], Synthesize(voices, req, w).value.duration)
  {
    PlainSuffixes();
    var r := Synthesize(voices, req, w);
    if r.Ok? {
      var voice := Strip(req.voice);
      var code := VoiceCode(voices, voice);
      var run := RunEngine(voices, Strip(req.text), voice, code.value, w);
      var t := Target(req, w);
      assert r == Ok(Respond(req, w, t[..|t| - 1] + [Stem(Name(t)) + ".wav"], run.value.1));
    }
  }

  /** The answer names the `.wav` file: the target's folder and the stem of its
      last component; the JSON and VTT sidecars, when reported, sit beside it with
      the same stem; a failed JSON write also leaves out the VTT file. */
  lemma RespondPaths(req: Request, w: World, t: seq<string>, duration: real)
    requires Name(t) != []
    ensures var stem := Stem(Name(t));
      var folder := t[..|t| - 1];
      var r := Respond(req, w, folder + [stem + ".wav"], duration);
      r.path == PathText(folder + [stem + ".wav"]) && Suffix(stem + ".wav") == ".wav" &&
      r.duration == duration && r.sampleRate == 24000 && r.numChannels == 2 &&
      (r.captionsPath.Some? <==> req.saveCaptionsJson && w.jsonWritten) &&
      (r.captionsPath.Some? ==> r.captionsPath.value == PathText(folder + [stem + ".json"])) &&
      (r.vttPath.Some? <==> req.saveVtt && w.vttWritten && (!req.saveCaptionsJson || w.jsonWritten)) &&
      (r.vttPath.Some? ==> r.vttPath.value == PathText(folder + [stem + ".vtt"]))
  {
    PlainSuffixes();
    var name := Name(t);
    var folder := t[..|t| - 1];
    var wav := folder + [Stem(name) + ".wav"];
    WithSuffixSpec(name, ".wav", ".json");
    WithSuffixSpec(name, ".wav", ".vtt");
    assert wav[..|wav| - 1] == folder && wav[|wav| - 1] == Stem(name) + ".wav";
  }

  // ---------------------------------------------------------------------------
  // GET /tts/kokoro/file

  /** `get_file` as written, on the resolved path, the resolved `./output` folder
      and whether the file exists: a plain string-prefix test. */
  function GetFileAsWritten(resolved: string, allowed: string, present: bool): Result<string> {
    if !StartsWith(resolved, allowed) then Err(HttpError(403, "Access denied"))
    else if !present then Err(HttpError(404, "File not found"))
    else Ok(resolved)
  }

  /** The prefix test lets through a sibling folder whose name extends the allowed
      one. */
  lemma GetFileSiblingAccepted()
    ensures GetFileAsWritten("/srv/output2/secret", "/srv/output", true) == Ok("/srv/output2/secret")
    ensures !IsWithin("/srv/output2/secret", "/srv/output")
  {
    assert "/srv/output2/secret"[..|"/srv/output"|] == "/srv/output";
    assert "/srv/output2/secret"[..|"/srv/output/"|] != "/srv/output/" by {
      assert "/srv/output2/secret"[11] == '2';
    }
  }

  /** A path is the folder itself or lies below it. */
  predicate IsWithin(path: string, dir: string) {
    path == dir || StartsWith(path, dir + "/")
  }

  /** `get_file` with the containment test it is meant to make. */
  function GetFile(resolved: string, allowed: string, present: bool): Result<string> {
    if !IsWithin(resolved, allowed) then Err(HttpError(403, "Access denied"))
    else if !present then Err(HttpError(404, "File not found"))
    else Ok(resolved)
  }

  /** The corrected check serves exactly the existing files inside the folder, and
      agrees with the code as written on every path inside it. */
  lemma GetFileSpec(resolved: string, allowed: string, present: bool)
    ensures GetFile(resolved, allowed, present).Ok? <==> IsWithin(resolved, allowed) && present
    ensures GetFile(resolved, allowed, present).Ok? ==> GetFile(resolved, allowed, present).value == resolved
    ensures GetFile(resolved, allowed, present) == Err(HttpError(403, "Access denied")) <==> !IsWithin(resolved, allowed)
    ensures IsWithin(resolved, allowed) ==> GetFile(resolved, allowed, present) == GetFileAsWritten(resolved, allowed, present)
  {
    if IsWithin(resolved, allowed) && resolved != allowed {
      assert resolved[..|allowed|] == (allowed + "/")[..|allowed|] == allowed;
    }
  }
}
