/**
 * The list and timeline logic of `app/services/tts_kokoro.py` around the Kokoro
 * speech model: the language and voice tables, the voice map built from them,
 * `valid_kokoro_voices`, the guards and clean-up of `break_text_into_sentences`,
 * the validation and dispatch of `kokoro`, and the caption loops of
 * `kokoro_international` and `kokoro_english`. The model's audio and token
 * timestamps, and the regular-expression split, are inputs.
 */
module Kokoro {
  import opened Results
  import opened Text
  import opened Timeline

  // ================================================================ tables

  /** One `LANGUAGE_CONFIG` entry. */
  datatype LangConfig = LangConfig(langCode: string, international: bool, iso639: string)

  /** `LANGUAGE_CONFIG`. */
  const LanguageConfig: map<string, LangConfig> := map[
    "en-us" := LangConfig("a", false, "en"),
    "en" := LangConfig("a", false, "en"),
    "en-gb" := LangConfig("b", false, "en"),
    "es" := LangConfig("e", true, "es"),
    "fr" := LangConfig("f", true, "fr"),
    "hi" := LangConfig("h", true, "hi"),
    "it" := LangConfig("i", true, "it"),
    "pt" := LangConfig("p", true, "pt"),
    "ja" := LangConfig("j", true, "ja"),
    "zh" := LangConfig("z", true, "zh")
  ]

  /** `LANGUAGE_VOICE_CONFIG`, in its insertion order. */
  const LanguageVoiceConfig: seq<(string, seq<string>)> := [
    ("en-us", ["af_heart", "af_alloy", "af_aoede", "af_bella", "af_jessica", "af_kore", "af_nicole",
               "af_nova", "af_river", "af_sarah", "af_sky", "am_adam", "am_echo", "am_eric",
               "am_fenrir", "am_liam", "am_michael", "am_onyx", "am_puck", "am_santa"]),
    ("en-gb", ["bf_alice", "bf_emma", "bf_isabella", "bf_lily", "bm_daniel", "bm_fable",
               "bm_george", "bm_lewis"]),
    ("zh", ["zf_xiaobei", "zf_xiaoni", "zf_xiaoxiao", "zf_xiaoyi", "zm_yunjian", "zm_yunxi",
            "zm_yunxia", "zm_yunyang"]),
    ("es", ["ef_dora", "em_alex", "em_santa"]),
    ("fr", ["ff_siwis"]),
    ("it", ["if_sara", "im_nicola"]),
    ("pt", ["pf_dora", "pm_alex", "pm_santa"]),
    ("hi", ["hf_alpha", "hf_beta", "hm_omega", "hm_psi"])
  ]

  // ================================================================ LANGUAGE_VOICE_MAP

  /** The map after the first `n` entries of the voice table: each voice of a
      known language is bound to that language's configuration, a later binding
      replacing an earlier one. */
  function VoiceMapOf(cfg: map<string, LangConfig>, entries: seq<(string, seq<string>)>, n: nat): map<string, LangConfig>
    requires n <= |entries|
  {
    if n == 0 then map[]
    else
      var m := VoiceMapOf(cfg, entries, n - 1);
      var lang := entries[n - 1].0;
      if lang in cfg then Bind(m, entries[n - 1].1, |entries[n - 1].1|, cfg[lang]) else m
  }

  /** `m` with the first `k` voices bound to `c`, one after the other. */
  function Bind(m: map<string, LangConfig>, voices: seq<string>, k: nat, c: LangConfig): map<string, LangConfig>
    requires k <= |voices|
  {
    if k == 0 then m else Bind(m, voices, k - 1, c)[voices[k - 1] := c]
  }

  /** `LANGUAGE_VOICE_MAP`. */
  function LanguageVoiceMap(): map<string, LangConfig> {
    VoiceMapOf(LanguageConfig, LanguageVoiceConfig, |LanguageVoiceConfig|)
  }

  /** Binding adds exactly the bound voices and leaves every other key alone. */
  lemma {:induction false} BindSpec(m: map<string, LangConfig>, voices: seq<string>, k: nat, c: LangConfig)
    requires k <= |voices|
    ensures forall v :: v in Bind(m, voices, k, c) <==> v in m || v in voices[..k]
    ensures forall v :: v in voices[..k] ==> Bind(m, voices, k, c)[v] == c
    ensures forall v :: v in m && v !in voices[..k] ==> Bind(m, voices, k, c)[v] == m[v]
  {
    if k > 0 {
      BindSpec(m, voices, k - 1, c);
      assert voices[..k] == voices[..k - 1] + [voices[k - 1]];
    }
  }

  /** The voices listed under the known languages among the first `n` entries. */
  function KnownVoices(cfg: map<string, LangConfig>, entries: seq<(string, seq<string>)>, n: nat): set<string>
    requires n <= |entries|
  {
    set j, v | 0 <= j < n && entries[j].0 in cfg && v in entries[j].1 :: v
  }

  /** A voice is in the map exactly when it is listed under a known language, and
      it is bound to the configuration of the LAST known language listing it. */
  lemma {:induction false} VoiceMapSpec(cfg: map<string, LangConfig>, entries: seq<(string, seq<string>)>, n: nat)
    requires n <= |entries|
    ensures VoiceMapOf(cfg, entries, n).Keys == KnownVoices(cfg, entries, n)
    ensures forall j, v ::
      (0 <= j < n && entries[j].0 in cfg && v in entries[j].1 &&
       forall l :: j < l < n && entries[l].0 in cfg ==> v !in entries[l].1) ==>
        VoiceMapOf(cfg, entries, n)[v] == cfg[entries[j].0]
  {
    if n > 0 {
      VoiceMapSpec(cfg, entries, n - 1);
      var prev := VoiceMapOf(cfg, entries, n - 1);
      var (lang, vs) := entries[n - 1];
      if lang in cfg {
        BindSpec(prev, vs, |vs|, cfg[lang]);
        assert vs[..|vs|] == vs;
      }
      var m := VoiceMapOf(cfg, entries, n);
      forall v | v in m
        ensures v in KnownVoices(cfg, entries, n)
      {
        if v !in prev {
          assert lang in cfg && v in entries[n - 1].1;
        } else {
          var j, w :| 0 <= j < n - 1 && entries[j].0 in cfg && w in entries[j].1 && w == v;
        }
      }
      forall v | v in KnownVoices(cfg, entries, n)
        ensures v in m
      {
        var j :| 0 <= j < n && entries[j].0 in cfg && v in entries[j].1;
        if j < n - 1 {
          assert v in KnownVoices(cfg, entries, n - 1);
        }
      }
    }
  }

  /** The module-level loop that fills `LANGUAGE_VOICE_MAP`; the warning it prints for
      a language missing from the configuration is not modelled. */
  method BuildVoiceMap(cfg: map<string, LangConfig>, entries: seq<(string, seq<string>)>)
    returns (m: map<string, LangConfig>)
    ensures m == VoiceMapOf(cfg, entries, |entries|)
  {
    m := map[];
    var i := 0;
    while i < |entries|
      invariant 0 <= i <= |entries|
      invariant m == VoiceMapOf(cfg, entries, i)
    {
      var (lang, voices) := entries[i];
      var k := 0;
      while k < |voices|
        invariant 0 <= k <= |voices|
        invariant lang in cfg ==> m == Bind(VoiceMapOf(cfg, entries, i), voices, k, cfg[lang])
        invariant lang !in cfg ==> m == VoiceMapOf(cfg, entries, i)
      {
        if lang in cfg {
          m := m[voices[k] := cfg[lang]];
        }
        k := k + 1;
      }
      i := i + 1;
    }
  }

  // ================================================================ valid_kokoro_voices

  /** All voices of the table, in table order. */
  function AllVoices(entries: seq<(string, seq<string>)>): (vs: seq<string>) {
    if entries == [] then [] else AllVoices(entries[..|entries| - 1]) + entries[|entries| - 1].1
  }

  /** `dict.get(key, [])` on the voice table (its keys are distinct, so the first match is the one). */
  function VoicesOf(entries: seq<(string, seq<string>)>, lang: string): seq<string> {
    if entries == [] then []
    else if entries[0].0 == lang then entries[0].1
    else VoicesOf(entries[1..], lang)
  }

  /** `valid_kokoro_voices`: a missing or empty language code means all voices. */
  function ValidKokoroVoices(lang: Option<string>): seq<string> {
    if lang.Some? && lang.value != [] then VoicesOf(LanguageVoiceConfig, lang.value)
    else AllVoices(LanguageVoiceConfig)
  }

  /** A voice is listed at all exactly when some entry lists it. */
  lemma {:induction false} AllVoicesSpec(entries: seq<(string, seq<string>)>)
    ensures forall v :: v in AllVoices(entries) <==> exists j :: 0 <= j < |entries| && v in entries[j].1
  {
    if entries != [] {
      var init := entries[..|entries| - 1];
      AllVoicesSpec(init);
      forall v | v in AllVoices(entries)
        ensures exists j :: 0 <= j < |entries| && v in entries[j].1
      {
        if v in AllVoices(init) {
          var j :| 0 <= j < |init| && v in init[j].1;
          assert entries[j] == init[j];
        } else {
          assert v in entries[|entries| - 1].1;
        }
      }
      forall v, j | 0 <= j < |entries| && v in entries[j].1
        ensures v in AllVoices(entries)
      {
        if j < |entries| - 1 {
          assert init[j] == entries[j];
        }
      }
    }
  }

  /** The per-language list is the entry's own list, or empty for a language not in the table. */
  lemma {:induction false} VoicesOfSpec(entries: seq<(string, seq<string>)>, lang: string)
    ensures (forall j :: 0 <= j < |entries| ==> entries[j].0 != lang) ==> VoicesOf(entries, lang) == []
    ensures forall j ::
      (0 <= j < |entries| && entries[j].0 == lang && forall l :: 0 <= l < j ==> entries[l].0 != lang) ==>
        VoicesOf(entries, lang) == entries[j].1
  {
    if entries != [] && entries[0].0 != lang {
      var tail := entries[1..];
      VoicesOfSpec(tail, lang);
      assert VoicesOf(entries, lang) == VoicesOf(tail, lang);
      if forall j :: 0 <= j < |entries| ==> entries[j].0 != lang {
        forall j | 0 <= j < |tail|
          ensures tail[j].0 != lang
        {
          assert tail[j] == entries[j + 1];
        }
      }
      forall j | 0 <= j < |entries| && entries[j].0 == lang && (forall l :: 0 <= l < j ==> entries[l].0 != lang)
        ensures VoicesOf(entries, lang) == entries[j].1
      {
        assert entries[1..][j - 1] == entries[j];
        forall l | 0 <= l < j - 1
          ensures entries[1..][l].0 != lang
        {
          assert entries[1..][l] == entries[l + 1];
        }
      }
    }
  }

  /** Every language of the voice table is configured. */
  lemma VoiceTableLanguagesKnown()
    ensures forall j :: 0 <= j < |LanguageVoiceConfig| ==> LanguageVoiceConfig[j].0 in LanguageConfig
  {
    forall j | 0 <= j < |LanguageVoiceConfig|
      ensures LanguageVoiceConfig[j].0 in LanguageConfig
    {
      assert j in {0, 1, 2, 3, 4, 5, 6, 7};
    }
  }

  /** So the voices `valid_kokoro_voices()` lists are exactly the keys of `LANGUAGE_VOICE_MAP`. */
  lemma ValidVoicesAreMapped()
    ensures forall v :: v in ValidKokoroVoices(None) <==> v in LanguageVoiceMap()
  {
    VoiceTableLanguagesKnown();
    AllVoicesSpec(LanguageVoiceConfig);
    VoiceMapSpec(LanguageConfig, LanguageVoiceConfig, |LanguageVoiceConfig|);
  }

  /** `valid_kokoro_voices("ja")` is empty: Japanese is configured but has no voices,
      and a language outside the table has none either. */
  lemma ValidVoicesExamples()
    ensures ValidKokoroVoices(Some("ja")) == []
    ensures ValidKokoroVoices(Some("en-gb"))[0] == "bf_alice"
    ensures ValidKokoroVoices(Some("xx")) == []
  {
    JapaneseHasNoVoices();
    UnlistedLanguageHasNoVoices();
    var c := LanguageVoiceConfig;
    assert c[0].0 != "en-gb" && c[1..][0] == c[1];
    assert VoicesOf(c, "en-gb") == VoicesOf(c[1..], "en-gb") == c[1].1;
  }

  lemma UnlistedLanguageHasNoVoices()
    ensures VoicesOf(LanguageVoiceConfig, "xx") == []
  {
    forall j | 0 <= j < |LanguageVoiceConfig|
      ensures LanguageVoiceConfig[j].0 != "xx"
    {
      assert j in {0, 1, 2, 3, 4, 5, 6, 7};
      assert LanguageVoiceConfig[j].0[0] != 'x';
    }
    VoicesOfSpec(LanguageVoiceConfig, "xx");
  }

  lemma JapaneseHasNoVoices()
    ensures VoicesOf(LanguageVoiceConfig, "ja") == []
  {
    VoicesOfSpec(LanguageVoiceConfig, "ja");
  }

  // ================================================================ break_text_into_sentences

  /** The languages with their own sentence pattern; any other code uses English's. */
  const PatternLanguages: set<string> := {"a", "e", "f", "h", "i", "p", "z"}

  /** The abbreviations protected from splitting, per language code. */
  const Abbreviations: map<string, set<string>> := map[
    "a" := {"Mr.", "Mrs.", "Ms.", "Dr.", "Prof.", "Sr.", "Jr.", "Inc.", "Corp.", "Ltd.", "Co.", "etc.",
            "vs.", "eg.", "i.e.", "e.g.", "Vol.", "Ch.", "Fig.", "No.", "p.", "pp."},
    "e" := {"Sr.", "Sra.", "Dr.", "Dra.", "Prof.", "etc.", "pág.", "art.", "núm.", "cap.", "vol."},
    "f" := {"M.", "Mme.", "Dr.", "Prof.", "etc.", "art.", "p.", "vol.", "ch.", "fig.", "n°"},
    "h" := {"श्री", "श्रीमती", "डॉ.", "प्रो.", "etc.", "पृ.", "अध."},
    "i" := {"Sig.", "Sig.ra", "Dr.", "Prof.", "ecc.", "pag.", "art.", "n.", "vol.", "cap.", "fig."},
    "p" := {"Sr.", "Sra.", "Dr.", "Dra.", "Prof.", "etc.", "pág.", "art.", "n.º", "vol.", "cap."},
    "z" := {"先生", "女士", "博士", "教授", "等等", "第", "页", "章"}
  ]

  /** `patterns.get(lang_code, patterns["a"])`, by key. */
  function PatternFor(lang: string): (key: string)
    ensures key in PatternLanguages
  {
    if lang in PatternLanguages then lang else "a"
  }

  /** `abbreviations.get(lang_code, set())`. */
  function AbbreviationsFor(lang: string): set<string> {
    if lang in Abbreviations then Abbreviations[lang] else {}
  }

  /** An unknown code splits with the English pattern and protects no abbreviation. */
  lemma UnknownLanguageFallback(lang: string, text: string, split: Splitter)
    requires lang !in PatternLanguages
    ensures PatternFor(lang) == "a" && AbbreviationsFor(lang) == {}
    ensures SentencePieces(text, lang, split) == split("a", {}, Strip(text))
  {
    assert Abbreviations.Keys == PatternLanguages;
  }

  /** The Chinese sentence ends. */
  predicate IsZhStop(c: char) { c == '。' || c == '！' || c == '？' }

  predicate NoStop(s: string) { forall i :: 0 <= i < |s| ==> !IsZhStop(s[i]) }

  /** The index just past the first sentence end, if there is one. */
  function StopEnd(s: string): (k: Option<nat>)
    ensures k.Some? ==> 1 <= k.value <= |s| && IsZhStop(s[k.value - 1]) && NoStop(s[..k.value - 1])
    ensures k.None? ==> NoStop(s)
  {
    if s == [] then None
    else if IsZhStop(s[0]) then Some(1)
    else
      var k := StopEnd(s[1..]);
      if k.None? then None else Some(k.value + 1)
  }

  /** `re.split(r"(?<=[。！？])", s)`: a cut after every sentence end, so a string
      that ends with one yields a trailing empty piece. */
  function ZhSplit(s: string): (pieces: seq<string>)
    ensures pieces != []
    decreases |s|
  {
    var k := StopEnd(s);
    if k.None? then [s] else [s[..k.value]] + ZhSplit(s[k.value..])
  }

  /** Cutting loses and adds nothing. */
  lemma {:induction false} ZhSplitConcat(s: string)
    ensures Concat(ZhSplit(s)) == s
    decreases |s|
  {
    var k := StopEnd(s);
    if k.Some? {
      ZhSplitConcat(s[k.value..]);
      assert s[..k.value] + s[k.value..] == s;
    }
  }

  /** `p` is one sentence: it ends with a sentence end and holds no other. */
  predicate EndsSentence(p: string) {
    p != [] && IsZhStop(p[|p| - 1]) && NoStop(p[..|p| - 1])
  }

  /** Every piece but the last ends with a sentence end and holds no other. */
  lemma {:induction false} ZhSplitPieces(s: string)
    ensures forall j :: 0 <= j < |ZhSplit(s)| - 1 ==> EndsSentence(ZhSplit(s)[j])
    ensures NoStop(ZhSplit(s)[|ZhSplit(s)| - 1])
    decreases |s|
  {
    var k := StopEnd(s);
    if k.Some? {
      var n := k.value;
      var head := s[..n];
      ZhSplitPieces(s[n..]);
      var rest := ZhSplit(s[n..]);
      assert ZhSplit(s) == [head] + rest;
      assert head[|head| - 1] == s[n - 1];
      assert head[..|head| - 1] == s[..n - 1];
      assert EndsSentence(head);
      forall j | 0 <= j < |ZhSplit(s)| - 1
        ensures EndsSentence(ZhSplit(s)[j])
      {
        if j > 0 {
          assert ZhSplit(s)[j] == rest[j - 1];
        }
      }
      assert ZhSplit(s)[|ZhSplit(s)| - 1] == rest[|rest| - 1];
    }
  }

  /** The sentence split of the other languages, an input here: given the pattern
      key, the abbreviations to protect and the stripped text, the pieces that
      protecting the abbreviations by placeholders, `re.split` and restoring the
      abbreviations leave. */
  type Splitter = (string, set<string>, string) -> seq<string>

  /** The pieces the split leaves for the stripped text: the pattern comes from
      `patterns.get(lang_code, patterns["a"])` and the protected abbreviations from
      `abbreviations.get(lang_code, set())`, each keyed by the language code. */
  function SentencePieces(text: string, lang: string, split: Splitter): (pieces: seq<string>)
    ensures lang != "z" ==> pieces == split(PatternFor(lang), AbbreviationsFor(lang), Strip(text))
    ensures lang == "z" ==> Concat(pieces) == Strip(text)
  {
    if lang == "z" then ZhSplitConcat(Strip(text)); ZhSplit(Strip(text))
    else split(PatternFor(lang), AbbreviationsFor(lang), Strip(text))
  }

  /** Code "b" (the en-gb voices) splits with the English pattern but protects no
      abbreviation, while code "a" protects the English ones. */
  lemma BritishSplitsUnprotected(text: string, split: Splitter)
    ensures SentencePieces(text, "b", split) == split("a", {}, Strip(text))
    ensures SentencePieces(text, "a", split) == split("a", Abbreviations["a"], Strip(text))
    ensures "Mr." in AbbreviationsFor("a") && AbbreviationsFor("b") == {}
  {
    UnknownLanguageFallback("b", text, split);
  }

  /** The stripped, non-empty pieces among the first `n`, in order. */
  function CleanPieces(pieces: seq<string>, n: nat): (r: seq<string>)
    requires n <= |pieces|
    ensures |r| <= n
  {
    if n == 0 then []
    else
      var s := Strip(pieces[n - 1]);
      CleanPieces(pieces, n - 1) + if s == [] then [] else [s]
  }

  /** What `break_text_into_sentences` returns for the given pieces. */
  function Sentences(text: string, pieces: seq<string>): seq<string> {
    if Strip(text) == [] then []
    else
      var r := CleanPieces(pieces, |pieces|);
      if r != [] then r else [Strip(text)]
  }

  /** `break_text_into_sentences`: the guard, the split and the fallback. */
  method BreakTextIntoSentences(text: string, lang: string, split: Splitter) returns (sentences: seq<string>)
    ensures sentences == Sentences(text, SentencePieces(text, lang, split))
  {
    var stripped := Strip(text);
    if stripped == [] {
      return [];
    }
    var pieces := SentencePieces(text, lang, split);
    var restored := RestorePieces(pieces);
    sentences := if restored != [] then restored else [stripped];
  }

  /** The clean-up loop of `break_text_into_sentences`: strip every piece and keep
      the non-empty ones. */
  method RestorePieces(pieces: seq<string>) returns (restored: seq<string>)
    ensures restored == CleanPieces(pieces, |pieces|)
  {
    restored := [];
    var i := 0;
    while i < |pieces|
      invariant 0 <= i <= |pieces|
      invariant restored == CleanPieces(pieces, i)
    {
      var sentence := Strip(pieces[i]);
      if sentence != [] {
        restored := restored + [sentence];
      }
      i := i + 1;
    }
  }

  /** The kept pieces are stripped and non-empty. */
  lemma {:induction false} CleanPiecesStripped(pieces: seq<string>, n: nat)
    requires n <= |pieces|
    ensures forall j :: 0 <= j < |CleanPieces(pieces, n)| ==>
      CleanPieces(pieces, n)[j] != [] && Strip(CleanPieces(pieces, n)[j]) == CleanPieces(pieces, n)[j]
  {
    if n > 0 {
      CleanPiecesStripped(pieces, n - 1);
      var s := Strip(pieces[n - 1]);
      StripOfStripped(s);
      var prev, r := CleanPieces(pieces, n - 1), CleanPieces(pieces, n);
      forall j | 0 <= j < |r|
        ensures r[j] != [] && Strip(r[j]) == r[j]
      {
        if j < |prev| {
          assert r[j] == prev[j];
        }
      }
    }
  }

  /** Blank text gives no sentence; other text gives at least one, each stripped and non-empty. */
  lemma SentencesSpec(text: string, pieces: seq<string>)
    ensures Strip(text) == [] <==> Sentences(text, pieces) == []
    ensures forall j :: 0 <= j < |Sentences(text, pieces)| ==>
      Sentences(text, pieces)[j] != [] && Strip(Sentences(text, pieces)[j]) == Sentences(text, pieces)[j]
  {
    CleanPiecesStripped(pieces, |pieces|);
    StripOfStripped(Strip(text));
  }

  /** Pieces without whitespace are kept as they are, only the empty ones dropped. */
  lemma {:induction false} CleanPiecesConcat(pieces: seq<string>, n: nat)
    requires n <= |pieces|
    requires forall j :: 0 <= j < |pieces| ==> NoSpace(pieces[j])
    ensures Concat(CleanPieces(pieces, n)) == Concat(pieces[..n])
  {
    if n > 0 {
      CleanPiecesConcat(pieces, n - 1);
      var p := pieces[n - 1];
      NoSpaceStripped(p);
      assert pieces[..n] == pieces[..n - 1] + [p];
      ConcatSnoc(pieces[..n - 1], p);
      if p != [] {
        assert CleanPieces(pieces, n) == CleanPieces(pieces, n - 1) + [p];
        ConcatSnoc(CleanPieces(pieces, n - 1), p);
      } else {
        assert CleanPieces(pieces, n) == CleanPieces(pieces, n - 1);
      }
    }
  }

  /** A string without whitespace is its own strip. */
  lemma NoSpaceStripped(s: string)
    requires NoSpace(s)
    ensures Strip(s) == s
  {
    if s != [] {
      StripOfStripped(s);
    }
  }

  /** The pieces of a whitespace-free string have no whitespace. */
  lemma ZhSplitNoSpace(s: string)
    requires NoSpace(s)
    ensures forall j :: 0 <= j < |ZhSplit(s)| ==> NoSpace(ZhSplit(s)[j])
    decreases |s|
  {
    var k := StopEnd(s);
    if k.Some? {
      ZhSplitNoSpace(s[k.value..]);
      var rest := ZhSplit(s[k.value..]);
      forall j | 1 <= j < |ZhSplit(s)|
        ensures ZhSplit(s)[j] == rest[j - 1]
      {
      }
    }
  }

  /** For Chinese text without whitespace, the sentences concatenate back to the text. */
  lemma ZhSentencesConcat(text: string, split: Splitter)
    requires NoSpace(text)
    ensures Concat(Sentences(text, SentencePieces(text, "z", split))) == text
  {
    NoSpaceStripped(text);
    var pieces := ZhSplit(text);
    ZhSplitNoSpace(text);
    ZhSplitConcat(text);
    CleanPiecesConcat(pieces, |pieces|);
    assert pieces[..|pieces|] == pieces;
  }

  // ================================================================ kokoro dispatch

  /** The engine `kokoro` hands the text to. */
  datatype Engine = English | International(langCode: string)

  /** The voice map the checks consult: `LANGUAGE_VOICE_MAP`, which is
      `LanguageVoiceMap()`; the checks are stated for any map. */
  type VoiceMap = map<string, LangConfig>

  /** The voice's language code, `LANGUAGE_VOICE_MAP.get(voice, {}).get("lang_code")`,
      when it is present and not empty. */
  function VoiceCode(voices: VoiceMap, voice: string): Option<string> {
    if voice in voices && voices[voice].langCode != [] then Some(voices[voice].langCode) else None
  }

  function BlankText(): Error { ValueError("Text cannot be empty or whitespace") }

  function UnknownVoice(voice: string): Error {
    ValueError("Voice '" + voice + "' not found in LANGUAGE_VOICE_MAP")
  }

  /** `kokoro`'s two checks and its choice of engine. */
  function Dispatch(voices: VoiceMap, text: string, voice: string): Result<Engine> {
    if Strip(text) == [] then Err(BlankText())
    else if VoiceCode(voices, voice).None? then Err(UnknownVoice(voice))
    else if VoiceCode(voices, voice).value == "a" then Ok(English)
    else Ok(International(VoiceCode(voices, voice).value))
  }

  /** The checks at the top of `kokoro_english`; the code it goes on with. */
  function EnglishChecks(voices: VoiceMap, text: string, voice: string): Result<string> {
    if Strip(text) == [] then Err(BlankText())
    else if VoiceCode(voices, voice).None? then Err(UnknownVoice(voice))
    else if VoiceCode(voices, voice).value != "a" then
      Err(NotImplementedError("TTS for language code '" + VoiceCode(voices, voice).value + "' is not implemented."))
    else Ok("a")
  }

  /** The checks at the top of `kokoro_international`: the code it is given is
      replaced by the voice's own. */
  function InternationalChecks(voices: VoiceMap, text: string, voice: string, langCode: string): Result<string> {
    if Strip(text) == [] then Err(BlankText())
    else if VoiceCode(voices, voice).None? then Err(UnknownVoice(voice))
    else Ok(VoiceCode(voices, voice).value)
  }

  /** `kokoro` fails exactly on blank text or an unknown voice; it sends code "a" to
      the English engine, whose checks then pass, and every other code to the
      international engine, which runs with that code whatever it is passed. */
  lemma DispatchSpec(voices: VoiceMap, text: string, voice: string, passed: string)
    ensures Dispatch(voices, text, voice).Err? <==> Strip(text) == [] || VoiceCode(voices, voice).None?
    ensures Dispatch(voices, text, voice) == Ok(English) ==> EnglishChecks(voices, text, voice) == Ok("a")
    ensures Dispatch(voices, text, voice).Ok? && Dispatch(voices, text, voice).value.International? ==>
      var code := Dispatch(voices, text, voice).value.langCode;
      code != "a" && InternationalChecks(voices, text, voice, passed) == Ok(code) && EnglishChecks(voices, text, voice).Err?
  {
  }

  /** Every voice name in `vs` starts with `c`. */
  predicate AllLedBy(vs: seq<string>, c: char) {
    forall k :: 0 <= k < |vs| ==> |vs[k]| > 0 && vs[k][0] == c
  }

  /** The code of the language of entry `j` of a voice table. */
  function EntryCode(cfg: map<string, LangConfig>, entries: seq<(string, seq<string>)>, j: nat): string
    requires j < |entries|
  {
    if entries[j].0 in cfg then cfg[entries[j].0].langCode else []
  }

  /** Entry `j` names a configured language with a one-letter code, and every voice
      it lists starts with that letter. */
  predicate EntryLed(cfg: map<string, LangConfig>, entries: seq<(string, seq<string>)>, j: nat)
    requires j < |entries|
  {
    entries[j].0 in cfg && |EntryCode(cfg, entries, j)| == 1 &&
    AllLedBy(entries[j].1, EntryCode(cfg, entries, j)[0])
  }

  /** Every entry is led by its code, and no two entries share a code. */
  predicate VoicesLed(cfg: map<string, LangConfig>, entries: seq<(string, seq<string>)>) {
    (forall j :: 0 <= j < |entries| ==> EntryLed(cfg, entries, j)) &&
    (forall j, l :: 0 <= j < l < |entries| ==> EntryCode(cfg, entries, j) != EntryCode(cfg, entries, l))
  }

  /** In a table led by its codes, a listed voice is bound to the language it is
      listed under, and its code is its first letter. */
  lemma LedVoiceCode(cfg: map<string, LangConfig>, entries: seq<(string, seq<string>)>, j: nat, v: string)
    requires VoicesLed(cfg, entries)
    requires j < |entries| && v in entries[j].1
    ensures v in VoiceMapOf(cfg, entries, |entries|) && |v| > 0 && entries[j].0 in cfg
    ensures VoiceMapOf(cfg, entries, |entries|)[v] == cfg[entries[j].0]
    ensures cfg[entries[j].0].langCode == [v[0]]
  {
    VoiceMapSpec(cfg, entries, |entries|);
    assert EntryLed(cfg, entries, j);
    var c := EntryCode(cfg, entries, j);
    var k :| 0 <= k < |entries[j].1| && entries[j].1[k] == v;
    assert |v| > 0 && v[0] == c[0];
    assert c == [v[0]];
    forall l | j < l < |entries| && entries[l].0 in cfg
      ensures v !in entries[l].1
    {
      assert EntryLed(cfg, entries, l);
      var cl := EntryCode(cfg, entries, l);
      assert cl != c && |cl| == 1;
      assert cl[0] != v[0];
    }
    assert v in KnownVoices(cfg, entries, |entries|);
  }

  lemma Led0() ensures EntryLed(LanguageConfig, LanguageVoiceConfig, 0) {}
  lemma Led1() ensures EntryLed(LanguageConfig, LanguageVoiceConfig, 1) {}
  lemma Led2() ensures EntryLed(LanguageConfig, LanguageVoiceConfig, 2) {}
  lemma Led3() ensures EntryLed(LanguageConfig, LanguageVoiceConfig, 3) {}
  lemma Led4() ensures EntryLed(LanguageConfig, LanguageVoiceConfig, 4) {}
  lemma Led5() ensures EntryLed(LanguageConfig, LanguageVoiceConfig, 5) {}
  lemma Led6() ensures EntryLed(LanguageConfig, LanguageVoiceConfig, 6) {}
  lemma Led7() ensures EntryLed(LanguageConfig, LanguageVoiceConfig, 7) {}

  /** The codes of the eight entries, in table order. */
  lemma EntryCodes()
    ensures forall j :: 0 <= j < |LanguageVoiceConfig| ==>
      EntryCode(LanguageConfig, LanguageVoiceConfig, j) == ["abzefiph"[j]]
  {
    forall j | 0 <= j < |LanguageVoiceConfig|
      ensures EntryCode(LanguageConfig, LanguageVoiceConfig, j) == ["abzefiph"[j]]
    {
      assert j == 0 || j == 1 || j == 2 || j == 3 || j == 4 || j == 5 || j == 6 || j == 7;
    }
  }

  /** Every entry of the shipped voice table is led by its code. */
  lemma ShippedEntriesLed()
    ensures forall j :: 0 <= j < |LanguageVoiceConfig| ==> EntryLed(LanguageConfig, LanguageVoiceConfig, j)
  {
    forall j | 0 <= j < |LanguageVoiceConfig|
      ensures EntryLed(LanguageConfig, LanguageVoiceConfig, j)
    {
      if j == 0 { Led0(); } else if j == 1 { Led1(); } else if j == 2 { Led2(); }
      else if j == 3 { Led3(); } else if j == 4 { Led4(); } else if j == 5 { Led5(); }
      else if j == 6 { Led6(); } else { Led7(); }
    }
  }

  /** No two entries of the shipped voice table share a code. */
  lemma ShippedCodesDistinct()
    ensures forall j, l :: 0 <= j < l < |LanguageVoiceConfig| ==>
      EntryCode(LanguageConfig, LanguageVoiceConfig, j) != EntryCode(LanguageConfig, LanguageVoiceConfig, l)
  {
    EntryCodes();
    forall j, l | 0 <= j < l < |LanguageVoiceConfig|
      ensures EntryCode(LanguageConfig, LanguageVoiceConfig, j) != EntryCode(LanguageConfig, LanguageVoiceConfig, l)
    {
      assert ["abzefiph"[j]][0] != ["abzefiph"[l]][0];
    }
  }

  /** The shipped tables: every language of the voice table is configured with its
      own one-letter code, and every voice name starts with that letter. */
  lemma VoicePrefixes()
    ensures VoicesLed(LanguageConfig, LanguageVoiceConfig)
  {
    ShippedEntriesLed();
    ShippedCodesDistinct();
  }

  /** Hence each shipped voice is bound to the language it is listed under, and its
      code is its first letter. */
  lemma VoiceCodeIsPrefix(j: nat, v: string)
    requires j < |LanguageVoiceConfig| && v in LanguageVoiceConfig[j].1
    ensures |v| > 0 && VoiceCode(LanguageVoiceMap(), v) == Some([v[0]])
    ensures LanguageVoiceMap()[v] == LanguageConfig[LanguageVoiceConfig[j].0]
  {
    VoicePrefixes();
    LedVoiceCode(LanguageConfig, LanguageVoiceConfig, j, v);
  }

  /** `af_heart`, the default voice, goes to the English engine. */
  lemma DefaultVoiceIsEnglish()
    ensures Dispatch(LanguageVoiceMap(), "Hello.", "af_heart") == Ok(English)
  {
    assert "af_heart" == LanguageVoiceConfig[0].1[0];
    VoiceCodeIsPrefix(0, "af_heart");
    assert Strip("Hello.") != [] by {
      StripOfStripped("Hello.");
    }
  }
}
