/** The caption loops of the two Kokoro engines, `kokoro_international` and
    `kokoro_english`: how the audio chunks and word tokens the speech pipeline
    yields become timed captions, and the checks in front of them. */
module KokoroCaptions {
  import opened Results
  import opened Text
  import opened Timeline
  import opened Kokoro

  /** Kokoro's sample rate, in samples per second. */
  const SampleRate: nat := 24000

  /** The length in seconds of a chunk of `n` samples, `len(data) / 24000`. */
  function Seconds(n: nat): (t: real)
    ensures t >= 0.0
    ensures n == SampleRate ==> t == 1.0
  {
    n as real / SampleRate as real
  }

  /** What `np.concatenate` raises when no chunk of audio was produced. */
  function NoAudio(): Error { ValueError("need at least one array to concatenate") }

  // ---------------------------------------------------------------------------
  // kokoro_international

  /** The speech pipeline, as far as the captions see it: the sample counts of the
      chunks it yields for one sentence. */
  type Synth = string -> seq<nat>

  /** The chunks of one sentence, each paired with that sentence. */
  function Pairs(s: string, ns: seq<nat>): (ps: seq<(string, nat)>)
    ensures |ps| == |ns|
    ensures forall k :: 0 <= k < |ps| ==> ps[k] == (s, ns[k])
  {
    seq(|ns|, k requires 0 <= k < |ns| => (s, ns[k]))
  }

  /** All chunks of the sentences, in order, each paired with its sentence. */
  function Chunks(ss: seq<string>, synth: Synth): seq<(string, nat)> {
    if ss == [] then []
    else Chunks(ss[..|ss| - 1], synth) + Pairs(ss[|ss| - 1], synth(ss[|ss| - 1]))
  }

  /** The audio length of a run of chunks. */
  function Total(cs: seq<(string, nat)>): (t: real)
    ensures t >= 0.0
  {
    if cs == [] then 0.0 else Total(cs[..|cs| - 1]) + Seconds(cs[|cs| - 1].1)
  }

  /** The captions the international loop has appended after a run of chunks. */
  function IntlCaptions(cs: seq<(string, nat)>): (r: seq<TimedText>)
    ensures |r| == |cs|
  {
    if cs == [] then []
    else
      var p := cs[..|cs| - 1];
      IntlCaptions(p) + [TimedText(cs[|cs| - 1].0, Total(p), Total(p) + Seconds(cs[|cs| - 1].1))]
  }

  /** The captions are contiguous: one per chunk, carrying its sentence, the first
      starting at 0, each later one starting where the previous one ended, each
      lasting its chunk's length, and the last ending at the total length. */
  lemma {:induction false} IntlCaptionsContiguous(cs: seq<(string, nat)>)
    ensures forall k :: 0 <= k < |cs| ==>
      IntlCaptions(cs)[k].text == cs[k].0 &&
      IntlCaptions(cs)[k].endTs == IntlCaptions(cs)[k].startTs + Seconds(cs[k].1)
    ensures |cs| > 0 ==> IntlCaptions(cs)[0].startTs == 0.0
    ensures forall k :: 0 < k < |cs| ==> IntlCaptions(cs)[k].startTs == IntlCaptions(cs)[k - 1].endTs
    ensures |cs| > 0 ==> IntlCaptions(cs)[|cs| - 1].endTs == Total(cs)
  {
    if cs != [] {
      var p, x := cs[..|cs| - 1], cs[|cs| - 1];
      IntlCaptionsContiguous(p);
      assert cs == p + [x];
      IntlCaptionsSnoc(p, x.0, x.1);
      var r, q := IntlCaptions(cs), IntlCaptions(p);
      assert r == q + [TimedText(x.0, Total(p), Total(p) + Seconds(x.1))];
      forall k | 0 <= k < |p|
        ensures r[k] == q[k] && cs[k] == p[k]
      {
      }
      assert r[|p|] == TimedText(x.0, Total(p), Total(p) + Seconds(x.1));
      assert Total(cs) == Total(p) + Seconds(x.1);
      forall k | 0 < k < |cs|
        ensures r[k].startTs == r[k - 1].endTs
      {
        assert r[k - 1] == q[k - 1];
        if k < |p| {
          assert r[k] == q[k];
        }
      }
    }
  }

  /** Every chunk belongs to one of the sentences, and a sentence yields exactly
      its own chunks, after those of the sentences before it. */
  lemma {:induction false} ChunksOfSentences(ss: seq<string>, synth: Synth)
    ensures forall k :: 0 <= k < |Chunks(ss, synth)| ==> Chunks(ss, synth)[k].0 in ss
    ensures ss != [] ==>
      Chunks(ss, synth) == Chunks(ss[..|ss| - 1], synth) + Pairs(ss[|ss| - 1], synth(ss[|ss| - 1]))
  {
    if ss != [] {
      var p := ss[..|ss| - 1];
      ChunksOfSentences(p, synth);
      var c := Chunks(ss, synth);
      forall k | 0 <= k < |c|
        ensures c[k].0 in ss
      {
        if k < |Chunks(p, synth)| {
          assert c[k] == Chunks(p, synth)[k];
          assert c[k].0 in p;
        } else {
          assert c[k].0 == ss[|ss| - 1];
        }
      }
    }
  }

  /** One more chunk adds one caption, from the old total to the new one. */
  lemma IntlCaptionsSnoc(cs: seq<(string, nat)>, s: string, n: nat)
    ensures Total(cs + [(s, n)]) == Total(cs) + Seconds(n)
    ensures IntlCaptions(cs + [(s, n)]) == IntlCaptions(cs) + [TimedText(s, Total(cs), Total(cs) + Seconds(n))]
  {
    assert (cs + [(s, n)])[..|cs|] == cs;
  }

  /** The caption loop of `kokoro_international`, sentence by sentence, with the
      running audio length. */
  method InternationalCaptions(sentences: seq<string>, synth: Synth) returns (captions: seq<TimedText>, full: real)
    ensures captions == IntlCaptions(Chunks(sentences, synth))
    ensures full == Total(Chunks(sentences, synth))
  {
    captions := [];
    full := 0.0;
    for i := 0 to |sentences|
      invariant captions == IntlCaptions(Chunks(sentences[..i], synth))
      invariant full == Total(Chunks(sentences[..i], synth))
    {
      assert sentences[..i + 1][..i] == sentences[..i];
      captions, full := SentenceCaptions(captions, full, Chunks(sentences[..i], synth), sentences[i], synth(sentences[i]));
    }
    assert sentences[..|sentences|] == sentences;
  }

  /** The inner loop: one caption per chunk of one sentence, carrying the
      sentence's text. */
  method SentenceCaptions(captions: seq<TimedText>, full: real, ghost done: seq<(string, nat)>, sentence: string, chunks: seq<nat>)
    returns (captions': seq<TimedText>, full': real)
    requires captions == IntlCaptions(done) && full == Total(done)
    ensures captions' == IntlCaptions(done + Pairs(sentence, chunks))
    ensures full' == Total(done + Pairs(sentence, chunks))
  {
    captions', full' := captions, full;
    assert done + Pairs(sentence, chunks[..0]) == done;
    for j := 0 to |chunks|
      invariant captions' == IntlCaptions(done + Pairs(sentence, chunks[..j]))
      invariant full' == Total(done + Pairs(sentence, chunks[..j]))
    {
      var audioLength := Seconds(chunks[j]);
      IntlCaptionsSnoc(done + Pairs(sentence, chunks[..j]), sentence, chunks[j]);
      assert done + Pairs(sentence, chunks[..j + 1]) == done + Pairs(sentence, chunks[..j]) + [(sentence, chunks[j])];
      captions' := captions' + [TimedText(sentence, full', full' + audioLength)];
      full' := full' + audioLength;
    }
    assert chunks[..|chunks|] == chunks;
  }

  /** What `kokoro_international` returns: its checks, the sentences it speaks in
      the voice's own language, and the captions with the total length. */
  function InternationalResult(voices: VoiceMap, text: string, voice: string, langCode: string, split: Splitter, synth: Synth): Result<(seq<TimedText>, real)> {
    var code := InternationalChecks(voices, text, voice, langCode);
    if code.Err? then Err(code.error)
    else
      var cs := Chunks(Sentences(text, SentencePieces(text, code.value, split)), synth);
      if cs == [] then Err(NoAudio()) else Ok((IntlCaptions(cs), Total(cs)))
  }

  /** `kokoro_international`, with the speech pipeline as a parameter. */
  method KokoroInternational(voices: VoiceMap, text: string, voice: string, langCode: string, split: Splitter, synth: Synth)
    returns (r: Result<(seq<TimedText>, real)>)
    ensures r == InternationalResult(voices, text, voice, langCode, split, synth)
  {
    var code := InternationalChecks(voices, text, voice, langCode);
    if code.Err? {
      return Err(code.error);
    }
    var sentences := BreakTextIntoSentences(text, code.value, split);
    var captions, full := InternationalCaptions(sentences, synth);
    if captions == [] {
      return Err(NoAudio());
    }
    r := Ok((captions, full));
  }

  /** A successful run returns contiguous captions from 0 to the returned length,
      each carrying one of the spoken sentences. */
  lemma InternationalSpec(voices: VoiceMap, text: string, voice: string, langCode: string, split: Splitter, synth: Synth)
    ensures InternationalResult(voices, text, voice, langCode, split, synth).Err? <==>
      Strip(text) == [] || VoiceCode(voices, voice).None? ||
      Chunks(Sentences(text, SentencePieces(text, VoiceCode(voices, voice).value, split)), synth) == []
    ensures InternationalResult(voices, text, voice, langCode, split, synth).Ok? ==>
      var (caps, full) := InternationalResult(voices, text, voice, langCode, split, synth).value;
      var ss := Sentences(text, SentencePieces(text, VoiceCode(voices, voice).value, split));
      caps != [] && caps[0].startTs == 0.0 && caps[|caps| - 1].endTs == full &&
      (forall k :: 0 < k < |caps| ==> caps[k].startTs == caps[k - 1].endTs) &&
      (forall k :: 0 <= k < |caps| ==> caps[k].text in ss && caps[k].startTs <= caps[k].endTs)
  {
    if InternationalResult(voices, text, voice, langCode, split, synth).Ok? {
      var ss := Sentences(text, SentencePieces(text, VoiceCode(voices, voice).value, split));
      var cs := Chunks(ss, synth);
      IntlCaptionsContiguous(cs);
      ChunksOfSentences(ss, synth);
    }
  }

  // ---------------------------------------------------------------------------
  // kokoro_english

  /** A word token of the English pipeline; either timestamp may be missing. */
  datatype Token = Token(text: string, startTs: Option<real>, endTs: Option<real>)

  predicate Timed(t: Token) { t.startTs.Some? && t.endTs.Some? }

  /** One result of the English pipeline: the sample count of its audio and its
      tokens (a result without tokens has the empty list). */
  type Chunk = (nat, seq<Token>)

  /** The captions after one token of a chunk that starts at `full` and lasts `len`:
      a timed token opens a caption shifted by `full`; an untimed one is glued to
      the last caption, which then ends with the chunk, or dropped if there is none. */
  function TokenStep(caps: seq<TimedText>, full: real, len: real, t: Token): seq<TimedText> {
    if !Timed(t) then
      if caps == [] then caps
      else
        var last := caps[|caps| - 1];
        caps[..|caps| - 1] + [TimedText(last.text + t.text, last.startTs, full + len)]
    else caps + [TimedText(t.text, full + t.startTs.value, full + t.endTs.value)]
  }

  /** The captions after the tokens of one chunk. */
  function TokensStep(caps: seq<TimedText>, full: real, len: real, toks: seq<Token>): seq<TimedText> {
    if toks == [] then caps
    else TokenStep(TokensStep(caps, full, len, toks[..|toks| - 1]), full, len, toks[|toks| - 1])
  }

  /** The audio length of a run of results. */
  function Elapsed(rs: seq<Chunk>): (t: real)
    ensures t >= 0.0
  {
    if rs == [] then 0.0 else Elapsed(rs[..|rs| - 1]) + Seconds(rs[|rs| - 1].0)
  }

  /** The captions the English loop has built after a run of results. */
  function EnglishCaptions(rs: seq<Chunk>): seq<TimedText> {
    if rs == [] then []
    else
      var p := rs[..|rs| - 1];
      TokensStep(EnglishCaptions(p), Elapsed(p), Seconds(rs[|rs| - 1].0), rs[|rs| - 1].1)
  }

  /** The start times of captions, and their texts. */
  function Starts(caps: seq<TimedText>): (r: seq<real>)
    ensures |r| == |caps|
  {
    seq(|caps|, k requires 0 <= k < |caps| => caps[k].startTs)
  }

  function Texts(caps: seq<TimedText>): (r: seq<string>)
    ensures |r| == |caps|
  {
    seq(|caps|, k requires 0 <= k < |caps| => caps[k].text)
  }

  /** The number of timed tokens. */
  function TimedCount(toks: seq<Token>): nat {
    if toks == [] then 0
    else TimedCount(toks[..|toks| - 1]) + if Timed(toks[|toks| - 1]) then 1 else 0
  }

  /** The start times of the timed tokens, shifted by `full`. */
  function TimedStarts(toks: seq<Token>, full: real): seq<real> {
    if toks == [] then []
    else
      var t := toks[|toks| - 1];
      TimedStarts(toks[..|toks| - 1], full) + if Timed(t) then [full + t.startTs.value] else []
  }

  /** The text of the tokens that are heard: all of them once a caption exists
      (`started`) or a timed token has come, none before. */
  function Heard(started: bool, toks: seq<Token>): string {
    if toks == [] then []
    else
      var p, t := toks[..|toks| - 1], toks[|toks| - 1];
      Heard(started, p) + if started || TimedCount(p) > 0 || Timed(t) then t.text else []
  }

  /** One token adds a caption exactly when it is timed, starting at its own start
      shifted by `full` and ending at its own end; an untimed one lengthens the
      text of the last caption (keeping its start and making it end with the
      chunk), or is lost when there is none. */
  lemma TokenStepSpec(caps: seq<TimedText>, full: real, len: real, t: Token)
    ensures var r := TokenStep(caps, full, len, t);
      |r| == |caps| + (if Timed(t) then 1 else 0) &&
      Starts(r) == Starts(caps) + (if Timed(t) then [full + t.startTs.value] else []) &&
      Concat(Texts(r)) == Concat(Texts(caps)) + (if caps != [] || Timed(t) then t.text else [])
    ensures Timed(t) ==> TokenStep(caps, full, len, t)[|caps|].endTs == full + t.endTs.value
    ensures !Timed(t) && caps != [] ==> TokenStep(caps, full, len, t)[|caps| - 1].endTs == full + len
  {
    var r := TokenStep(caps, full, len, t);
    TokenStepStarts(caps, full, len, t);
    if Timed(t) {
      assert Texts(r) == Texts(caps) + [t.text];
      ConcatSnoc(Texts(caps), t.text);
    } else if caps != [] {
      var n := |caps| - 1;
      var last := caps[n];
      assert Texts(caps) == Texts(caps[..n]) + [last.text];
      assert Texts(r) == Texts(caps[..n]) + [last.text + t.text];
      ConcatSnoc(Texts(caps[..n]), last.text);
      ConcatSnoc(Texts(caps[..n]), last.text + t.text);
    }
  }

  /** The start times after one token: a timed token appends its shifted start,
      an untimed one leaves every start as it was. */
  lemma TokenStepStarts(caps: seq<TimedText>, full: real, len: real, t: Token)
    ensures Starts(TokenStep(caps, full, len, t)) == Starts(caps) + (if Timed(t) then [full + t.startTs.value] else [])
  {
    var r := TokenStep(caps, full, len, t);
    if Timed(t) {
      assert Starts(r) == Starts(caps) + [full + t.startTs.value];
    } else if caps != [] {
      assert Starts(r) == Starts(caps);
    }
  }

  /** The tokens of one chunk add one caption per timed token, in order, starting
      at the tokens' shifted starts, and add the heard text. */
  lemma {:induction false} TokensStepSpec(caps: seq<TimedText>, full: real, len: real, toks: seq<Token>)
    ensures |TokensStep(caps, full, len, toks)| == |caps| + TimedCount(toks)
    ensures Starts(TokensStep(caps, full, len, toks)) == Starts(caps) + TimedStarts(toks, full)
    ensures Concat(Texts(TokensStep(caps, full, len, toks))) == Concat(Texts(caps)) + Heard(caps != [], toks)
    decreases |toks|
  {
    if toks != [] {
      TokensStepSpec(caps, full, len, toks[..|toks| - 1]);
      TokensCountNext(caps, full, len, toks);
      TokensStartsNext(caps, full, len, toks);
      TokensHeardNext(caps, full, len, toks);
    }
  }

  /** The inductive steps of `TokensStepSpec`: the last token extends what the
      tokens before it built, one property at a time. */
  lemma {:induction false} TokensCountNext(caps: seq<TimedText>, full: real, len: real, toks: seq<Token>)
    requires toks != []
    requires |TokensStep(caps, full, len, toks[..|toks| - 1])| == |caps| + TimedCount(toks[..|toks| - 1])
    ensures |TokensStep(caps, full, len, toks)| == |caps| + TimedCount(toks)
  {
    var p, t := toks[..|toks| - 1], toks[|toks| - 1];
    TokenStepSpec(TokensStep(caps, full, len, p), full, len, t);
  }

  lemma {:induction false} TokensStartsNext(caps: seq<TimedText>, full: real, len: real, toks: seq<Token>)
    requires toks != []
    requires Starts(TokensStep(caps, full, len, toks[..|toks| - 1])) == Starts(caps) + TimedStarts(toks[..|toks| - 1], full)
    ensures Starts(TokensStep(caps, full, len, toks)) == Starts(caps) + TimedStarts(toks, full)
  {
    var p, t := toks[..|toks| - 1], toks[|toks| - 1];
    var mid := TokensStep(caps, full, len, p);
    var st := if Timed(t) then [full + t.startTs.value] else [];
    TokensStepLast(caps, full, len, toks);
    TokenStepStarts(mid, full, len, t);
    TimedStartsLast(toks, full);
    SnocChain(Starts(TokensStep(caps, full, len, toks)), Starts(mid), Starts(caps),
      TimedStarts(p, full), st, TimedStarts(toks, full));
  }

  lemma SnocChain<T>(all: seq<T>, mid: seq<T>, base: seq<T>, added: seq<T>, last: seq<T>, allAdded: seq<T>)
    requires all == mid + last && mid == base + added && allAdded == added + last
    ensures all == base + allAdded
  {
  }

  lemma TokensStepLast(caps: seq<TimedText>, full: real, len: real, toks: seq<Token>)
    requires toks != []
    ensures TokensStep(caps, full, len, toks) ==
      TokenStep(TokensStep(caps, full, len, toks[..|toks| - 1]), full, len, toks[|toks| - 1])
  {
  }

  lemma TimedStartsLast(toks: seq<Token>, full: real)
    requires toks != []
    ensures var t := toks[|toks| - 1];
      TimedStarts(toks, full) == TimedStarts(toks[..|toks| - 1], full) + if Timed(t) then [full + t.startTs.value] else []
  {
  }

  lemma {:induction false} TokensHeardNext(caps: seq<TimedText>, full: real, len: real, toks: seq<Token>)
    requires toks != []
    requires var p := toks[..|toks| - 1]; var mid := TokensStep(caps, full, len, p);
      |mid| == |caps| + TimedCount(p) && Concat(Texts(mid)) == Concat(Texts(caps)) + Heard(caps != [], p)
    ensures Concat(Texts(TokensStep(caps, full, len, toks))) == Concat(Texts(caps)) + Heard(caps != [], toks)
  {
    var p, t := toks[..|toks| - 1], toks[|toks| - 1];
    var mid := TokensStep(caps, full, len, p);
    TokenStepSpec(mid, full, len, t);
    assert mid != [] <==> caps != [] || TimedCount(p) > 0;
    var tx := if caps != [] || TimedCount(p) > 0 || Timed(t) then t.text else [];
    assert Concat(Texts(caps)) + Heard(caps != [], p) + tx == Concat(Texts(caps)) + (Heard(caps != [], p) + tx);
  }

  /** The timed tokens, the shifted starts and the heard text of a run of results. */
  function AllTimed(rs: seq<Chunk>): nat {
    if rs == [] then 0 else AllTimed(rs[..|rs| - 1]) + TimedCount(rs[|rs| - 1].1)
  }

  function AllStarts(rs: seq<Chunk>): seq<real> {
    if rs == [] then []
    else
      var p := rs[..|rs| - 1];
      AllStarts(p) + TimedStarts(rs[|rs| - 1].1, Elapsed(p))
  }

  function AllHeard(rs: seq<Chunk>): string {
    if rs == [] then []
    else
      var p := rs[..|rs| - 1];
      AllHeard(p) + Heard(AllTimed(p) > 0, rs[|rs| - 1].1)
  }

  /** The English captions: one per timed token, each starting at the token's own
      start shifted by the audio before its chunk, and together holding the text of
      every token except the untimed ones before the first timed one. */
  lemma {:induction false} EnglishCaptionsSpec(rs: seq<Chunk>)
    ensures |EnglishCaptions(rs)| == AllTimed(rs)
    ensures Starts(EnglishCaptions(rs)) == AllStarts(rs)
    ensures Concat(Texts(EnglishCaptions(rs))) == AllHeard(rs)
  {
    if rs != [] {
      var p := rs[..|rs| - 1];
      EnglishCaptionsSpec(p);
      TokensStepSpec(EnglishCaptions(p), Elapsed(p), Seconds(rs[|rs| - 1].0), rs[|rs| - 1].1);
    }
  }

  /** The token loop for one result. */
  method ChunkCaptions(captions: seq<TimedText>, full: real, audioLength: real, tokens: seq<Token>)
    returns (captions': seq<TimedText>)
    ensures captions' == TokensStep(captions, full, audioLength, tokens)
  {
    captions' := captions;
    for k := 0 to |tokens|
      invariant captions' == TokensStep(captions, full, audioLength, tokens[..k])
    {
      var t := tokens[k];
      assert tokens[..k + 1][..k] == tokens[..k];
      if t.startTs.None? || t.endTs.None? {
        if captions' != [] {
          var last := captions'[|captions'| - 1];
          captions' := captions'[..|captions'| - 1] + [TimedText(last.text + t.text, last.startTs, full + audioLength)];
        }
      } else {
        captions' := captions' + [TimedText(t.text, full + t.startTs.value, full + t.endTs.value)];
      }
    }
    assert tokens[..|tokens|] == tokens;
  }

  /** The caption loop of `kokoro_english`, with the running audio length. */
  method EnglishCaptionLoop(rs: seq<Chunk>) returns (captions: seq<TimedText>, full: real)
    ensures captions == EnglishCaptions(rs) && full == Elapsed(rs)
  {
    captions := [];
    full := 0.0;
    for i := 0 to |rs|
      invariant captions == EnglishCaptions(rs[..i]) && full == Elapsed(rs[..i])
    {
      assert rs[..i + 1][..i] == rs[..i];
      var audioLength := Seconds(rs[i].0);
      captions := ChunkCaptions(captions, full, audioLength, rs[i].1);
      full := full + audioLength;
    }
    assert rs[..|rs|] == rs;
  }

  /** What `kokoro_english` returns for the results its pipeline yields. */
  function EnglishResult(voices: VoiceMap, text: string, voice: string, rs: seq<Chunk>): Result<(seq<TimedText>, real)> {
    var code := EnglishChecks(voices, text, voice);
    if code.Err? then Err(code.error)
    else if rs == [] then Err(NoAudio())
    else Ok((EnglishCaptions(rs), Elapsed(rs)))
  }

  /** `kokoro_english`, with the results of the speech pipeline as a parameter. */
  method KokoroEnglish(voices: VoiceMap, text: string, voice: string, rs: seq<Chunk>) returns (r: Result<(seq<TimedText>, real)>)
    ensures r == EnglishResult(voices, text, voice, rs)
  {
    var code := EnglishChecks(voices, text, voice);
    if code.Err? {
      return Err(code.error);
    }
    var captions, full := EnglishCaptionLoop(rs);
    if rs == [] {
      return Err(NoAudio());
    }
    r := Ok((captions, full));
  }

  /** `kokoro_english` fails exactly on its checks or on an empty pipeline, and
      otherwise returns one caption per timed token with the token's shifted start,
      the heard text, and the total audio length. */
  lemma EnglishSpec(voices: VoiceMap, text: string, voice: string, rs: seq<Chunk>)
    ensures EnglishResult(voices, text, voice, rs).Err? <==> EnglishChecks(voices, text, voice).Err? || rs == []
    ensures EnglishResult(voices, text, voice, rs).Ok? ==>
      var (caps, full) := EnglishResult(voices, text, voice, rs).value;
      |caps| == AllTimed(rs) && Starts(caps) == AllStarts(rs) &&
      Concat(Texts(caps)) == AllHeard(rs) && full == Elapsed(rs)
  {
    EnglishCaptionsSpec(rs);
  }
}
