/** The Chatterbox speech service: packing sentences into chunks of bounded length
    (`split_text_into_chunks`) and laying out the generated audio with silences
    between chunks (`text_to_speech_pipeline`). */
module Chatterbox {
  import opened Results
  import opened Text
  import Kokoro

  // ---------------------------------------------------------------------------
  // split_text_into_chunks

  /** The sentences the tokenizer found, stripped, with the blank ones removed. */
  function Cleaned(sentences: seq<string>): seq<string> {
    Kokoro.CleanPieces(sentences, |sentences|)
  }

  /** One more sentence: it starts a new group when the current one is non-empty
      and joining the sentence to it with a space would pass `max`; otherwise it
      joins the current group. */
  function Add(gs: seq<seq<string>>, s: string, max: int): (r: seq<seq<string>>)
    ensures r != []
  {
    if gs == [] then [[s]]
    else
      var last := gs[|gs| - 1];
      if |Join(last, " ")| + |s| + 1 > max then gs + [[s]]
      else gs[..|gs| - 1] + [last + [s]]
  }

  /** The greedy packing of sentences into groups. */
  function Groups(ss: seq<string>, max: int): (gs: seq<seq<string>>)
    ensures ss == [] <==> gs == []
  {
    if ss == [] then [] else Add(Groups(ss[..|ss| - 1], max), ss[|ss| - 1], max)
  }

  /** The groups one after the other. */
  function Flatten(gs: seq<seq<string>>): seq<string> {
    if gs == [] then [] else Flatten(gs[..|gs| - 1]) + gs[|gs| - 1]
  }

  /** Each group joined with single spaces. */
  function Joins(gs: seq<seq<string>>): (cs: seq<string>)
    ensures |cs| == |gs|
  {
    seq(|gs|, k requires 0 <= k < |gs| => Join(gs[k], " "))
  }

  /** No group is empty. */
  predicate NoEmptyGroup(gs: seq<seq<string>>) {
    forall k :: 0 <= k < |gs| ==> gs[k] != []
  }

  /** A group ends only when the next sentence would not fit after a space. */
  predicate Greedy(gs: seq<seq<string>>, max: int) {
    forall k :: 0 < k < |gs| && gs[k] != [] ==> |Join(gs[k - 1], " ")| + |gs[k][0]| + 1 > max
  }

  /** A group of several sentences fits within `max`. */
  predicate Fits(gs: seq<seq<string>>, max: int) {
    forall k :: 0 <= k < |gs| && |gs[k]| > 1 ==> |Join(gs[k], " ")| <= max
  }

  lemma AddFlatten(gs: seq<seq<string>>, s: string, max: int)
    ensures Flatten(Add(gs, s, max)) == Flatten(gs) + [s]
  {
    var r := Add(gs, s, max);
    if gs == [] {
      assert r == [[s]];
      assert r[..0] == [];
    } else {
      var n := |gs| - 1;
      if |Join(gs[n], " ")| + |s| + 1 > max {
        assert r[..|gs|] == gs;
      } else {
        assert r[..n] == gs[..n];
        assert gs[..n] + [gs[n]] == gs;
      }
    }
  }

  lemma AddNoEmptyGroup(gs: seq<seq<string>>, s: string, max: int)
    requires NoEmptyGroup(gs)
    ensures NoEmptyGroup(Add(gs, s, max))
  {
  }

  lemma AddGreedy(gs: seq<seq<string>>, s: string, max: int)
    requires NoEmptyGroup(gs) && Greedy(gs, max)
    ensures Greedy(Add(gs, s, max), max)
  {
    var r := Add(gs, s, max);
    if gs != [] {
      var n := |gs| - 1;
      if |Join(gs[n], " ")| + |s| + 1 > max {
        forall k | 0 < k < |r| && r[k] != []
          ensures |Join(r[k - 1], " ")| + |r[k][0]| + 1 > max
        {
          if k < |gs| {
            assert r[k] == gs[k] && r[k - 1] == gs[k - 1];
          }
        }
      } else {
        forall k | 0 < k < |r| && r[k] != []
          ensures |Join(r[k - 1], " ")| + |r[k][0]| + 1 > max
        {
          assert r[k - 1] == gs[k - 1];
          assert r[k][0] == gs[k][0];
        }
      }
    }
  }

  lemma AddFits(gs: seq<seq<string>>, s: string, max: int)
    requires NoEmptyGroup(gs) && Fits(gs, max)
    ensures Fits(Add(gs, s, max), max)
  {
    var r := Add(gs, s, max);
    if gs != [] {
      var n := |gs| - 1;
      if |Join(gs[n], " ")| + |s| + 1 <= max {
        JoinSnoc(gs[n], s, " ");
        forall k | 0 <= k < |r| && |r[k]| > 1
          ensures |Join(r[k], " ")| <= max
        {
          if k < n {
            assert r[k] == gs[k];
          }
        }
      } else {
        forall k | 0 <= k < |r| && |r[k]| > 1
          ensures |Join(r[k], " ")| <= max
        {
          assert r[k] == gs[k];
        }
      }
    }
  }

  /** The packing keeps every sentence whole and in order; no group is empty;
      a group ends only when the next sentence would not fit after a space; and a
      group of several sentences fits within `max`. */
  lemma {:induction false} GroupsSpec(ss: seq<string>, max: int)
    ensures Flatten(Groups(ss, max)) == ss
    ensures NoEmptyGroup(Groups(ss, max)) && Greedy(Groups(ss, max), max) && Fits(Groups(ss, max), max)
  {
    if ss != [] {
      var p, s := ss[..|ss| - 1], ss[|ss| - 1];
      GroupsSpec(p, max);
      var gs := Groups(p, max);
      AddFlatten(gs, s, max);
      AddNoEmptyGroup(gs, s, max);
      AddGreedy(gs, s, max);
      AddFits(gs, s, max);
      assert p + [s] == ss;
    }
  }

  lemma JoinsSnoc(gs: seq<seq<string>>, g: seq<string>)
    ensures Joins(gs + [g]) == Joins(gs) + [Join(g, " ")]
  {
  }

  /** Joining the joined groups gives the sentences joined. */
  lemma {:induction false} JoinOfJoins(gs: seq<seq<string>>)
    requires NoEmptyGroup(gs)
    ensures Join(Joins(gs), " ") == Join(Flatten(gs), " ")
  {
    if gs != [] {
      var p, g := gs[..|gs| - 1], gs[|gs| - 1];
      JoinOfJoins(p);
      assert gs == p + [g];
      JoinsSnoc(p, g);
      if p != [] {
        JoinSnoc(Joins(p), Join(g, " "), " ");
        assert Flatten(p) != [] by {
          assert p[|p| - 1] != [];
        }
        JoinAppend(Flatten(p), g, " ");
      } else {
        assert Flatten(gs) == g;
      }
    }
  }

  /** A space-joined run of stripped non-empty strings is stripped and non-empty. */
  lemma {:induction false} JoinStripped(ss: seq<string>)
    requires ss != []
    requires forall k :: 0 <= k < |ss| ==> ss[k] != [] && IsStripped(ss[k])
    ensures Join(ss, " ") != [] && IsStripped(Join(ss, " "))
  {
    if |ss| > 1 {
      var p := ss[..|ss| - 1];
      JoinStripped(p);
      assert p + [ss[|ss| - 1]] == ss;
      JoinSnoc(p, ss[|ss| - 1], " ");
    }
  }

  /** What `split_text_into_chunks` returns: the packed chunks, or the whole text
      when the tokenizer raised (`None`). */
  function SplitChunks(text: string, max: int, tokenized: Option<seq<string>>): seq<string> {
    if tokenized.None? then [text] else Joins(Groups(Cleaned(tokenized.value), max))
  }

  /** The state of the packing loop after the groups `gs`: `current` is the last
      group joined, and `chunks` holds the earlier groups joined. */
  predicate PackState(gs: seq<seq<string>>, chunks: seq<string>, current: string) {
    (gs == [] ==> current == [] && chunks == []) &&
    (gs != [] ==>
      current != [] && IsStripped(current) &&
      current == Join(gs[|gs| - 1], " ") && chunks == Joins(gs[..|gs| - 1]))
  }

  /** One turn of the packing loop. */
  method PackSentence(chunks: seq<string>, current: string, sentence: string, max: int, ghost gs: seq<seq<string>>)
    returns (chunks': seq<string>, current': string)
    requires PackState(gs, chunks, current)
    requires sentence != [] && IsStripped(sentence)
    ensures PackState(Add(gs, sentence, max), chunks', current')
  {
    if current != [] && |current| + |sentence| + 1 > max {
      StripOfStripped(current);
      JoinsSnoc(gs[..|gs| - 1], gs[|gs| - 1]);
      assert gs[..|gs| - 1] + [gs[|gs| - 1]] == gs;
      chunks' := chunks + [Strip(current)];
      current' := sentence;
      assert Add(gs, sentence, max)[..|gs|] == gs;
    } else if current != [] {
      JoinSnoc(gs[|gs| - 1], sentence, " ");
      chunks' := chunks;
      current' := current + " " + sentence;
      assert Add(gs, sentence, max)[..|gs| - 1] == gs[..|gs| - 1];
    } else {
      chunks' := chunks;
      current' := sentence;
    }
  }

  /** `split_text_into_chunks`, with the tokenizer's result as a parameter. */
  method SplitTextIntoChunks(text: string, max: int, tokenized: Option<seq<string>>) returns (chunks: seq<string>)
    ensures chunks == SplitChunks(text, max, tokenized)
  {
    if tokenized.None? {
      return [text];
    }
    var sentences := Cleaned(tokenized.value);
    Kokoro.CleanPiecesStripped(tokenized.value, |tokenized.value|);
    chunks := [];
    var current := "";
    for i := 0 to |sentences|
      invariant PackState(Groups(sentences[..i], max), chunks, current)
    {
      assert sentences[..i + 1][..i] == sentences[..i];
      assert IsStripped(Strip(sentences[i]));
      chunks, current := PackSentence(chunks, current, sentences[i], max, Groups(sentences[..i], max));
    }
    assert sentences[..|sentences|] == sentences;
    ghost var gs := Groups(sentences, max);
    if Strip(current) != [] {
      StripOfStripped(current);
      JoinsSnoc(gs[..|gs| - 1], gs[|gs| - 1]);
      assert gs[..|gs| - 1] + [gs[|gs| - 1]] == gs;
      chunks := chunks + [Strip(current)];
    }
  }

  /** Every stripped sentence is at most as long as the longest one. */
  lemma {:induction false} CleanedBounded(sentences: seq<string>, n: nat, max: int)
    requires n <= |sentences|
    requires forall j :: 0 <= j < |sentences| ==> |sentences[j]| <= max
    ensures forall k :: 0 <= k < |Kokoro.CleanPieces(sentences, n)| ==> |Kokoro.CleanPieces(sentences, n)[k]| <= max
  {
    if n > 0 {
      CleanedBounded(sentences, n - 1, max);
      var prev := Kokoro.CleanPieces(sentences, n - 1);
      var r := Kokoro.CleanPieces(sentences, n);
      forall k | 0 <= k < |r|
        ensures |r[k]| <= max
      {
        if k < |prev| {
          assert r[k] == prev[k];
        }
      }
    }
  }

  /** With a tokenizer result, the chunks are non-empty and stripped, each fits in
      `max` whenever every sentence does, and joining them with spaces gives the
      cleaned sentences joined with spaces: no sentence is split, dropped or moved.
      Without one, the text comes back whole. */
  lemma SplitChunksSpec(text: string, max: int, tokenized: Option<seq<string>>)
    ensures tokenized.None? ==> SplitChunks(text, max, tokenized) == [text]
    ensures tokenized.Some? ==>
      var cs := SplitChunks(text, max, tokenized);
      (forall k :: 0 <= k < |cs| ==> cs[k] != [] && IsStripped(cs[k])) &&
      Join(cs, " ") == Join(Cleaned(tokenized.value), " ") &&
      ((forall j :: 0 <= j < |tokenized.value| ==> |tokenized.value[j]| <= max) ==>
        forall k :: 0 <= k < |cs| ==> |cs[k]| <= max)
  {
    if tokenized.Some? {
      var ss := tokenized.value;
      var clean := Cleaned(ss);
      Kokoro.CleanPiecesStripped(ss, |ss|);
      GroupsSpec(clean, max);
      var gs := Groups(clean, max);
      var cs := Joins(gs);
      forall k | 0 <= k < |gs|
        ensures cs[k] != [] && IsStripped(cs[k])
        ensures (forall j :: 0 <= j < |ss| ==> |ss[j]| <= max) ==> |cs[k]| <= max
      {
        if forall j :: 0 <= j < |ss| ==> |ss[j]| <= max {
          CleanedBounded(ss, |ss|, max);
        }
        PackedChunk(gs, k, clean, max);
      }
      JoinOfJoins(gs);
    }
  }

  /** A group of cleaned sentences joins into a non-empty stripped chunk, which
      fits in `max` when every sentence does. */
  lemma PackedChunk(gs: seq<seq<string>>, k: nat, clean: seq<string>, max: int)
    requires k < |gs| && Flatten(gs) == clean && NoEmptyGroup(gs) && Fits(gs, max)
    requires forall j :: 0 <= j < |clean| ==> clean[j] != [] && Strip(clean[j]) == clean[j]
    ensures Join(gs[k], " ") != [] && IsStripped(Join(gs[k], " "))
    ensures (forall j :: 0 <= j < |clean| ==> |clean[j]| <= max) ==> |Join(gs[k], " ")| <= max
  {
    GroupMembers(gs, k, clean);
    JoinStripped(gs[k]);
    FlattenMembers(gs, k);
    if |gs[k]| == 1 {
      assert gs[k] == [gs[k][0]];
      assert gs[k][0] in clean;
    }
  }

  /** Every sentence of a group occurs in the flattened groups. */
  lemma {:induction false} FlattenMembers(gs: seq<seq<string>>, k: nat)
    requires k < |gs|
    ensures forall s :: s in gs[k] ==> s in Flatten(gs)
  {
    if k < |gs| - 1 {
      FlattenMembers(gs[..|gs| - 1], k);
      assert gs[..|gs| - 1][k] == gs[k];
    }
  }

  /** The sentences of a group of cleaned sentences are non-empty and stripped. */
  lemma GroupMembers(gs: seq<seq<string>>, k: nat, clean: seq<string>)
    requires k < |gs| && Flatten(gs) == clean
    requires forall j :: 0 <= j < |clean| ==> clean[j] != [] && Strip(clean[j]) == clean[j]
    ensures forall m :: 0 <= m < |gs[k]| ==> gs[k][m] != [] && IsStripped(gs[k][m])
  {
    FlattenMembers(gs, k);
    forall m | 0 <= m < |gs[k]|
      ensures gs[k][m] != [] && IsStripped(gs[k][m])
    {
      assert gs[k][m] in clean;
      var j :| 0 <= j < |clean| && clean[j] == gs[k][m];
      assert IsStripped(Strip(clean[j]));
    }
  }

  // ---------------------------------------------------------------------------
  // text_to_speech_pipeline

  /** The tensors the pipeline collects: a chunk's generated audio, or a silence. */
  datatype AudioPart = Speech(chunk: nat, samples: nat) | Silence(samples: nat)

  /** The speech model, as far as the pipeline sees it: the sample count of the
      audio generated for a chunk (by index and text), or `None` when generation
      failed. */
  type Generate = (nat, string) -> Option<nat>

  /** `int(sample_rate * inter_chunk_silence_ms / 1000.0)` for a positive duration. */
  function SilenceSamples(sampleRate: nat, silenceMs: int): nat
    requires silenceMs > 0
  {
    (sampleRate * silenceMs) / 1000
  }

  /** The parts appended for chunk `k` of `n`. */
  function PartsOf(k: nat, n: nat, audio: Option<nat>, sampleRate: nat, silenceMs: int): seq<AudioPart> {
    if audio.None? then []
    else if k < n - 1 && silenceMs > 0 then [Speech(k, audio.value), Silence(SilenceSamples(sampleRate, silenceMs))]
    else [Speech(k, audio.value)]
  }

  /** The parts collected after the first `i` chunks. */
  function PartsAfter(chunks: seq<string>, gen: Generate, sampleRate: nat, silenceMs: int, i: nat): seq<AudioPart>
    requires i <= |chunks|
  {
    if i == 0 then []
    else (PartsAfter(chunks, gen, sampleRate, silenceMs, i - 1) +
      PartsOf(i - 1, |chunks|, gen(i - 1, chunks[i - 1]), sampleRate, silenceMs))
  }

  /** The indices of the chunks whose generation succeeded, in order. */
  function Succeeded(chunks: seq<string>, gen: Generate, i: nat): seq<nat>
    requires i <= |chunks|
  {
    if i == 0 then []
    else Succeeded(chunks, gen, i - 1) + if gen(i - 1, chunks[i - 1]).Some? then [i - 1] else []
  }

  /** The chunk indices of the speech parts. */
  function SpeechChunks(parts: seq<AudioPart>): seq<nat> {
    if parts == [] then []
    else
      var q := parts[|parts| - 1];
      SpeechChunks(parts[..|parts| - 1]) + if q.Speech? then [q.chunk] else []
  }

  /** Each speech part is the audio generated for one of the first `i` chunks. */
  predicate SpeechFrom(parts: seq<AudioPart>, chunks: seq<string>, gen: Generate, i: nat)
    requires i <= |chunks|
  {
    forall j :: 0 <= j < |parts| && parts[j].Speech? ==>
      parts[j].chunk < i && gen(parts[j].chunk, chunks[parts[j].chunk]) == Some(parts[j].samples)
  }

  /** Each silence has the computed length and follows the speech part of a chunk
      that is not the last of `n`, and only when the silence is positive. */
  predicate SilenceAfterSpeech(parts: seq<AudioPart>, n: nat, sampleRate: nat, silenceMs: int) {
    forall j :: 0 <= j < |parts| && parts[j].Silence? ==>
      0 < j && parts[j - 1].Speech? && parts[j - 1].chunk < n - 1 && silenceMs > 0 &&
      parts[j].samples == SilenceSamples(sampleRate, silenceMs)
  }

  /** With a positive silence, the speech part of a chunk that is not the last of
      `n` is followed by a silence. */
  predicate SpeechFollowed(parts: seq<AudioPart>, n: nat, silenceMs: int) {
    forall j :: 0 <= j < |parts| && parts[j].Speech? && parts[j].chunk < n - 1 && silenceMs > 0 ==>
      j + 1 < |parts| && parts[j + 1].Silence?
  }

  /** The layout of the parts: the speech parts are the successful chunks in order,
      each with its generated length; a silence of the computed length follows a
      speech part exactly when that chunk is not the last and the silence is
      positive; nothing else occurs. */
  predicate WellLaidOut(parts: seq<AudioPart>, chunks: seq<string>, gen: Generate, sampleRate: nat, silenceMs: int, i: nat)
    requires i <= |chunks|
  {
    SpeechChunks(parts) == Succeeded(chunks, gen, i) &&
    SpeechFrom(parts, chunks, gen, i) &&
    SilenceAfterSpeech(parts, |chunks|, sampleRate, silenceMs) &&
    SpeechFollowed(parts, |chunks|, silenceMs)
  }

  lemma StepSpeechFrom(prev: seq<AudioPart>, chunks: seq<string>, gen: Generate, sampleRate: nat, silenceMs: int, i: nat)
    requires 0 < i <= |chunks| && SpeechFrom(prev, chunks, gen, i - 1)
    ensures SpeechFrom(prev + PartsOf(i - 1, |chunks|, gen(i - 1, chunks[i - 1]), sampleRate, silenceMs), chunks, gen, i)
  {
    var parts := prev + PartsOf(i - 1, |chunks|, gen(i - 1, chunks[i - 1]), sampleRate, silenceMs);
    forall j | 0 <= j < |parts| && parts[j].Speech?
      ensures parts[j].chunk < i && gen(parts[j].chunk, chunks[parts[j].chunk]) == Some(parts[j].samples)
    {
      if j < |prev| {
        assert parts[j] == prev[j];
      }
    }
  }

  lemma StepSilence(prev: seq<AudioPart>, n: nat, k: nat, audio: Option<nat>, sampleRate: nat, silenceMs: int)
    requires SilenceAfterSpeech(prev, n, sampleRate, silenceMs)
    ensures SilenceAfterSpeech(prev + PartsOf(k, n, audio, sampleRate, silenceMs), n, sampleRate, silenceMs)
  {
    var parts := prev + PartsOf(k, n, audio, sampleRate, silenceMs);
    forall j | 0 <= j < |parts| && parts[j].Silence?
      ensures 0 < j && parts[j - 1].Speech? && parts[j - 1].chunk < n - 1 && silenceMs > 0 &&
        parts[j].samples == SilenceSamples(sampleRate, silenceMs)
    {
      if j < |prev| {
        assert parts[j] == prev[j] && parts[j - 1] == prev[j - 1];
      } else {
        assert j == |prev| + 1;
      }
    }
  }

  lemma StepFollowed(prev: seq<AudioPart>, n: nat, k: nat, audio: Option<nat>, sampleRate: nat, silenceMs: int)
    requires SpeechFollowed(prev, n, silenceMs)
    ensures SpeechFollowed(prev + PartsOf(k, n, audio, sampleRate, silenceMs), n, silenceMs)
  {
    var parts := prev + PartsOf(k, n, audio, sampleRate, silenceMs);
    forall j | 0 <= j < |parts| && parts[j].Speech? && parts[j].chunk < n - 1 && silenceMs > 0
      ensures j + 1 < |parts| && parts[j + 1].Silence?
    {
      if j < |prev| {
        assert parts[j] == prev[j];
        assert parts[j + 1] == prev[j + 1];
      }
    }
  }

  /** The parts after the first `i` chunks are well laid out, and there are none
      exactly when no generation has succeeded yet. */
  lemma {:induction false} PartsAfterLaidOut(chunks: seq<string>, gen: Generate, sampleRate: nat, silenceMs: int, i: nat)
    requires i <= |chunks|
    ensures WellLaidOut(PartsAfter(chunks, gen, sampleRate, silenceMs, i), chunks, gen, sampleRate, silenceMs, i)
    ensures PartsAfter(chunks, gen, sampleRate, silenceMs, i) == [] <==> Succeeded(chunks, gen, i) == []
  {
    if i > 0 {
      PartsAfterLaidOut(chunks, gen, sampleRate, silenceMs, i - 1);
      var prev := PartsAfter(chunks, gen, sampleRate, silenceMs, i - 1);
      var audio := gen(i - 1, chunks[i - 1]);
      var add := PartsOf(i - 1, |chunks|, audio, sampleRate, silenceMs);
      assert PartsAfter(chunks, gen, sampleRate, silenceMs, i) == prev + add;
      SpeechChunksAppend(prev, add);
      StepSpeechFrom(prev, chunks, gen, sampleRate, silenceMs, i);
      StepSilence(prev, |chunks|, i - 1, audio, sampleRate, silenceMs);
      StepFollowed(prev, |chunks|, i - 1, audio, sampleRate, silenceMs);
      SpeechChunksEmpty(prev, |chunks|, sampleRate, silenceMs);
    }
  }

  lemma SpeechChunksAppend(a: seq<AudioPart>, b: seq<AudioPart>)
    requires |b| <= 2 && (b != [] ==> b[0].Speech?) && (|b| == 2 ==> b[1].Silence?)
    ensures SpeechChunks(a + b) == SpeechChunks(a) + if b == [] then [] else [b[0].chunk]
  {
    if b == [] {
      assert a + b == a;
    } else {
      var x := b[0];
      assert (a + [x])[..|a|] == a;
      assert SpeechChunks(a + [x]) == SpeechChunks(a) + [x.chunk];
      if |b| == 2 {
        assert (a + b)[..|a| + 1] == a + [x];
        assert (a + b)[|a| + 1] == b[1];
      } else {
        assert a + b == a + [x];
      }
    }
  }

  /** When every silence follows a speech part, there are speech parts whenever
      there are parts at all. */
  lemma SpeechChunksEmpty(parts: seq<AudioPart>, n: nat, sampleRate: nat, silenceMs: int)
    requires SilenceAfterSpeech(parts, n, sampleRate, silenceMs)
    ensures SpeechChunks(parts) == [] <==> parts == []
  {
    if parts != [] {
      var j := |parts| - 1;
      if parts[j].Speech? {
        SpeechOccurs(parts, j);
      } else {
        SpeechOccurs(parts, j - 1);
      }
    }
  }

  lemma {:induction false} SpeechOccurs(parts: seq<AudioPart>, j: nat)
    requires j < |parts| && parts[j].Speech?
    ensures parts[j].chunk in SpeechChunks(parts)
  {
    var p := parts[..|parts| - 1];
    if j < |parts| - 1 {
      SpeechOccurs(p, j);
      assert p[j] == parts[j];
    }
  }

  /** What `text_to_speech_pipeline` returns: `None` when there is no chunk or no
      audio at all, otherwise the parts to concatenate. */
  function PipelineResult(chunks: seq<string>, gen: Generate, sampleRate: nat, silenceMs: int): Option<seq<AudioPart>> {
    if chunks == [] then None
    else
      var parts := PartsAfter(chunks, gen, sampleRate, silenceMs, |chunks|);
      if parts == [] then None else Some(parts)
  }

  /** The loop of `text_to_speech_pipeline` over the chunks. */
  method Pipeline(chunks: seq<string>, gen: Generate, sampleRate: nat, silenceMs: int) returns (audio: Option<seq<AudioPart>>)
    ensures audio == PipelineResult(chunks, gen, sampleRate, silenceMs)
  {
    if chunks == [] {
      return None;
    }
    var parts: seq<AudioPart> := [];
    for i := 0 to |chunks|
      invariant parts == PartsAfter(chunks, gen, sampleRate, silenceMs, i)
    {
      var chunkAudio := gen(i, chunks[i]);
      if chunkAudio.Some? {
        parts := parts + [Speech(i, chunkAudio.value)];
        if i < |chunks| - 1 && silenceMs > 0 {
          parts := parts + [Silence(SilenceSamples(sampleRate, silenceMs))];
        }
      }
    }
    if parts == [] {
      return None;
    }
    audio := Some(parts);
  }

  /** `text_to_speech_pipeline`: chunk the text, then generate and lay out. */
  method TextToSpeechPipeline(text: string, max: int, tokenized: Option<seq<string>>, gen: Generate, sampleRate: nat, silenceMs: int)
    returns (audio: Option<seq<AudioPart>>)
    ensures audio == PipelineResult(SplitChunks(text, max, tokenized), gen, sampleRate, silenceMs)
  {
    var chunks := SplitTextIntoChunks(text, max, tokenized);
    audio := Pipeline(chunks, gen, sampleRate, silenceMs);
  }

  /** The pipeline fails exactly when there is no chunk or every generation
      failed; otherwise its parts are well laid out. */
  lemma PipelineSpec(chunks: seq<string>, gen: Generate, sampleRate: nat, silenceMs: int)
    ensures PipelineResult(chunks, gen, sampleRate, silenceMs).None? <==>
      chunks == [] || Succeeded(chunks, gen, |chunks|) == []
    ensures PipelineResult(chunks, gen, sampleRate, silenceMs).Some? ==>
      WellLaidOut(PipelineResult(chunks, gen, sampleRate, silenceMs).value, chunks, gen, sampleRate, silenceMs, |chunks|)
  {
    PartsAfterLaidOut(chunks, gen, sampleRate, silenceMs, |chunks|);
  }
}
