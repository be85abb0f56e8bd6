/** The list and timeline logic of `tts.py` around the Azure speech service:
    `ms_to_vtt`, the word-boundary handler that records one item per event, and
    the cue list `synthesize_speech` writes to `subtitle.vtt`. The service itself
    is left out; its boundary events are the input here. */
module AzureTts {
  import opened Results
  import opened Text
  import opened Numeric
  import opened Timeline
  import opened WebVtt
  import opened VttWriter

  // ---------------------------------------------------------------- ms_to_vtt

  /** Hours, minutes, seconds and milliseconds of a millisecond count. */
  datatype ClockFields = ClockFields(h: int, m: int, s: int, ms: int)

  /** The fields `ms_to_vtt` computes with Python's floor `//` and `%` (which agree
      with Dafny's for a positive divisor): the only split of `n` with minutes and
      seconds below 60 and milliseconds below 1000. */
  function SplitMs(n: int): (f: ClockFields)
    ensures f.h * 3600000 + f.m * 60000 + f.s * 1000 + f.ms == n
    ensures 0 <= f.m < 60 && 0 <= f.s < 60 && 0 <= f.ms < 1000
    ensures n >= 0 ==> f.h >= 0
    ensures n < 360000000 ==> f.h < 100
  {
    var h := n / 3600000;
    var r := n % 3600000;
    var m := r / 60000;
    var r2 := r % 60000;
    ClockFields(h, m, r2 / 1000, r2 % 1000)
  }

  /** The four formatted fields of `f"{h:02d}:{m:02d}:{s:02d}.{ms:03d}"`. */
  function VttClock(n: int): Clock {
    var f := SplitMs(n);
    Clock(FormatInt(f.h, 2), FormatInt(f.m, 2), FormatInt(f.s, 2), FormatInt(f.ms, 3))
  }

  /** `ms_to_vtt`. */
  function MsToVtt(n: int): string {
    ClockText(VttClock(n))
  }

  /** `n` milliseconds in seconds. */
  function MsToSeconds(n: int): real {
    n as real / 1000.0
  }

  /** A well-formed clock whose fields amount to `n` milliseconds. */
  predicate Denotes(c: Clock, n: int) {
    WellFormed(c) &&
    DigitsValue(c.hh) * 3600000 + DigitsValue(c.mm) * 60000 + DigitsValue(c.ss) * 1000 + DigitsValue(c.ff) == n
  }

  /** Below 100 hours the stamp's fields are two, two, two and three digits that
      amount to exactly `n` milliseconds. */
  lemma VttClockDenotes(n: int)
    requires 0 <= n < 360000000
    ensures Denotes(VttClock(n), n)
  {
    var f := SplitMs(n);
    PaddedField(f.h, 2);
    PaddedField(f.m, 2);
    PaddedField(f.s, 2);
    PaddedField(f.ms, 3);
  }

  /** A field below `10^width` formats as exactly `width` digits that read back as it. */
  lemma PaddedField(v: int, width: nat)
    requires 0 <= v && 1 <= width <= 3 && v < Pow10(width)
    ensures |FormatInt(v, width)| == width && AllDigits(FormatInt(v, width)) && DigitsValue(FormatInt(v, width)) == v
  {
    ZeroPadExact(v, width);
    ZeroPadValue(v, width);
  }

  /** Such a clock denotes `n / 1000` seconds. */
  lemma DenotesSeconds(c: Clock, n: int)
    requires Denotes(c, n)
    ensures Seconds(c) == MsToSeconds(n)
  {
    MillisToSeconds(DigitsValue(c.hh), DigitsValue(c.mm), DigitsValue(c.ss), DigitsValue(c.ff), n);
  }

  lemma MillisToSeconds(h: int, m: int, s: int, ms: int, n: int)
    requires h * 3600000 + m * 60000 + s * 1000 + ms == n
    ensures h as real * 3600.0 + m as real * 60.0 + s as real + ms as real / 1000.0 == n as real / 1000.0
  {
    assert n as real == h as real * 3600000.0 + m as real * 60000.0 + s as real * 1000.0 + ms as real;
  }

  /** Below 100 hours the stamp is well formed and denotes exactly `n` milliseconds. */
  lemma MsToVttClock(n: int)
    requires 0 <= n < 360000000
    ensures WellFormed(VttClock(n)) && Seconds(VttClock(n)) == MsToSeconds(n)
  {
    VttClockDenotes(n);
    DenotesSeconds(VttClock(n), n);
  }

  /** Below 100 hours the stamp is twelve characters, `HH:MM:SS.mmm`. */
  lemma MsToVttLength(n: int)
    requires 0 <= n < 360000000
    ensures |MsToVtt(n)| == 12
  {
    VttClockDenotes(n);
    ClockChars(VttClock(n));
  }

  /** The reader of `WebVtt` reads a stamp below 100 hours back as `n / 1000` seconds. */
  lemma MsToVttParses(n: int)
    requires 0 <= n < 360000000
    ensures ParseVttTimestamp(MsToVtt(n)) == Ok(MsToSeconds(n))
  {
    VttClockDenotes(n);
    DenotesSeconds(VttClock(n), n);
    ClockValueIs(VttClock(n), MsToSeconds(n));
  }

  /** From 100 hours on, the hours field has three digits and the reader rejects the stamp. */
  lemma MsToVttLongHours(n: int)
    requires n >= 360000000
    ensures ParseVttTimestamp(MsToVtt(n)).Err?
  {
    var f := SplitMs(n);
    var c := VttClock(n);
    assert f.h >= 100;
    NatToStringLength3(f.h);
    assert c.hh == ZeroPad(f.h, 2);
    assert MsToVtt(n) == c.hh + ":" + (c.mm + ":" + c.ss + "." + c.ff);
    RejectLongHours(c.hh, c.mm + ":" + c.ss + "." + c.ff);
  }

  lemma {:induction false} NatToStringLength3(v: nat)
    requires v >= 100
    ensures |NatToString(v)| >= 3
  {
    if v >= 1000 {
      NatToStringLength3(v / 10);
    } else {
      assert NatToString(v) == NatToString(v / 10) + [DigitChar(v % 10)];
      assert NatToString(v / 10) == NatToString(v / 100) + [DigitChar(v / 10 % 10)];
    }
  }

  // ---------------------------------------------------------------- word boundaries

  /** What the handler reads from a word-boundary event: the audio offset in
      100-nanosecond ticks, and the attributes it reads with `getattr(..., None)`. */
  datatype BoundaryEvent = BoundaryEvent(audioOffset: int, boundaryType: Option<string>,
                                         textOffset: Option<int>, wordLength: Option<int>)

  /** One item of `word_boundaries`. */
  datatype WordBoundary = WordBoundary(startMs: int, textOffset: Option<int>, wordLength: Option<int>,
                                       word: Option<string>, boundaryType: Option<string>)

  /** `int(audio_offset / 10_000)`: ticks to whole milliseconds. */
  function StartMs(ticks: int): int {
    Trunc(ticks as real / 10000.0)
  }

  /** For a non-negative offset that is the integer quotient. */
  lemma StartMsOfTicks(ticks: int)
    requires ticks >= 0
    ensures StartMs(ticks) == ticks / 10000
  {
    var q, r := ticks / 10000, ticks % 10000;
    assert ticks as real / 10000.0 == q as real + r as real / 10000.0;
    assert 0.0 <= r as real / 10000.0 < 1.0;
  }

  /** Where Python's slice index `i` lands in a string of length `n`. */
  function SliceIndex(i: int, n: nat): (k: nat)
    ensures k <= n
  {
    if i < 0 then (if i + n < 0 then 0 else i + n) else if i > n then n else i
  }

  /** `s[a:b]`, which never fails for integer bounds. */
  function Slice(s: string, a: int, b: int): (t: string)
    ensures |t| <= |s|
  {
    var i, j := SliceIndex(a, |s|), SliceIndex(b, |s|);
    if i < j then s[i..j] else []
  }

  /** The recorded word: the slice of the spoken text when both offset and length
      are present, `None` otherwise. */
  function WordOf(text: string, offset: Option<int>, length: Option<int>): Option<string> {
    if offset.Some? && length.Some? then Some(Slice(text, offset.value, offset.value + length.value)) else None
  }

  /** For an offset and length inside the text the word is that span of it. */
  lemma WordInside(text: string, offset: int, length: int)
    requires 0 <= offset && 0 <= length && offset + length <= |text|
    ensures WordOf(text, Some(offset), Some(length)) == Some(text[offset..offset + length])
    ensures |WordOf(text, Some(offset), Some(length)).value| == length
  {
  }

  /** A missing offset or length records no word. */
  lemma WordMissing(text: string, offset: Option<int>, length: Option<int>)
    requires offset.None? || length.None?
    ensures WordOf(text, offset, length) == None
  {
  }

  /** The item one event records. */
  function Record(text: string, evt: BoundaryEvent): WordBoundary {
    WordBoundary(StartMs(evt.audioOffset), evt.textOffset, evt.wordLength,
                 WordOf(text, evt.textOffset, evt.wordLength), evt.boundaryType)
  }

  /** The `word_boundaries` list the handler closure appends to, with the text it
      was made for. */
  class WordBoundaryLog {
    const text: string
    var items: seq<WordBoundary>

    /** `make_word_boundary_handler(word_boundaries, text)` with an empty list. */
    constructor(text: string)
      ensures this.text == text && items == []
    {
      this.text := text;
      items := [];
    }

    /** `on_word_boundary`: exactly one item per event, at the end. */
    method OnWordBoundary(evt: BoundaryEvent)
      modifies this
      ensures items == old(items) + [Record(text, evt)]
    {
      var startMs := StartMs(evt.audioOffset);
      var word: Option<string> := None;
      if evt.textOffset.Some? && evt.wordLength.Some? {
        word := Some(Slice(text, evt.textOffset.value, evt.textOffset.value + evt.wordLength.value));
      }
      items := items + [WordBoundary(startMs, evt.textOffset, evt.wordLength, word, evt.boundaryType)];
    }
  }

  /** A run of events leaves one record per event, in event order. */
  method RecordAll(log: WordBoundaryLog, events: seq<BoundaryEvent>)
    modifies log
    ensures |log.items| == |old(log.items)| + |events|
    ensures log.items[..|old(log.items)|] == old(log.items)
    ensures forall i :: 0 <= i < |events| ==> log.items[|old(log.items)| + i] == Record(log.text, events[i])
  {
    var k := 0;
    while k < |events|
      invariant 0 <= k <= |events|
      invariant |log.items| == |old(log.items)| + k
      invariant log.items[..|old(log.items)|] == old(log.items)
      invariant forall i :: 0 <= i < k ==> log.items[|old(log.items)| + i] == Record(log.text, events[i])
    {
      log.OnWordBoundary(events[k]);
      k := k + 1;
    }
  }

  // ---------------------------------------------------------------- subtitle.vtt

  /** The end of cue `i`: the next boundary's start, or 200 ms after its own start
      for the last one. */
  function CueEnd(items: seq<WordBoundary>, i: nat): int
    requires i < |items|
  {
    if i + 1 < |items| then items[i + 1].startMs else items[i].startMs + 200
  }

  /** `item.get("word") or ""`. */
  function TokenText(item: WordBoundary): string {
    if item.word.Some? then item.word.value else ""
  }

  /** The cues the loop writes, numbered from 1. */
  function Cues(items: seq<WordBoundary>): (cs: seq<Cue>)
    ensures |cs| == |items|
  {
    seq(|items|, i requires 0 <= i < |items| => CueOf(items, i))
  }

  function CueOf(items: seq<WordBoundary>, i: nat): Cue
    requires i < |items|
  {
    Cue(i + 1, VttClock(items[i].startMs), VttClock(CueEnd(items, i)), TokenText(items[i]))
  }

  /** The `lines` list of `synthesize_speech`'s cue loop. */
  method VttLines(items: seq<WordBoundary>) returns (lines: seq<string>)
    ensures lines == DocumentLines(Cues(items))
  {
    lines := ["WEBVTT", ""];
    var i := 0;
    assert Cues(items)[..0] == [];
    while i < |items|
      invariant 0 <= i <= |items|
      invariant lines == DocumentLines(Cues(items)[..i])
    {
      var block := CueBlock(items, i);
      LinesAt(Cues(items), i);
      lines := lines + block;
      i := i + 1;
    }
    assert Cues(items)[..i] == Cues(items);
  }

  /** One pass of the loop body: the id, the timing line from this start to the next
      (or 200 ms on), the word, and a blank line, which is the layout of cue `i`. */
  method CueBlock(items: seq<WordBoundary>, i: nat) returns (block: seq<string>)
    requires i < |items|
    ensures block == CueLines(Cues(items)[i])
  {
    var start := items[i].startMs;
    var end := if i + 1 < |items| then items[i + 1].startMs else start + 200;
    var token := TokenText(items[i]);
    block := [NatToString(i + 1), MsToVtt(start) + " --> " + MsToVtt(end), token, ""];
    ghost var c := Cues(items)[i];
    assert c == CueOf(items, i);
    assert end == CueEnd(items, i);
    assert c.start == VttClock(start) && c.end == VttClock(end) && c.text == token && c.id == i + 1;
    assert block[1] == TimingLine(c);
  }

  lemma LinesAt(cues: seq<Cue>, i: nat)
    requires i < |cues|
    ensures DocumentLines(cues[..i + 1]) == DocumentLines(cues[..i]) + CueLines(cues[i])
  {
    BlocksSnoc(cues, i);
    assert ["WEBVTT", ""] + (Blocks(cues[..i]) + CueLines(cues[i])) == (["WEBVTT", ""] + Blocks(cues[..i])) + CueLines(cues[i]);
  }

  lemma BlocksSnoc(cues: seq<Cue>, i: nat)
    requires i < |cues|
    ensures Blocks(cues[..i + 1]) == Blocks(cues[..i]) + CueLines(cues[i])
  {
    assert cues[..i + 1][..i] == cues[..i];
  }

  /** Boundaries the round trip applies to: non-negative starts below 100 hours
      (leaving room for the last cue's extra 200 ms) and words on one line. */
  predicate Readable(items: seq<WordBoundary>) {
    forall i :: 0 <= i < |items| ==>
      0 <= items[i].startMs < 360000000 - 200 && NoLineBreak(TokenText(items[i]))
  }

  /** The caption the reader makes of boundary `i`: its word stripped, timed from
      its start to the next start (or +200 ms), in seconds; none for a blank word. */
  function Heard(items: seq<WordBoundary>, i: nat): seq<TimedText>
    requires i < |items|
  {
    var w := Strip(TokenText(items[i]));
    if w == [] then [] else [TimedText(w, MsToSeconds(items[i].startMs), MsToSeconds(CueEnd(items, i)))]
  }

  function HeardUpTo(items: seq<WordBoundary>, k: nat): seq<TimedText>
    requires k <= |items|
  {
    if k == 0 then [] else HeardUpTo(items, k - 1) + Heard(items, k - 1)
  }

  /** Reading `subtitle.vtt` back with `parse_webvtt_to_captions` gives one caption
      per boundary with a non-blank word, in order, timed in seconds. */
  lemma VttReadsBack(items: seq<WordBoundary>)
    requires Readable(items)
    ensures AllWritable(Cues(items))
    ensures ParseWebVtt(Document(Cues(items))) == Ok(HeardUpTo(items, |items|))
  {
    CuesWritable(items);
    ReadsBack(Cues(items));
    KeptIsHeard(items, |items|);
    assert Cues(items)[..|items|] == Cues(items);
  }

  lemma CuesWritable(items: seq<WordBoundary>)
    requires Readable(items)
    ensures AllWritable(Cues(items))
  {
    forall i | 0 <= i < |items|
      ensures Writable(Cues(items)[i])
    {
      VttClockDenotes(items[i].startMs);
      VttClockDenotes(CueEnd(items, i));
    }
  }

  lemma {:induction false} KeptIsHeard(items: seq<WordBoundary>, k: nat)
    requires Readable(items) && k <= |items| && AllWritable(Cues(items))
    ensures AllWritable(Cues(items)[..k])
    ensures AllKept(Cues(items)[..k]) == HeardUpTo(items, k)
  {
    var cues := Cues(items);
    PrefixWritable(cues, k);
    if k > 0 {
      KeptIsHeard(items, k - 1);
      AllKeptSnoc(cues, k - 1);
      CueHeard(items, k - 1);
    }
  }

  lemma PrefixWritable(cues: seq<Cue>, k: nat)
    requires AllWritable(cues) && k <= |cues|
    ensures AllWritable(cues[..k])
  {
  }

  lemma CueHeard(items: seq<WordBoundary>, i: nat)
    requires Readable(items) && i < |items|
    ensures Writable(Cues(items)[i]) && Kept(Cues(items)[i]) == Heard(items, i)
  {
    var c := CueOf(items, i);
    var s, e := items[i].startMs, CueEnd(items, i);
    assert c == Cues(items)[i];
    VttClockDenotes(s);
    VttClockDenotes(e);
    KeptOf(c, s, e);
  }

  /** The caption a cue whose clocks denote `s` and `e` milliseconds reads back as. */
  lemma KeptOf(c: Cue, s: int, e: int)
    requires Denotes(c.start, s) && Denotes(c.end, e) && NoLineBreak(c.text)
    ensures Writable(c)
    ensures Kept(c) == if Strip(c.text) == [] then [] else [TimedText(Strip(c.text), MsToSeconds(s), MsToSeconds(e))]
  {
    DenotesSeconds(c.start, s);
    DenotesSeconds(c.end, e);
  }
}
