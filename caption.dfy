/**
 * The subtitle segmentation engine of `app/services/caption.py`: the
 * punctuation classifier, the English word packer, the international
 * sentence splitter and the overlap clamp both of them end with.
 */
module Caption {
  import opened Results
  import opened Text
  import opened Timeline

  // ================================================================ punctuation

  /** `unicodedata.category(c).startswith("P")`: the Unicode database is not modelled. */
  type PunctCategory = char -> bool

  /** `string.punctuation`. */
  const AsciiPunctuation: string := "!\"#$%&'()*+,-./" + ":;<=>?@" + "[\\]^_`" + "{|}~"

  /** The extra full-width and CJK marks `is_punctuation` accepts. */
  const ExtraCjkPunctuation: string :=
    "，。、！？；：【】《" + "》（）——…“”‘’、" + "～·「」『』〔〕￥＄" + "％＠＃＊—－‥︰︱︳" + "︴︵︶︷︸︹︺︻︼︽" + "︾︿﹀﹁﹂﹃﹄"

  predicate IsPunctChar(c: char, isP: PunctCategory) {
    isP(c) || c in AsciiPunctuation || c in ExtraCjkPunctuation
  }

  /** The character loop of `is_punctuation`: stops at the first space or non-punctuation character. */
  function AllPunct(text: string, isP: PunctCategory): bool {
    if text == [] then true
    else if IsSpace(text[0]) then false
    else if IsPunctChar(text[0], isP) then AllPunct(text[1..], isP)
    else false
  }

  /** `Caption.is_punctuation`: a token made only of punctuation marks. */
  function IsPunctuation(text: string, isP: PunctCategory): bool {
    text != [] && AllPunct(text, isP)
  }

  lemma {:induction false} AllPunctIff(text: string, isP: PunctCategory)
    ensures AllPunct(text, isP) <==>
      forall i :: 0 <= i < |text| ==> !IsSpace(text[i]) && IsPunctChar(text[i], isP)
  {
    if text != [] {
      AllPunctIff(text[1..], isP);
      assert forall i :: 1 <= i < |text| ==> text[i] == text[1..][i - 1];
    }
  }

  /** A token is punctuation exactly when it is non-empty and every character is a non-space mark. */
  lemma IsPunctuationIff(text: string, isP: PunctCategory)
    ensures IsPunctuation(text, isP) <==>
      text != [] && forall i :: 0 <= i < |text| ==> !IsSpace(text[i]) && IsPunctChar(text[i], isP)
  {
    AllPunctIff(text, isP);
  }

  /** The accepting cases of `tests/test_caption.py`: full-width marks and runs of ASCII marks. */
  lemma PunctuationAccepted(isP: PunctCategory)
    ensures IsPunctuation("，", isP) && IsPunctuation("。", isP) && IsPunctuation("!?", isP)
  {
    assert ExtraCjkPunctuation[0] == '，' && ExtraCjkPunctuation[1] == '。';
    MarkAccepted('，', isP);
    MarkAccepted('。', isP);
    assert "!\"#$%&'()*+,-./"[0] == '!' && ":;<=>?@"[5] == '?';
    MarkAccepted('?', isP);
    MarkPrepended('!', "?", isP);
    assert ['!'] + "?" == "!?";
  }

  /** A single listed mark that is not a space is a punctuation token. */
  lemma MarkAccepted(c: char, isP: PunctCategory)
    requires (c in AsciiPunctuation || c in ExtraCjkPunctuation) && !IsSpace(c)
    ensures IsPunctuation([c], isP)
  {
    assert [c][1..] == [];
  }

  /** A listed mark in front of a punctuation token keeps it one. */
  lemma MarkPrepended(c: char, rest: string, isP: PunctCategory)
    requires (c in AsciiPunctuation || c in ExtraCjkPunctuation) && !IsSpace(c)
    requires IsPunctuation(rest, isP)
    ensures IsPunctuation([c] + rest, isP)
  {
    assert ([c] + rest)[1..] == rest;
  }

  /** The rejecting cases: letters, the empty token and a token holding a space. */
  lemma PunctuationRejected(isP: PunctCategory)
    requires !isP('A') && !isP('\U{554A}')
    ensures !IsPunctuation("A", isP) && !IsPunctuation("\U{554A}", isP) && !IsPunctuation("", isP)
    ensures !IsPunctuation(", ", isP)
  {
    assert ", "[1..] == " ";
    NotAMark('A');
    NotAMark('\U{554A}');
  }

  lemma NotAMark(c: char)
    requires c == 'A' || c == '\U{554A}'
    ensures c !in AsciiPunctuation && c !in ExtraCjkPunctuation
  {
    if c == 'A' {
      AsciiHasNoA();
      ExtraHasNoA();
    } else {
      AsciiHasNoIdeograph();
      ExtraHasNoIdeograph();
    }
  }

  lemma AsciiHasNoA() ensures 'A' !in AsciiPunctuation {}
  lemma ExtraHasNoA() ensures 'A' !in ExtraCjkPunctuation {}
  lemma AsciiHasNoIdeograph() ensures '\U{554A}' !in AsciiPunctuation {}
  lemma ExtraHasNoIdeograph() ensures '\U{554A}' !in ExtraCjkPunctuation {}

  // ================================================================ overlap clamp

  /**
   * The post-pass both segmenters end with: a segment that ends at or after
   * the next one starts is cut back to 0.05 s before that start.
   */
  function Clamped(segs: seq<Segment>): (r: seq<Segment>)
    ensures |r| == |segs|
  {
    seq(|segs|, i requires 0 <= i < |segs| => ClampAt(segs, i))
  }

  /** Segment `i` after the clamp. */
  function ClampAt(segs: seq<Segment>, i: nat): Segment
    requires i < |segs|
  {
    if i + 1 < |segs| && segs[i].endTs >= segs[i + 1].startTs
    then segs[i].(endTs := segs[i + 1].startTs - 0.05)
    else segs[i]
  }

  lemma ClampedOfEach(segs: seq<Segment>, r: seq<Segment>)
    requires |r| == |segs| && forall k :: 0 <= k < |r| ==> r[k] == ClampAt(segs, k)
    ensures r == Clamped(segs)
  {
  }

  /** The clamp moves nothing but ends: texts and starts are kept, and so is the last segment. */
  lemma ClampedKeeps(segs: seq<Segment>)
    ensures var r := Clamped(segs);
      && (forall i :: 0 <= i < |r| ==> r[i].text == segs[i].text && r[i].startTs == segs[i].startTs)
      && (|r| > 0 ==> r[|r| - 1] == segs[|segs| - 1])
  {
  }

  /** After the clamp every segment ends before the next one starts. */
  lemma ClampedNoOverlap(segs: seq<Segment>)
    ensures var r := Clamped(segs);
      forall i :: 0 <= i < |r| - 1 ==> r[i].endTs < r[i + 1].startTs
  {
    var r := Clamped(segs);
    forall i | 0 <= i < |r| - 1
      ensures r[i].endTs < r[i + 1].startTs
    {
      assert r[i + 1].startTs == segs[i + 1].startTs;
    }
  }

  /** Only an end at or after the next start moves, and it moves to 0.05 s before that start. */
  lemma ClampedMovesOnlyOverlaps(segs: seq<Segment>)
    ensures var r := Clamped(segs);
      forall i :: 0 <= i < |r| - 1 ==>
        r[i].endTs == (if segs[i].endTs >= segs[i + 1].startTs then segs[i + 1].startTs - 0.05 else segs[i].endTs)
  {
  }

  /** The post-pass loop, in place over the segment list. */
  method ClampOverlaps(segs: seq<Segment>) returns (r: seq<Segment>)
    ensures r == Clamped(segs)
  {
    r := segs;
    var i := 0;
    while i + 1 < |r|
      invariant |r| == |segs|
      invariant 0 <= i && (|segs| > 0 ==> i < |segs|)
      invariant forall k :: 0 <= k < i && k < |r| ==> r[k] == ClampAt(segs, k)
      invariant forall k :: i <= k < |r| ==> r[k] == segs[k]
    {
      if r[i].endTs >= r[i + 1].startTs {
        r := r[i := r[i].(endTs := r[i + 1].startTs - 0.05)];
      }
      i := i + 1;
    }
    ClampedOfEach(segs, r);
  }

  /**
   * The clamp does not keep `start < end`: a segment starting less than
   * 0.05 s before the next one ends up with its end before its start.
   */
  lemma ClampCanInvert()
    ensures var r := Clamped([Segment([], 1.0, 2.0), Segment([], 1.02, 3.0)]);
      r[0].startTs == 1.0 && r[0].endTs == 0.97 && r[0].endTs < r[0].startTs
  {
  }

  // ================================================================ English segmenter

  /** The loop state of `create_subtitle_segments_english`. */
  datatype PackState = PackState(
    segments: seq<Segment>,  // segments already emitted
    texts: seq<string>,      // the lines of the segment being filled
    line: nat,               // the line receiving words
    startTs: real,
    endTs: real)

  function BlankLines(lines: nat): (r: seq<string>)
    ensures |r| == lines && forall i :: 0 <= i < lines ==> r[i] == []
  {
    seq(lines, _ => [])
  }

  /** Every segment has `lines` lines, and the lines after the cursor are still empty. */
  predicate PackInv(s: PackState, lines: nat) {
    && |s.texts| == lines
    && s.line <= lines
    && (forall j :: s.line < j < lines ==> s.texts[j] == [])
    && (forall k :: 0 <= k < |s.segments| ==> |s.segments[k].text| == lines)
  }

  function InitState(first: TimedText, lines: nat): (s: PackState)
    ensures PackInv(s, lines)
  {
    PackState([], BlankLines(lines), 0, first.startTs, first.endTs)
  }

  /** One iteration of the loop over the captions. */
  function PackStep(s: PackState, tok: TimedText, maxLength: int, lines: nat, isP: PunctCategory): (r: PackState)
    requires PackInv(s, lines)
    ensures PackInv(r, lines)
  {
    if IsPunctuation(tok.text, isP) then PunctStep(s.(endTs := tok.endTs), tok, lines)
    else WordStep(s.(endTs := tok.endTs), tok, maxLength, lines)
  }

  /** A punctuation token is glued to the current line when that line has text. */
  function PunctStep(s: PackState, tok: TimedText, lines: nat): (r: PackState)
    requires PackInv(s, lines)
    ensures PackInv(r, lines)
  {
    if s.line < lines && s.texts[s.line] != [] then s.(texts := s.texts[s.line := s.texts[s.line] + tok.text])
    else s
  }

  /** A word token moves to the next line when it does not fit, emitting the segment when the lines run out. */
  function WordStep(s: PackState, tok: TimedText, maxLength: int, lines: nat): (r: PackState)
    requires PackInv(s, lines)
    ensures PackInv(r, lines)
  {
    var line := if s.line < lines && |s.texts[s.line] + tok.text| > maxLength then s.line + 1 else s.line;
    var s :=
      if line >= lines then PackState(s.segments + [Segment(s.texts, s.startTs, s.endTs)], BlankLines(lines), 0, tok.startTs + 0.05, s.endTs)
      else s.(line := line);
    if s.line < lines then
      s.(texts := s.texts[s.line := s.texts[s.line] + (if s.texts[s.line] != [] then " " else "") + tok.text])
    else s
  }

  /** The state after the loop has consumed `toks`. */
  function Pack(init: PackState, toks: seq<TimedText>, maxLength: int, lines: nat, isP: PunctCategory): (r: PackState)
    requires PackInv(init, lines)
    ensures PackInv(r, lines)
  {
    if toks == [] then init
    else PackStep(Pack(init, toks[..|toks| - 1], maxLength, lines, isP), toks[|toks| - 1], maxLength, lines, isP)
  }

  lemma PackSnoc(init: PackState, toks: seq<TimedText>, i: nat, maxLength: int, lines: nat, isP: PunctCategory)
    requires PackInv(init, lines) && i < |toks|
    ensures Pack(init, toks[..i + 1], maxLength, lines, isP)
      == PackStep(Pack(init, toks[..i], maxLength, lines, isP), toks[i], maxLength, lines, isP)
  {
    assert toks[..i + 1][..i] == toks[..i];
  }

  predicate AnyNonEmpty(texts: seq<string>) {
    exists j :: 0 <= j < |texts| && texts[j] != []
  }

  /** The segments after the loop: the unfinished one is kept when any of its lines has text. */
  function Flush(s: PackState): seq<Segment> {
    if AnyNonEmpty(s.texts) then s.segments + [Segment(s.texts, s.startTs, s.endTs)] else s.segments
  }

  /** What `create_subtitle_segments_english` returns. */
  function SegmentsEnglish(captions: seq<TimedText>, maxLength: int, lines: nat, isP: PunctCategory): seq<Segment> {
    if captions == [] then []
    else Clamped(Flush(Pack(InitState(captions[0], lines), captions, maxLength, lines, isP)))
  }

  /** `Caption.create_subtitle_segments_english`. */
  method CreateSubtitleSegmentsEnglish(captions: seq<TimedText>, maxLength: int, lines: nat, isP: PunctCategory)
    returns (segments: seq<Segment>)
    ensures segments == SegmentsEnglish(captions, maxLength, lines, isP)
  {
    if captions == [] {
      return [];
    }
    var init := InitState(captions[0], lines);
    var st := init;
    var i := 0;
    while i < |captions|
      invariant 0 <= i <= |captions|
      invariant st == Pack(init, captions[..i], maxLength, lines, isP)
    {
      PackSnoc(init, captions, i, maxLength, lines, isP);
      st := PackToken(st, captions[i], maxLength, lines, isP);
      i := i + 1;
    }
    assert captions[..i] == captions;
    segments := st.segments;
    if AnyNonEmpty(st.texts) {
      segments := segments + [Segment(st.texts, st.startTs, st.endTs)];
    }
    segments := ClampOverlaps(segments);
  }

  /** One pass of the loop body: the packer's variables before and after one caption. */
  method PackToken(s: PackState, tok: TimedText, maxLength: int, lines: nat, isP: PunctCategory) returns (r: PackState)
    requires PackInv(s, lines)
    ensures r == PackStep(s, tok, maxLength, lines, isP)
  {
    var segments, texts, line, startTs := s.segments, s.texts, s.line, s.startTs;
    var endTs := tok.endTs;
    if IsPunctuation(tok.text, isP) {
      if line < lines && texts[line] != [] {
        texts := texts[line := texts[line] + tok.text];
      }
    } else {
      if line < lines && |texts[line] + tok.text| > maxLength {
        line := line + 1;
      }
      if line >= lines {
        segments := segments + [Segment(texts, startTs, endTs)];
        texts := BlankLines(lines);
        line := 0;
        startTs := tok.startTs + 0.05;
      }
      if line < lines {
        texts := texts[line := texts[line] + (if texts[line] != [] then " " else "") + tok.text];
      }
    }
    r := PackState(segments, texts, line, startTs, endTs);
  }

  // ---------------------------------------------------------------- what the packer keeps

  /** All the text of a segment list, line after line, segment after segment. */
  function AllText(segs: seq<Segment>): string {
    if segs == [] then [] else AllText(segs[..|segs| - 1]) + Concat(segs[|segs| - 1].text)
  }

  /** Everything the packer holds: the emitted segments, then the lines being filled. */
  function Flat(s: PackState): string {
    AllText(s.segments) + Concat(s.texts)
  }

  lemma AllTextSnoc(segs: seq<Segment>, x: Segment)
    ensures AllText(segs + [x]) == AllText(segs) + Concat(x.text)
  {
    assert (segs + [x])[..|segs|] == segs;
  }

  lemma {:induction false} ConcatBlank(n: nat)
    ensures Concat(BlankLines(n)) == []
  {
    if n > 0 {
      assert BlankLines(n)[1..] == BlankLines(n - 1);
      ConcatBlank(n - 1);
    }
  }

  /** Appending to line `j` when every later line is empty appends to the joined text. */
  lemma {:induction false} ConcatUpdate(texts: seq<string>, j: nat, x: string)
    requires j < |texts|
    requires forall k :: j < k < |texts| ==> texts[k] == []
    ensures Concat(texts[j := texts[j] + x]) == Concat(texts) + x
  {
    if j == 0 {
      assert texts[0 := texts[0] + x][1..] == texts[1..];
      ConcatBlankSeq(texts[1..]);
    } else {
      assert texts[j := texts[j] + x][1..] == texts[1..][j - 1 := texts[j] + x];
      ConcatUpdate(texts[1..], j - 1, x);
    }
  }

  lemma {:induction false} ConcatBlankSeq(texts: seq<string>)
    requires forall k :: 0 <= k < |texts| ==> texts[k] == []
    ensures Concat(texts) == []
  {
    if texts != [] {
      ConcatBlankSeq(texts[1..]);
    }
  }

  /** `AllText` reads only the lines of the segments. */
  lemma {:induction false} AllTextOfSameLines(a: seq<Segment>, b: seq<Segment>)
    requires |a| == |b| && forall k :: 0 <= k < |a| ==> a[k].text == b[k].text
    ensures AllText(a) == AllText(b)
  {
    if a != [] {
      AllTextOfSameLines(a[..|a| - 1], b[..|b| - 1]);
    }
  }

  /**
   * A punctuation token never moves the cursor or emits a segment: it is glued
   * to the current line when that line has text, and dropped otherwise.
   */
  lemma StepPunctuation(s: PackState, tok: TimedText, lines: nat)
    requires PackInv(s, lines)
    ensures var r := PunctStep(s.(endTs := tok.endTs), tok, lines);
      && r.segments == s.segments && r.line == s.line && r.startTs == s.startTs && r.endTs == tok.endTs
      && (s.line < lines && s.texts[s.line] != [] ==> Flat(r) == Flat(s) + tok.text)
      && (!(s.line < lines && s.texts[s.line] != []) ==> r.texts == s.texts)
  {
    if s.line < lines && s.texts[s.line] != [] {
      ConcatUpdate(s.texts, s.line, tok.text);
    }
  }

  /**
   * A word token (with at least one line) lands on exactly one line, after a
   * single space when that line already has text. It stays on the cursor's
   * line unless that line would grow past `maxLength`; then it takes the next
   * line, and when there is none the filled segment is emitted, ending at
   * this token's end, and a new one starts 0.05 s after this token's start.
   */
  lemma StepWord(s: PackState, tok: TimedText, maxLength: int, lines: nat)
    requires PackInv(s, lines) && lines > 0
    ensures var r := WordStep(s.(endTs := tok.endTs), tok, maxLength, lines);
      && r.line < lines && r.endTs == tok.endTs
      && (s.line < lines ==>
            (r.segments == s.segments && r.line == s.line <==> |s.texts[s.line] + tok.text| <= maxLength))
      && (r.segments == s.segments ==>
            && r.startTs == s.startTs
            && (r.line == s.line || r.line == s.line + 1)
            && r.texts[r.line] == s.texts[r.line] + (if s.texts[r.line] != [] then " " else "") + tok.text
            && (forall j :: 0 <= j < lines && j != r.line ==> r.texts[j] == s.texts[j]))
      && (r.segments != s.segments ==>
            && r.segments == s.segments + [Segment(s.texts, s.startTs, tok.endTs)]
            && r.startTs == tok.startTs + 0.05 && r.line == 0
            && r.texts[0] == tok.text
            && (forall j :: 0 < j < lines ==> r.texts[j] == []))
      && (Flat(r) == Flat(s) + tok.text || Flat(r) == Flat(s) + " " + tok.text)
  {
    var line := if s.line < lines && |s.texts[s.line] + tok.text| > maxLength then s.line + 1 else s.line;
    if line >= lines {
      FlatEmit(s, tok.text, lines, tok.startTs + 0.05, tok.endTs);
    } else {
      FlatAppend(s, line, if s.texts[line] != [] then " " else "", tok.text, tok.endTs);
    }
  }

  /** Emitting the filled segment and starting a new one with `x` on its first line adds `x` to the packer's text. */
  lemma FlatEmit(s: PackState, x: string, lines: nat, startTs: real, endTs: real)
    requires lines > 0
    ensures Flat(PackState(s.segments + [Segment(s.texts, s.startTs, endTs)], BlankLines(lines)[0 := [] + x], 0, startTs, endTs))
      == Flat(s) + x
  {
    AllTextSnoc(s.segments, Segment(s.texts, s.startTs, endTs));
    ConcatUpdate(BlankLines(lines), 0, x);
    ConcatBlank(lines);
  }

  /** Appending `sep` and `x` to line `j`, when no later line has text, appends them to the packer's text. */
  lemma FlatAppend(s: PackState, j: nat, sep: string, x: string, endTs: real)
    requires j < |s.texts| && forall k :: j < k < |s.texts| ==> s.texts[k] == []
    ensures Flat(PackState(s.segments, s.texts[j := s.texts[j] + sep + x], j, s.startTs, endTs)) == Flat(s) + sep + x
  {
    assert s.texts[j] + sep + x == s.texts[j] + (sep + x);
    ConcatUpdate(s.texts, j, sep + x);
  }

  /** The packer's text only grows: what it holds after a prefix of the tokens starts what it holds after all of them. */
  lemma {:induction false} PackFlatGrows(init: PackState, toks: seq<TimedText>, i: nat, maxLength: int, lines: nat, isP: PunctCategory)
    requires PackInv(init, lines) && i <= |toks|
    ensures StartsWith(Flat(Pack(init, toks, maxLength, lines, isP)), Flat(Pack(init, toks[..i], maxLength, lines, isP)))
    decreases |toks|
  {
    if i == |toks| {
      assert toks[..i] == toks;
    } else {
      var front := toks[..|toks| - 1];
      assert front[..i] == toks[..i];
      PackFlatGrows(init, front, i, maxLength, lines, isP);
      var s := Pack(init, front, maxLength, lines, isP);
      var tok := toks[|toks| - 1];
      if IsPunctuation(tok.text, isP) {
        StepPunctuation(s, tok, lines);
      } else if lines > 0 {
        StepWord(s, tok, maxLength, lines);
      } else {
        assert PackStep(s, tok, maxLength, lines, isP).segments == s.segments + [Segment(s.texts, s.startTs, tok.endTs)];
        AllTextSnoc(s.segments, Segment(s.texts, s.startTs, tok.endTs));
        assert s.texts == [] && Concat(s.texts) == [];
      }
    }
  }

  /** The first emitted segment starts where the packer started; until then the start is unchanged. */
  lemma {:induction false} PackFirstStart(init: PackState, toks: seq<TimedText>, maxLength: int, lines: nat, isP: PunctCategory)
    requires PackInv(init, lines) && init.segments == []
    ensures var r := Pack(init, toks, maxLength, lines, isP);
      (r.segments == [] ==> r.startTs == init.startTs) && (r.segments != [] ==> r.segments[0].startTs == init.startTs)
  {
    if toks != [] {
      PackFirstStart(init, toks[..|toks| - 1], maxLength, lines, isP);
    }
  }

  /** Every step leaves the packer's end time at the token's end. */
  lemma PackEnd(init: PackState, toks: seq<TimedText>, maxLength: int, lines: nat, isP: PunctCategory)
    requires PackInv(init, lines) && toks != []
    ensures Pack(init, toks, maxLength, lines, isP).endTs == toks[|toks| - 1].endTs
  {
  }

  /**
   * `create_subtitle_segments_english`: every segment has `lines` lines, no
   * segment overlaps the next, the first starts with the first caption, and
   * the text of all segments, read in order, extends what the packer held
   * after each prefix of the captions (so no word is lost or reordered).
   */
  lemma EnglishSegmentsSpec(captions: seq<TimedText>, maxLength: int, lines: nat, isP: PunctCategory)
    ensures var r := SegmentsEnglish(captions, maxLength, lines, isP);
      && (forall k :: 0 <= k < |r| ==> |r[k].text| == lines)
      && (forall k :: 0 <= k < |r| - 1 ==> r[k].endTs < r[k + 1].startTs)
      && (captions != [] && r != [] ==> r[0].startTs == captions[0].startTs)
      && (captions != [] ==> forall i :: 0 <= i <= |captions| ==>
            StartsWith(AllText(r), Flat(Pack(InitState(captions[0], lines), captions[..i], maxLength, lines, isP))))
  {
    if captions != [] {
      var init := InitState(captions[0], lines);
      var fin := Pack(init, captions, maxLength, lines, isP);
      var flushed := Flush(fin);
      ClampedKeeps(flushed);
      ClampedNoOverlap(flushed);
      PackFirstStart(init, captions, maxLength, lines, isP);
      EnglishKeepsText(captions, maxLength, lines, isP);
    } else {
      ClampedNoOverlap([]);
    }
  }

  /** The text of all segments is what the packer held at the end, and so extends what it held after every prefix. */
  lemma EnglishKeepsText(captions: seq<TimedText>, maxLength: int, lines: nat, isP: PunctCategory)
    requires captions != []
    ensures var r := SegmentsEnglish(captions, maxLength, lines, isP);
      forall i :: 0 <= i <= |captions| ==>
        StartsWith(AllText(r), Flat(Pack(InitState(captions[0], lines), captions[..i], maxLength, lines, isP)))
  {
    var init := InitState(captions[0], lines);
    var fin := Pack(init, captions, maxLength, lines, isP);
    FlushKeepsText(fin);
    var r := Clamped(Flush(fin));
    ClampedKeeps(Flush(fin));
    AllTextOfSameLines(r, Flush(fin));
    forall i | 0 <= i <= |captions|
      ensures StartsWith(AllText(r), Flat(Pack(init, captions[..i], maxLength, lines, isP)))
    {
      PackFlatGrows(init, captions, i, maxLength, lines, isP);
    }
  }

  /** Flushing the packer loses no text. */
  lemma FlushKeepsText(fin: PackState)
    ensures AllText(Flush(fin)) == Flat(fin)
  {
    if AnyNonEmpty(fin.texts) {
      AllTextSnoc(fin.segments, Segment(fin.texts, fin.startTs, fin.endTs));
    } else {
      ConcatBlankSeq(fin.texts);
    }
  }

  /**
   * The unfinished segment is emitted exactly when one of its lines has text;
   * it is then the last segment and ends with the last caption.
   */
  lemma EnglishFinalSegment(captions: seq<TimedText>, maxLength: int, lines: nat, isP: PunctCategory)
    requires captions != []
    ensures var fin := Pack(InitState(captions[0], lines), captions, maxLength, lines, isP);
      var r := SegmentsEnglish(captions, maxLength, lines, isP);
      && (AnyNonEmpty(fin.texts) <==> |r| == |fin.segments| + 1)
      && (!AnyNonEmpty(fin.texts) <==> |r| == |fin.segments|)
      && (AnyNonEmpty(fin.texts) ==>
            r[|r| - 1] == Segment(fin.texts, fin.startTs, captions[|captions| - 1].endTs))
  {
    var init := InitState(captions[0], lines);
    PackEnd(init, captions, maxLength, lines, isP);
    ClampedKeeps(Flush(Pack(init, captions, maxLength, lines, isP)));
  }

  // ================================================================ international segmenter

  /** The CJK test of the international segmenter: a character in U+4E00..U+9FFF. */
  predicate IsCjkChar(c: char) { '\U{4E00}' <= c <= '\U{9FFF}' }

  predicate HasCjk(s: string) { exists i :: 0 <= i < |s| && IsCjkChar(s[i]) }

  /** The state of a splitting loop: the finished parts and the part being grown. */
  datatype Split = Split(parts: seq<string>, current: string)

  /** The per-character loop for CJK text: a part is closed when the next character would make it longer than `maxLength`. */
  function CjkFold(text: string, maxLength: int): Split {
    if text == [] then Split([], [])
    else CjkStep(CjkFold(text[..|text| - 1], maxLength), text[|text| - 1], maxLength)
  }

  function CjkStep(st: Split, ch: char, maxLength: int): Split {
    if |st.current + [ch]| > maxLength then Split(st.parts + [st.current], [ch])
    else Split(st.parts, st.current + [ch])
  }

  /** What the loop keeps: the parts and the growing part concatenate back to the text; every finished part is `maxLength` long and the growing part is non-empty and no longer. */
  predicate CjkInv(st: Split, text: string, maxLength: int) {
    && Concat(st.parts) + st.current == text
    && (maxLength >= 1 ==>
          && (forall k :: 0 <= k < |st.parts| ==> |st.parts[k]| == maxLength)
          && |st.current| <= maxLength
          && (text != [] ==> st.current != []))
  }

  /** The CJK loop's invariant holds after every prefix of the text. */
  lemma {:induction false} CjkFoldSpec(text: string, maxLength: int)
    ensures CjkInv(CjkFold(text, maxLength), text, maxLength)
  {
    if text != [] {
      var front := text[..|text| - 1];
      CjkFoldSpec(front, maxLength);
      assert text == front + [text[|text| - 1]];
      CjkStepKeeps(CjkFold(front, maxLength), front, text[|text| - 1], maxLength);
    }
  }

  lemma CjkStepKeeps(st: Split, text: string, ch: char, maxLength: int)
    requires CjkInv(st, text, maxLength)
    ensures CjkInv(CjkStep(st, ch, maxLength), text + [ch], maxLength)
  {
    ConcatSnoc(st.parts, st.current);
  }

  /** The parts of a CJK sentence: the loop's parts, then the last one if not empty. */
  function CjkParts(text: string, maxLength: int): seq<string> {
    var st := CjkFold(text, maxLength);
    if st.current != [] then st.parts + [st.current] else st.parts
  }

  /**
   * CJK parts concatenate back to the text; with `maxLength >= 1` each has
   * 1..maxLength characters and all but the last have exactly `maxLength`.
   */
  lemma CjkPartsSpec(text: string, maxLength: int)
    ensures var parts := CjkParts(text, maxLength);
      && Concat(parts) == text
      && (maxLength >= 1 ==>
            && (forall k :: 0 <= k < |parts| ==> 1 <= |parts[k]| <= maxLength)
            && (forall k :: 0 <= k < |parts| - 1 ==> |parts[k]| == maxLength))
  {
    var st := CjkFold(text, maxLength);
    CjkFoldSpec(text, maxLength);
    ConcatSnoc(st.parts, st.current);
  }

  /** The CJK branch of the splitting loop. */
  method SplitCjk(text: string, maxLength: int) returns (parts: seq<string>)
    ensures parts == CjkParts(text, maxLength)
  {
    parts := [];
    var current: string := [];
    var i := 0;
    while i < |text|
      invariant 0 <= i <= |text|
      invariant Split(parts, current) == CjkFold(text[..i], maxLength)
    {
      var ch := text[i];
      assert text[..i + 1][..i] == text[..i];
      if |current + [ch]| > maxLength {
        parts := parts + [current];
        current := [ch];
      } else {
        current := current + [ch];
      }
      i := i + 1;
    }
    assert text[..i] == text;
    if current != [] {
      parts := parts + [current];
    }
  }

  /** The per-word loop for space-separated text. */
  function WordFold(words: seq<string>, maxLength: int): Split {
    if words == [] then Split([], [])
    else
      var st := WordFold(words[..|words| - 1], maxLength);
      var w := words[|words| - 1];
      if |st.current + " " + w| > maxLength && st.current != [] then Split(st.parts + [Strip(st.current)], w)
      else Split(st.parts, (if st.current != [] then st.current + " " else []) + w)
  }

  function WordParts(words: seq<string>, maxLength: int): seq<string> {
    var st := WordFold(words, maxLength);
    if st.current != [] then st.parts + [Strip(st.current)] else st.parts
  }

  predicate ProperWords(words: seq<string>) {
    forall k :: 0 <= k < |words| ==> words[k] != [] && NoSpace(words[k])
  }

  /** A part fits in `maxLength` or is one of the words, too long to share a line. */
  predicate FitsOrWord(p: string, maxLength: int, words: seq<string>) {
    |p| <= maxLength || p in words
  }

  lemma StrippedJoin(a: string, w: string)
    requires a != [] && IsStripped(a) && w != [] && NoSpace(w)
    ensures IsStripped(a + " " + w)
  {
    assert (a + " " + w)[0] == a[0];
    assert (a + " " + w)[|a + " " + w| - 1] == w[|w| - 1];
  }

  /** The shape half of the word loop's invariant: after a word the growing part is a non-empty stripped string. */
  lemma {:induction false} WordFoldShape(words: seq<string>, maxLength: int)
    requires ProperWords(words)
    ensures var st := WordFold(words, maxLength);
      && (words == [] ==> st == Split([], []))
      && (words != [] ==> st.current != [] && IsStripped(st.current))
      && (forall k :: 0 <= k < |st.parts| ==> st.parts[k] != [])
  {
    if words != [] {
      var front := words[..|words| - 1];
      var w := words[|words| - 1];
      WordFoldShape(front, maxLength);
      var st := WordFold(front, maxLength);
      if front != [] && |st.current + " " + w| <= maxLength {
        StrippedJoin(st.current, w);
      } else if front != [] {
        StripOfStripped(st.current);
      }
    }
  }

  /** The text half of the invariant: the parts and the growing part, joined with spaces, rebuild the words. */
  lemma {:induction false} WordFoldJoin(words: seq<string>, maxLength: int)
    requires ProperWords(words) && words != []
    ensures var st := WordFold(words, maxLength);
      Join(st.parts + [st.current], " ") == Join(words, " ")
  {
    var front := words[..|words| - 1];
    var w := words[|words| - 1];
    assert words == front + [w];
    if front != [] {
      WordFoldJoin(front, maxLength);
      WordFoldShape(front, maxLength);
      var st := WordFold(front, maxLength);
      JoinSnoc(front, w, " ");
      if |st.current + " " + w| > maxLength {
        StripOfStripped(st.current);
        JoinSnoc(st.parts + [st.current], w, " ");
      } else {
        JoinGrow(st.parts, st.current, w);
      }
    }
  }

  lemma JoinGrow(parts: seq<string>, cur: string, w: string)
    ensures Join(parts + [cur + " " + w], " ") == Join(parts + [cur], " ") + " " + w
  {
    if parts == [] {
      assert Join([cur + " " + w], " ") == cur + " " + w;
    } else {
      JoinSnoc(parts, cur, " ");
      JoinSnoc(parts, cur + " " + w, " ");
    }
  }

  /** The other half of the invariant: every part fits in `maxLength` or is a single word. */
  lemma {:induction false} WordFoldFits(words: seq<string>, maxLength: int)
    requires ProperWords(words)
    ensures var st := WordFold(words, maxLength);
      && (forall k :: 0 <= k < |st.parts| ==> FitsOrWord(st.parts[k], maxLength, words))
      && (words != [] ==> FitsOrWord(st.current, maxLength, words))
  {
    if words != [] {
      var front := words[..|words| - 1];
      var w := words[|words| - 1];
      WordFoldFits(front, maxLength);
      WordFoldShape(front, maxLength);
      var st := WordFold(front, maxLength);
      assert forall x :: x in front ==> x in words;
      assert w in words;
      if front == [] {
        assert WordFold(words, maxLength) == Split([], w);
      } else if |st.current + " " + w| > maxLength {
        StripOfStripped(st.current);
        assert WordFold(words, maxLength) == Split(st.parts + [st.current], w);
      } else {
        assert WordFold(words, maxLength) == Split(st.parts, st.current + " " + w);
      }
    }
  }

  /**
   * Word parts, joined with single spaces, give back the words joined with
   * single spaces; no part is empty, and each fits in `maxLength` unless it
   * is a single over-long word.
   */
  lemma WordPartsSpec(words: seq<string>, maxLength: int)
    requires ProperWords(words)
    ensures var parts := WordParts(words, maxLength);
      && Join(parts, " ") == Join(words, " ")
      && (forall k :: 0 <= k < |parts| ==> parts[k] != [] && FitsOrWord(parts[k], maxLength, words))
  {
    WordFoldShape(words, maxLength);
    WordFoldFits(words, maxLength);
    if words != [] {
      WordFoldJoin(words, maxLength);
    }
    var st := WordFold(words, maxLength);
    if st.current != [] {
      StripOfStripped(st.current);
    }
  }

  /** The word branch of the splitting loop. */
  method SplitWords(words: seq<string>, maxLength: int) returns (parts: seq<string>)
    ensures parts == WordParts(words, maxLength)
  {
    parts := [];
    var current: string := [];
    var i := 0;
    while i < |words|
      invariant 0 <= i <= |words|
      invariant Split(parts, current) == WordFold(words[..i], maxLength)
    {
      var w := words[i];
      assert words[..i + 1][..i] == words[..i];
      if |current + " " + w| > maxLength && current != [] {
        parts := parts + [Strip(current)];
        current := w;
      } else {
        if current != [] {
          current := current + " ";
        }
        current := current + w;
      }
      i := i + 1;
    }
    assert words[..i] == words;
    if current != [] {
      parts := parts + [Strip(current)];
    }
  }

  /** The parts of one caption: its stripped text, split per character when it holds CJK, per word otherwise. */
  function CaptionParts(text: string, maxLength: int): seq<string> {
    var t := Strip(text);
    if HasCjk(t) then CjkParts(t, maxLength) else WordParts(Words(t), maxLength)
  }

  /** The caption text is kept: CJK parts concatenate to the stripped text, word parts join to its words. */
  lemma CaptionPartsSpec(text: string, maxLength: int)
    ensures var t := Strip(text);
      var parts := CaptionParts(text, maxLength);
      && (HasCjk(t) ==> Concat(parts) == t)
      && (!HasCjk(t) ==> Join(parts, " ") == Join(Words(t), " "))
  {
    var t := Strip(text);
    if HasCjk(t) {
      CjkPartsSpec(t, maxLength);
    } else {
      WordPartsSpec(Words(t), maxLength);
    }
  }

  // ---------------------------------------------------------------- grouping into segments

  function Flatten(gs: seq<seq<string>>): seq<string> {
    if gs == [] then [] else gs[0] + Flatten(gs[1..])
  }

  /** `[parts[i:i+lines] for i in range(0, len(parts), lines)]`. */
  function Group(parts: seq<string>, lines: nat): seq<seq<string>>
    requires lines >= 1
    decreases |parts|
  {
    if parts == [] then []
    else if |parts| <= lines then [parts]
    else [parts[..lines]] + Group(parts[lines..], lines)
  }

  /**
   * Grouping keeps the parts in order (the groups flatten back to them); every
   * group has 1..lines parts and all but the last have exactly `lines`.
   */
  lemma {:induction false} GroupSpec(parts: seq<string>, lines: nat)
    requires lines >= 1
    ensures var gs := Group(parts, lines);
      && Flatten(gs) == parts
      && (forall k :: 0 <= k < |gs| ==> 1 <= |gs[k]| <= lines)
      && (forall k :: 0 <= k < |gs| - 1 ==> |gs[k]| == lines)
    decreases |parts|
  {
    if |parts| > lines {
      GroupSpec(parts[lines..], lines);
      var gs := Group(parts, lines);
      assert gs[1..] == Group(parts[lines..], lines);
      assert parts == parts[..lines] + parts[lines..];
    } else if parts != [] {
      assert Flatten([parts]) == parts + Flatten([]);
    }
  }

  lemma GroupUnfold(parts: seq<string>, lines: nat)
    requires lines >= 1 && |parts| > lines
    ensures Group(parts, lines) == [parts[..lines]] + Group(parts[lines..], lines)
  {
  }

  /** The grouping loop. */
  method GroupParts(parts: seq<string>, lines: nat) returns (groups: seq<seq<string>>)
    requires lines >= 1
    ensures groups == Group(parts, lines)
  {
    groups := [];
    var i := 0;
    while i < |parts|
      invariant 0 <= i
      invariant i < |parts| ==> groups + Group(parts[i..], lines) == Group(parts, lines)
      invariant i >= |parts| ==> groups == Group(parts, lines)
    {
      var j := if i + lines < |parts| then i + lines else |parts|;
      if i + lines < |parts| {
        GroupUnfold(parts[i..], lines);
        assert parts[i..][..lines] == parts[i..j];
        assert parts[i..][lines..] == parts[i + lines..];
        assert groups + [parts[i..j]] + Group(parts[i + lines..], lines) == groups + Group(parts[i..], lines);
      } else {
        assert parts[i..] == parts[i..j];
        assert Group(parts[i..], lines) == [parts[i..j]];
      }
      groups := groups + [parts[i..j]];
      i := i + lines;
    }
  }

  // ---------------------------------------------------------------- timing

  function GroupChars(g: seq<string>): nat { |Concat(g)| }

  /** Characters in the first `k` groups. */
  function CharsUpTo(gs: seq<seq<string>>, k: nat): nat
    requires k <= |gs|
  {
    if k == 0 then 0 else CharsUpTo(gs, k - 1) + GroupChars(gs[k - 1])
  }

  function MaxReal(a: real, b: real): real { if a >= b then a else b }

  /** The time given to a group of `chars` characters: its share, at least 0.5 s; an even split when there are no characters. */
  function ShareDuration(chars: nat, total: nat, duration: real, count: nat): real
    requires count > 0
  {
    if total > 0 then MaxReal(Share(chars, total, duration), 0.5)
    else duration / count as real
  }

  /** `(segment_chars / total_chars) * duration`. */
  function Share(chars: nat, total: nat, duration: real): real
    requires total > 0
  {
    (chars as real / total as real) * duration
  }

  function ChunkDuration(g: seq<string>, total: nat, duration: real, count: nat): real
    requires count > 0
  {
    ShareDuration(GroupChars(g), total, duration, count)
  }

  /** The duration step of the timing loop. */
  method SegmentDuration(chars: nat, total: nat, duration: real, count: nat) returns (d: real)
    requires count > 0
    ensures d == ShareDuration(chars, total, duration, count)
  {
    if total > 0 {
      d := Share(chars, total, duration);
      d := if d >= 0.5 then d else 0.5;
    } else {
      d := duration / count as real;
    }
  }

  /** Time used by the first `k` groups. */
  function Elapsed(gs: seq<seq<string>>, k: nat, duration: real): real
    requires k <= |gs|
  {
    if k == 0 then 0.0
    else Elapsed(gs, k - 1, duration) + ChunkDuration(gs[k - 1], CharsUpTo(gs, |gs|), duration, |gs|)
  }

  /** `part_group + [""] * (lines - len(part_group))`; a negative count repeats nothing. */
  function Pad(g: seq<string>, lines: nat): (r: seq<string>)
    ensures |g| <= lines ==> |r| == lines
    ensures |g| <= |r| && r[..|g|] == g
  {
    g + BlankLines(if |g| <= lines then lines - |g| else 0)
  }

  /** The segments of one caption starting at `t0` and lasting `duration`. */
  function TimeGroups(gs: seq<seq<string>>, lines: nat, t0: real, duration: real): seq<Segment>
  {
    seq(|gs|, k requires 0 <= k < |gs| =>
      Segment(Pad(gs[k], lines), t0 + Elapsed(gs, k, duration), t0 + Elapsed(gs, k + 1, duration)))
  }

  /** The timing loop, advancing `current_time` group by group. */
  method TimeChunks(gs: seq<seq<string>>, lines: nat, t0: real, duration: real) returns (segs: seq<Segment>)
    ensures segs == TimeGroups(gs, lines, t0, duration)
  {
    var total := 0;
    var j := 0;
    while j < |gs|
      invariant 0 <= j <= |gs| && total == CharsUpTo(gs, j)
    {
      total := total + |Concat(gs[j])|;
      j := j + 1;
    }
    segs := [];
    var current := t0;
    var i := 0;
    while i < |gs|
      invariant 0 <= i <= |gs|
      invariant current == t0 + Elapsed(gs, i, duration)
      invariant segs == TimeGroups(gs, lines, t0, duration)[..i]
    {
      var d := SegmentDuration(|Concat(gs[i])|, total, duration, |gs|);
      ElapsedStep(gs, i, duration);
      var start := current;
      var end := start + d;
      current := end;
      var padding := if |gs[i]| <= lines then lines - |gs[i]| else 0;
      TimeGroupsAt(gs, lines, t0, duration, i);
      segs := segs + [Segment(gs[i] + BlankLines(padding), start, end)];
      i := i + 1;
    }
  }

  lemma TimeGroupsAt(gs: seq<seq<string>>, lines: nat, t0: real, duration: real, k: nat)
    requires k < |gs|
    ensures TimeGroups(gs, lines, t0, duration)[..k + 1] == TimeGroups(gs, lines, t0, duration)[..k]
      + [Segment(Pad(gs[k], lines), t0 + Elapsed(gs, k, duration), t0 + Elapsed(gs, k + 1, duration))]
  {
  }

  lemma {:induction false} ElapsedCovers(gs: seq<seq<string>>, k: nat, duration: real)
    requires k <= |gs| && CharsUpTo(gs, |gs|) > 0
    ensures Elapsed(gs, k, duration) >= Share(CharsUpTo(gs, k), CharsUpTo(gs, |gs|), duration)
  {
    if k > 0 {
      ElapsedCovers(gs, k - 1, duration);
      var t := CharsUpTo(gs, |gs|);
      ShareAdd(CharsUpTo(gs, k - 1), GroupChars(gs[k - 1]), t, duration);
      assert ChunkDuration(gs[k - 1], t, duration, |gs|) >= Share(GroupChars(gs[k - 1]), t, duration);
    }
  }

  /** Shares add up: the shares of two character counts make the share of their sum. */
  lemma ShareAdd(a: nat, b: nat, t: nat, d: real)
    requires t > 0
    ensures Share(a, t, d) + Share(b, t, d) == Share(a + b, t, d)
  {
    var x := a as real;
    var y := b as real;
    var z := t as real;
    assert (x / z) + (y / z) == (x + y) / z;
    assert (x / z) * d + (y / z) * d == ((x / z) + (y / z)) * d;
  }

  lemma {:induction false} ElapsedEven(gs: seq<seq<string>>, k: nat, duration: real)
    requires 0 < |gs| && k <= |gs| && CharsUpTo(gs, |gs|) == 0
    ensures Elapsed(gs, k, duration) == k as real * (duration / |gs| as real)
  {
    if k > 0 {
      ElapsedEven(gs, k - 1, duration);
    }
  }

  /** Each group fills the first lines of its segment and the rest are "". */
  lemma TimeGroupsLines(gs: seq<seq<string>>, lines: nat, t0: real, duration: real)
    requires forall k :: 0 <= k < |gs| ==> |gs[k]| <= lines
    ensures var r := TimeGroups(gs, lines, t0, duration);
      && |r| == |gs|
      && (forall k :: 0 <= k < |r| ==> |r[k].text| == lines && r[k].text[..|gs[k]|] == gs[k])
      && (forall k :: 0 <= k < |r| ==> forall j :: |gs[k]| <= j < lines ==> r[k].text[j] == [])
  {
  }

  /** The first segment starts at the caption start and each later one at the previous end. */
  lemma TimeGroupsChain(gs: seq<seq<string>>, lines: nat, t0: real, duration: real)
    ensures var r := TimeGroups(gs, lines, t0, duration);
      && (r != [] ==> r[0].startTs == t0)
      && (forall k :: 0 <= k < |r| - 1 ==> r[k + 1].startTs == r[k].endTs)
  {
  }

  lemma ElapsedStep(gs: seq<seq<string>>, k: nat, duration: real)
    requires k < |gs|
    ensures Elapsed(gs, k + 1, duration) == Elapsed(gs, k, duration) + ChunkDuration(gs[k], CharsUpTo(gs, |gs|), duration, |gs|)
  {
  }

  /** Each segment lasts the time `ChunkDuration` gives its group. */
  lemma TimeGroupsDurations(gs: seq<seq<string>>, lines: nat, t0: real, duration: real)
    ensures var r := TimeGroups(gs, lines, t0, duration);
      forall k :: 0 <= k < |r| ==>
        r[k].endTs - r[k].startTs == ChunkDuration(gs[k], CharsUpTo(gs, |gs|), duration, |gs|)
  {
    var r := TimeGroups(gs, lines, t0, duration);
    forall k | 0 <= k < |r|
      ensures r[k].endTs - r[k].startTs == ChunkDuration(gs[k], CharsUpTo(gs, |gs|), duration, |gs|)
    {
      ElapsedStep(gs, k, duration);
    }
  }

  /**
   * A group's time is its share of the caption's characters, floored at
   * 0.5 s; with no characters at all the caption is split evenly.
   */
  lemma ChunkDurationSpec(g: seq<string>, total: nat, duration: real, count: nat)
    requires count > 0 && GroupChars(g) <= total
    ensures total > 0 ==> ChunkDuration(g, total, duration, count) >= 0.5
    ensures total > 0 ==> ChunkDuration(g, total, duration, count) >= Share(GroupChars(g), total, duration)
    ensures total > 0 && Share(GroupChars(g), total, duration) >= 0.5 ==>
      ChunkDuration(g, total, duration, count) == Share(GroupChars(g), total, duration)
    ensures total > 0 && Share(GroupChars(g), total, duration) < 0.5 ==>
      ChunkDuration(g, total, duration, count) == 0.5
    ensures total == 0 ==> ChunkDuration(g, total, duration, count) * count as real == duration
  {
  }

  /**
   * Together the segments reach at least the caption end (the 0.5 s floor can
   * only lengthen them), and exactly the caption end when no group has text.
   */
  lemma TimeGroupsCover(gs: seq<seq<string>>, lines: nat, t0: real, duration: real)
    ensures var r := TimeGroups(gs, lines, t0, duration);
      && (r != [] && CharsUpTo(gs, |gs|) > 0 ==> r[|r| - 1].endTs >= t0 + duration)
      && (r != [] && CharsUpTo(gs, |gs|) == 0 ==> r[|r| - 1].endTs == t0 + duration)
  {
    if gs != [] {
      ElapsedTotal(gs, duration);
      var r := TimeGroups(gs, lines, t0, duration);
      assert r[|r| - 1].endTs == t0 + Elapsed(gs, |gs|, duration);
    }
  }

  lemma ElapsedTotal(gs: seq<seq<string>>, duration: real)
    requires gs != []
    ensures CharsUpTo(gs, |gs|) > 0 ==> Elapsed(gs, |gs|, duration) >= duration
    ensures CharsUpTo(gs, |gs|) == 0 ==> Elapsed(gs, |gs|, duration) == duration
  {
    var t := CharsUpTo(gs, |gs|);
    if t > 0 {
      ElapsedCovers(gs, |gs|, duration);
      WholeShare(t, duration);
    } else {
      ElapsedEven(gs, |gs|, duration);
      EvenSplit(|gs|, duration);
    }
  }

  lemma WholeShare(t: nat, d: real)
    requires t > 0
    ensures Share(t, t, d) == d
  {
    assert t as real / t as real == 1.0;
  }

  lemma EvenSplit(n: nat, d: real)
    requires n > 0
    ensures n as real * (d / n as real) == d
  {
  }

  /** The segments of one caption. */
  function CaptionSegments(c: TimedText, maxLength: int, lines: nat): seq<Segment>
    requires lines >= 1
  {
    TimeGroups(Group(CaptionParts(c.text, maxLength), lines), lines, c.startTs, Duration(c))
  }

  /** `end_ts - start_ts`. */
  function Duration(c: TimedText): real { c.endTs - c.startTs }

  function AllCaptionSegments(captions: seq<TimedText>, maxLength: int, lines: nat): seq<Segment>
    requires lines >= 1
  {
    if captions == [] then []
    else AllCaptionSegments(captions[..|captions| - 1], maxLength, lines) + CaptionSegments(captions[|captions| - 1], maxLength, lines)
  }

  /** What `create_subtitle_segments_international` returns; `range` with a zero step raises. */
  function SegmentsInternational(captions: seq<TimedText>, maxLength: int, lines: nat): Result<seq<Segment>> {
    if captions == [] then Ok([])
    else if lines == 0 then Err(ValueError("range() arg 3 must not be zero"))
    else Ok(Clamped(AllCaptionSegments(captions, maxLength, lines)))
  }

  /** The splitting step: per character for CJK text, per word otherwise. */
  method SplitCaption(captionText: string, maxLength: int) returns (parts: seq<string>)
    ensures parts == CaptionParts(captionText, maxLength)
  {
    var text := Strip(captionText);
    if HasCjk(text) {
      parts := SplitCjk(text, maxLength);
    } else {
      parts := SplitWords(Words(text), maxLength);
    }
  }

  /** The body of the loop over captions: split, group, time. */
  method SegmentCaption(c: TimedText, maxLength: int, lines: nat) returns (timed: seq<Segment>)
    requires lines >= 1
    ensures timed == CaptionSegments(c, maxLength, lines)
  {
    var parts := SplitCaption(c.text, maxLength);
    var groups := GroupParts(parts, lines);
    timed := TimeChunks(groups, lines, c.startTs, Duration(c));
    CaptionSegmentsOf(c, maxLength, lines, parts, groups, timed);
  }

  lemma CaptionSegmentsOf(c: TimedText, maxLength: int, lines: nat, parts: seq<string>, groups: seq<seq<string>>, timed: seq<Segment>)
    requires lines >= 1 && parts == CaptionParts(c.text, maxLength) && groups == Group(parts, lines)
    requires timed == TimeGroups(groups, lines, c.startTs, Duration(c))
    ensures timed == CaptionSegments(c, maxLength, lines)
  {
    GroupsOfCaption(c, maxLength, lines, parts, groups);
    SegmentsOfGroups(c, maxLength, lines, timed);
  }

  lemma GroupsOfCaption(c: TimedText, maxLength: int, lines: nat, parts: seq<string>, groups: seq<seq<string>>)
    requires lines >= 1 && parts == CaptionParts(c.text, maxLength) && groups == Group(parts, lines)
    ensures groups == Group(CaptionParts(c.text, maxLength), lines)
  {
  }

  lemma SegmentsOfGroups(c: TimedText, maxLength: int, lines: nat, timed: seq<Segment>)
    requires lines >= 1
    requires timed == TimeGroups(Group(CaptionParts(c.text, maxLength), lines), lines, c.startTs, Duration(c))
    ensures timed == CaptionSegments(c, maxLength, lines)
  {
  }

  /** `Caption.create_subtitle_segments_international`. */
  method CreateSubtitleSegmentsInternational(captions: seq<TimedText>, maxLength: int, lines: nat)
    returns (r: Result<seq<Segment>>)
    ensures r == SegmentsInternational(captions, maxLength, lines)
  {
    if captions == [] {
      return Ok([]);
    }
    if lines == 0 {
      return Err(ValueError("range() arg 3 must not be zero"));
    }
    var segments: seq<Segment> := [];
    var i := 0;
    while i < |captions|
      invariant 0 <= i <= |captions|
      invariant segments == AllCaptionSegments(captions[..i], maxLength, lines)
    {
      var timed := SegmentCaption(captions[i], maxLength, lines);
      AllCaptionSegmentsSnoc(captions, i, maxLength, lines);
      segments := segments + timed;
      i := i + 1;
    }
    assert captions[..i] == captions;
    segments := ClampOverlaps(segments);
    return Ok(segments);
  }

  lemma AllCaptionSegmentsSnoc(captions: seq<TimedText>, i: nat, maxLength: int, lines: nat)
    requires lines >= 1 && i < |captions|
    ensures AllCaptionSegments(captions[..i + 1], maxLength, lines)
      == AllCaptionSegments(captions[..i], maxLength, lines) + CaptionSegments(captions[i], maxLength, lines)
  {
    assert captions[..i + 1][..i] == captions[..i];
  }

  /** Every segment has `lines` lines. */
  predicate AllHaveLines(segs: seq<Segment>, lines: nat) {
    forall k :: 0 <= k < |segs| ==> |segs[k].text| == lines
  }

  lemma {:induction false} AllCaptionSegmentsLines(captions: seq<TimedText>, maxLength: int, lines: nat)
    requires lines >= 1
    ensures AllHaveLines(AllCaptionSegments(captions, maxLength, lines), lines)
  {
    if captions != [] {
      var front := captions[..|captions| - 1];
      AllCaptionSegmentsLines(front, maxLength, lines);
      CaptionSegmentsLines(captions[|captions| - 1], maxLength, lines);
      AllHaveLinesAppend(AllCaptionSegments(front, maxLength, lines), CaptionSegments(captions[|captions| - 1], maxLength, lines), lines);
    }
  }

  lemma CaptionSegmentsLines(c: TimedText, maxLength: int, lines: nat)
    requires lines >= 1
    ensures AllHaveLines(CaptionSegments(c, maxLength, lines), lines)
  {
    var gs := Group(CaptionParts(c.text, maxLength), lines);
    GroupSpec(CaptionParts(c.text, maxLength), lines);
    TimeGroupsLines(gs, lines, c.startTs, Duration(c));
  }

  lemma AllHaveLinesAppend(a: seq<Segment>, b: seq<Segment>, lines: nat)
    requires AllHaveLines(a, lines) && AllHaveLines(b, lines)
    ensures AllHaveLines(a + b, lines)
  {
  }

  /**
   * `create_subtitle_segments_international` fails exactly when there are
   * captions and `lines` is zero; otherwise every segment has `lines` lines
   * and none overlaps the next.
   */
  lemma InternationalSegmentsSpec(captions: seq<TimedText>, maxLength: int, lines: nat)
    ensures var r := SegmentsInternational(captions, maxLength, lines);
      && (r.Err? <==> captions != [] && lines == 0)
      && (captions == [] ==> r == Ok([]))
      && (r.Ok? ==> forall k :: 0 <= k < |r.value| ==> |r.value[k].text| == lines)
      && (r.Ok? ==> forall k :: 0 <= k < |r.value| - 1 ==> r.value[k].endTs < r.value[k + 1].startTs)
  {
    if captions != [] && lines >= 1 {
      var all := AllCaptionSegments(captions, maxLength, lines);
      AllCaptionSegmentsLines(captions, maxLength, lines);
      ClampedKeeps(all);
      ClampedNoOverlap(all);
    }
  }

  // ================================================================ formatted text

  /** The non-empty lines of a segment, joined with the ASS line break `\N`, as `create_subtitle` builds them. */
  function FormattedText(lines: seq<string>): string {
    if lines == [] then []
    else
      var prev := FormattedText(lines[..|lines| - 1]);
      var i := |lines| - 1;
      if lines[i] != [] then prev + (if i > 0 then "\\N" else "") + lines[i] else prev
  }

  /** The joining loop of `create_subtitle`. */
  method FormatSegmentText(lines: seq<string>) returns (text: string)
    ensures text == FormattedText(lines)
  {
    text := [];
    var i := 0;
    while i < |lines|
      invariant 0 <= i <= |lines|
      invariant text == FormattedText(lines[..i])
    {
      assert lines[..i + 1][..i] == lines[..i];
      if lines[i] != [] {
        if i > 0 {
          text := text + "\\N";
        }
        text := text + lines[i];
      }
      i := i + 1;
    }
    assert lines[..i] == lines;
  }

  function NonEmpty(lines: seq<string>): seq<string> {
    if lines == [] then []
    else NonEmpty(lines[..|lines| - 1]) + (if lines[|lines| - 1] != [] then [lines[|lines| - 1]] else [])
  }

  /** When the first line has text, the formatted text is the non-empty lines joined with `\\N`. */
  lemma {:induction false} FormattedTextJoin(lines: seq<string>)
    requires lines != [] && lines[0] != []
    ensures FormattedText(lines) == Join(NonEmpty(lines), "\\N")
  {
    var n := |lines|;
    var last := lines[n - 1];
    if n == 1 {
      assert lines[..0] == [];
      assert NonEmpty(lines) == [last];
    } else {
      var front := lines[..n - 1];
      assert front[0] == lines[0];
      FormattedTextJoin(front);
      NonEmptyHead(front);
      if last != [] {
        assert FormattedText(lines) == FormattedText(front) + "\\N" + last;
        assert NonEmpty(lines) == NonEmpty(front) + [last];
        JoinSnoc(NonEmpty(front), last, "\\N");
      } else {
        assert FormattedText(lines) == FormattedText(front);
        assert NonEmpty(lines) == NonEmpty(front);
      }
    }
  }

  /** A blank first line still counts: the second line's text comes after a leading `\\N`. */
  lemma FormattedTextBlankFirst(b: string)
    requires b != []
    ensures FormattedText(["", b]) == "\\N" + b
  {
    assert ["", b][..1] == [""];
    assert [""][..0] == [];
  }

  lemma NonEmptyHead(lines: seq<string>)
    requires lines != [] && lines[0] != []
    ensures NonEmpty(lines) != [] && NonEmpty(lines)[0] == lines[0]
  {
    if |lines| > 1 {
      NonEmptyHead(lines[..|lines| - 1]);
    }
  }
}
