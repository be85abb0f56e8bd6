/** The WebVTT layout both writers of the repository produce (the cue loop of
    `synthesize_speech` in `tts.py` and `_write_vtt` in
    `app/routers/tts_kokoro_api.py`): a `WEBVTT` line and a blank line, then for
    each cue its number, its timing line `start --> end`, its text and a blank
    line, all joined with "\n". `ReadsBack` shows that the reader of `WebVtt`
    gives back exactly the cues whose text is not blank, with their times. */
module VttWriter {
  import opened Text
  import opened Results
  import opened Timeline
  import opened WebVtt

  /** A timestamp `hh:mm:ss.fff` held as its four digit fields. */
  datatype Clock = Clock(hh: string, mm: string, ss: string, ff: string)

  /** Two digits of hours, minutes and seconds, and three of milliseconds. */
  predicate WellFormed(c: Clock) {
    |c.hh| == 2 && |c.mm| == 2 && |c.ss| == 2 && |c.ff| == 3 &&
    AllDigits(c.hh) && AllDigits(c.mm) && AllDigits(c.ss) && AllDigits(c.ff)
  }

  function ClockText(c: Clock): string {
    Stamp(c.hh, c.mm, c.ss, c.ff)
  }

  /** The seconds a well-formed clock denotes; its three fraction digits are milliseconds. */
  function Seconds(c: Clock): real
    requires WellFormed(c)
  {
    DigitsValue(c.hh) as real * 3600.0 + DigitsValue(c.mm) as real * 60.0 + DigitsValue(c.ss) as real
      + DigitsValue(c.ff) as real / 1000.0
  }

  /** That is the value the reader gives the stamp. */
  lemma SecondsIsStampValue(c: Clock)
    requires WellFormed(c)
    ensures Seconds(c) == StampValue(c.hh, c.mm, c.ss, c.ff)
  {
    assert Pow10(3) == 1000;
  }

  /** One cue as the writers lay it out. */
  datatype Cue = Cue(id: nat, start: Clock, end: Clock, text: string)

  /** A cue the reader can take back: well-formed times and text on one line. */
  predicate Writable(c: Cue) {
    WellFormed(c.start) && WellFormed(c.end) && NoLineBreak(c.text)
  }

  predicate AllWritable(cues: seq<Cue>) {
    forall i :: 0 <= i < |cues| ==> Writable(cues[i])
  }

  function TimingLine(c: Cue): string {
    ClockText(c.start) + " --> " + ClockText(c.end)
  }

  /** The four lines a cue adds. */
  function CueLines(c: Cue): seq<string> {
    [NatToString(c.id), TimingLine(c), c.text, ""]
  }

  function Blocks(cues: seq<Cue>): (ls: seq<string>)
    ensures |ls| == 4 * |cues|
  {
    if cues == [] then [] else Blocks(cues[..|cues| - 1]) + CueLines(cues[|cues| - 1])
  }

  /** The line list before it is joined. */
  function DocumentLines(cues: seq<Cue>): seq<string> {
    ["WEBVTT", ""] + Blocks(cues)
  }

  /** `"\n".join(lines)`: the text written to the `.vtt` file. */
  function Document(cues: seq<Cue>): string {
    Join(DocumentLines(cues), "\n")
  }

  /** The caption the reader makes of one cue: none when the text is blank. */
  function Kept(c: Cue): seq<TimedText>
    requires Writable(c)
  {
    if Strip(c.text) == [] then [] else [TimedText(Strip(c.text), Seconds(c.start), Seconds(c.end))]
  }

  function AllKept(cues: seq<Cue>): seq<TimedText>
    requires AllWritable(cues)
  {
    if cues == [] then [] else AllKept(cues[..|cues| - 1]) + Kept(cues[|cues| - 1])
  }

  // ---------------------------------------------------------------- the round trip

  /** Reading a written document gives back the cues with non-blank text, stripped,
      in order, with the times their clocks denote. */
  lemma ReadsBack(cues: seq<Cue>)
    requires AllWritable(cues)
    ensures ParseWebVtt(Document(cues)) == Ok(AllKept(cues))
  {
    var lines := DocumentLines(cues)[..4 * |cues| + 1];
    ReadLines(cues);
    assert lines[0] == "WEBVTT";
    HeaderSkipped(lines, []);
    if cues == [] {
      ParseAtEnd(lines, []);
    } else {
      assert lines[1] == "";
      BlankSkipped(lines, 1, []);
      ReadFrom(cues, lines, 0);
      assert cues[..0] == [];
    }
  }

  /** The lines the reader sees: all that were written but the final blank one. */
  lemma ReadLines(cues: seq<Cue>)
    requires AllWritable(cues)
    ensures SplitLines(Document(cues)) == DocumentLines(cues)[..4 * |cues| + 1]
  {
    var d := DocumentLines(cues);
    DocumentHasNoBreaks(cues);
    SplitLinesOfJoin(d);
    if cues != [] {
      LastBlockLine(cues);
    }
  }

  lemma ParseAtEnd(lines: seq<string>, acc: seq<TimedText>)
    ensures ParseFrom(lines, |lines|, acc) == Ok(acc)
  {
  }

  lemma LastBlockLine(cues: seq<Cue>)
    requires cues != []
    ensures Blocks(cues)[4 * |cues| - 1] == ""
  {
    BlockAt(cues, |cues| - 1, 3);
  }

  lemma DocumentHasNoBreaks(cues: seq<Cue>)
    requires AllWritable(cues)
    ensures forall i :: 0 <= i < |DocumentLines(cues)| ==> NoLineBreak(DocumentLines(cues)[i])
  {
    var d := DocumentLines(cues);
    forall i | 0 <= i < |d|
      ensures NoLineBreak(d[i])
    {
      if i >= 2 {
        var k, j := (i - 2) / 4, (i - 2) % 4;
        BlockAt(cues, k, j);
        CueHasNoBreaks(cues[k], j);
      }
    }
  }

  lemma CueHasNoBreaks(c: Cue, j: nat)
    requires Writable(c) && j < 4
    ensures NoLineBreak(CueLines(c)[j])
  {
    if j == 0 {
      DigitsHaveNoBreak(NatToString(c.id));
    } else if j == 1 {
      TimingChars(c);
    }
  }

  lemma DigitsHaveNoBreak(s: string)
    requires AllDigits(s)
    ensures NoLineBreak(s)
  {
  }

  /** Line `4k + j` of the blocks is line `j` of cue `k`. */
  lemma {:induction false} BlockAt(cues: seq<Cue>, k: nat, j: nat)
    requires k < |cues| && j < 4
    ensures Blocks(cues)[4 * k + j] == CueLines(cues[k])[j]
    decreases |cues|
  {
    var front := cues[..|cues| - 1];
    if k < |cues| - 1 {
      BlockAt(front, k, j);
      assert front[k] == cues[k];
    }
  }

  lemma AllKeptSnoc(cues: seq<Cue>, k: nat)
    requires AllWritable(cues) && k < |cues|
    ensures AllKept(cues[..k + 1]) == AllKept(cues[..k]) + Kept(cues[k])
  {
    assert cues[..k + 1][..k] == cues[..k];
  }

  /** The reader, standing at cue `k` with the captions of the earlier cues, reads
      the rest of the document. */
  lemma {:induction false} ReadFrom(cues: seq<Cue>, lines: seq<string>, k: nat)
    requires AllWritable(cues) && k < |cues|
    requires lines == DocumentLines(cues)[..4 * |cues| + 1]
    ensures ParseFrom(lines, 2 + 4 * k, AllKept(cues[..k])) == Ok(AllKept(cues))
    decreases |cues| - k
  {
    ReadOne(cues, lines, k);
    if k + 1 < |cues| {
      ReadFrom(cues, lines, k + 1);
    } else {
      assert cues[..k + 1] == cues;
      ParseAtEnd(lines, AllKept(cues));
    }
  }

  /** The reader takes cue `k` and stands at the next one, or at the end. */
  lemma ReadOne(cues: seq<Cue>, lines: seq<string>, k: nat)
    requires AllWritable(cues) && k < |cues|
    requires lines == DocumentLines(cues)[..4 * |cues| + 1]
    ensures ParseFrom(lines, 2 + 4 * k, AllKept(cues[..k])) ==
            ParseFrom(lines, if k + 1 < |cues| then 2 + 4 * (k + 1) else |lines|, AllKept(cues[..k + 1]))
  {
    var p, acc := 2 + 4 * k, AllKept(cues[..k]);
    CueAt(cues, lines, k);
    var next := if k + 1 < |cues| then 2 + 4 * (k + 1) else |lines|;
    assert next == if p + 3 == |lines| then p + 3 else p + 4;
    CueReadBack(lines, p, cues[k], acc);
    AllKeptSnoc(cues, k);
    assert ParseFrom(lines, p, acc) == ParseFrom(lines, next, acc + Kept(cues[k]));
  }

  /** Where cue `k` sits among the lines the reader sees. */
  lemma CueAt(cues: seq<Cue>, lines: seq<string>, k: nat)
    requires k < |cues| && lines == DocumentLines(cues)[..4 * |cues| + 1]
    ensures var p := 2 + 4 * k;
      p + 3 <= |lines| && (p + 3 == |lines| <==> k + 1 == |cues|) &&
      lines[p] == NatToString(cues[k].id) && lines[p + 1] == TimingLine(cues[k]) && lines[p + 2] == cues[k].text &&
      (p + 3 < |lines| ==> lines[p + 3] == "")
  {
    BlockAt(cues, k, 0);
    BlockAt(cues, k, 1);
    BlockAt(cues, k, 2);
    if k + 1 < |cues| {
      BlockAt(cues, k, 3);
    }
  }

  /** One cue at line `p`: the reader adds its caption (if its text is not blank)
      and moves past its closing blank line. */
  lemma CueReadBack(lines: seq<string>, p: nat, c: Cue, acc: seq<TimedText>)
    requires Writable(c) && p + 3 <= |lines|
    requires lines[p] == NatToString(c.id) && lines[p + 1] == TimingLine(c) && lines[p + 2] == c.text
    requires p + 3 < |lines| ==> lines[p + 3] == ""
    ensures ParseFrom(lines, p, acc) == ParseFrom(lines, if p + 3 == |lines| then p + 3 else p + 4, acc + Kept(c))
  {
    IdStep(lines, p, c.id, acc);
    TimingOf(c);
    var next := if Strip(c.text) == [] then p + 2 else p + 3;
    TextStep(lines, p + 2, c, acc);
    Advance(lines, p, acc, next, acc + Kept(c));
    if Strip(c.text) == [] {
      BlankSkipped(lines, p + 2, acc + Kept(c));
    }
    if p + 3 < |lines| {
      BlankSkipped(lines, p + 3, acc + Kept(c));
    }
  }

  /** The timing line parsed, the cue's text line `lines[j]` is read: a blank one
      adds nothing and the reader stays on it; another adds its caption and the
      reader moves to the line after it. */
  lemma TextStep(lines: seq<string>, j: nat, c: Cue, acc: seq<TimedText>)
    requires Writable(c) && j < |lines| && lines[j] == c.text
    requires j + 1 < |lines| ==> lines[j + 1] == ""
    ensures CueStep(lines, TimingLine(c), j, acc) == Continue(if Strip(c.text) == [] then j else j + 1, acc + Kept(c))
  {
    if Strip(c.text) == [] {
      BlankTextStep(lines, j, c, acc);
      assert Kept(c) == [];
      assert acc + [] == acc;
    } else {
      TextLineStep(lines, j, c, acc);
    }
  }

  lemma BlankTextStep(lines: seq<string>, j: nat, c: Cue, acc: seq<TimedText>)
    requires Writable(c) && j < |lines| && Strip(lines[j]) == [] && Strip(c.text) == []
    ensures CueStep(lines, TimingLine(c), j, acc) == Continue(j, acc)
  {
    TimingOf(c);
    BlockEndIs(lines, j, j);
    BlankText(lines, j);
    CueStepOf(lines, TimingLine(c), j, j, j, acc, (Seconds(c.start), Seconds(c.end)), acc);
  }

  lemma TextLineStep(lines: seq<string>, j: nat, c: Cue, acc: seq<TimedText>)
    requires Writable(c) && j < |lines| && lines[j] == c.text && Strip(c.text) != []
    requires j + 1 < |lines| ==> lines[j + 1] == ""
    ensures CueStep(lines, TimingLine(c), j, acc) == Continue(j + 1, acc + Kept(c))
  {
    TimingOf(c);
    var cap := TimedText(Strip(c.text), Seconds(c.start), Seconds(c.end));
    BlockEndOne(lines, j);
    BlockTextOne(lines, j);
    assert Kept(c) == [cap];
    CueStepOf(lines, TimingLine(c), j, j + 1, j + 1, acc, (Seconds(c.start), Seconds(c.end)), acc + [cap]);
  }

  /** A non-blank line followed by a blank one (or by the end) is a block of its own. */
  lemma BlockEndOne(lines: seq<string>, j: nat)
    requires j < |lines| && Strip(lines[j]) != []
    requires j + 1 < |lines| ==> lines[j + 1] == ""
    ensures BlockEnd(lines, j) == j + 1 && BlockEnd(lines, j + 1) == j + 1
  {
    if j + 1 < |lines| {
      StripOfStripped("");
    }
    BlockEndIs(lines, j, j + 1);
    BlockEndIs(lines, j + 1, j + 1);
  }

  /** The reader's loop goes on from where one pass leaves it. */
  lemma Advance(lines: seq<string>, i: nat, acc: seq<TimedText>, next: nat, caps: seq<TimedText>)
    requires i < |lines| && ReadStep(lines, i, acc) == Continue(next, caps)
    ensures ParseFrom(lines, i, acc) == ParseFrom(lines, next, caps)
  {
  }

  /** A cue id line is stepped over, and the next line read as the timing line. */
  lemma IdStep(lines: seq<string>, p: nat, id: nat, acc: seq<TimedText>)
    requires p + 1 < |lines| && lines[p] == NatToString(id)
    ensures ReadStep(lines, p, acc) == CueStep(lines, Strip(lines[p + 1]), p + 2, acc)
  {
    IdLine(id);
  }

  /** The step `CueStep` takes for a timing line that parses. */
  lemma CueStepOf(lines: seq<string>, cue: string, j: nat, k: nat, next: nat, acc: seq<TimedText>,
                  t: (real, real), caps: seq<TimedText>)
    requires j <= k <= |lines| && Find(cue, "-->").Some? && CueTiming(cue) == Ok(t)
    requires BlockEnd(lines, j) == k && BlockEnd(lines, k) == next
    requires IsStripped(BlockText(lines, j, k)) && t.0 >= 0.0 && t.1 >= 0.0
    requires caps == AddCaption(acc, TimedText(BlockText(lines, j, k), t.0, t.1))
    ensures CueStep(lines, cue, j, acc) == Continue(next, caps)
  {
  }

  /** The id line: digits, so neither blank nor a header. */
  lemma IdLine(id: nat)
    ensures var s := NatToString(id); Strip(s) == s && s != [] && AllDigits(s) && !IsHeader(s)
  {
    var s := NatToString(id);
    StripOfStripped(s);
  }

  lemma HeaderSkipped(lines: seq<string>, acc: seq<TimedText>)
    requires lines != [] && lines[0] == "WEBVTT"
    ensures ParseFrom(lines, 0, acc) == ParseFrom(lines, 1, acc)
  {
    HeaderStep(lines, acc);
    Advance(lines, 0, acc, 1, acc);
  }

  lemma HeaderStep(lines: seq<string>, acc: seq<TimedText>)
    requires lines != [] && lines[0] == "WEBVTT"
    ensures ReadStep(lines, 0, acc) == Continue(1, acc)
  {
    HeaderLine();
  }

  lemma BlankStep(lines: seq<string>, i: nat, acc: seq<TimedText>)
    requires i < |lines| && Strip(lines[i]) == []
    ensures ReadStep(lines, i, acc) == Continue(i + 1, acc)
  {
  }

  lemma HeaderLine()
    ensures Strip("WEBVTT") == "WEBVTT" && IsHeader("WEBVTT")
  {
    StripOfStripped("WEBVTT");
  }

  lemma BlankSkipped(lines: seq<string>, i: nat, acc: seq<TimedText>)
    requires i < |lines| && Strip(lines[i]) == []
    ensures ParseFrom(lines, i, acc) == ParseFrom(lines, i + 1, acc)
  {
    BlankStep(lines, i, acc);
    Advance(lines, i, acc, i + 1, acc);
  }

  lemma BlankText(lines: seq<string>, j: nat)
    requires j <= |lines|
    ensures BlockText(lines, j, j) == []
  {
    assert StripEach(lines[j..j]) == [];
  }

  /** The text of a one-line block is that line, stripped. */
  lemma BlockTextOne(lines: seq<string>, j: nat)
    requires j < |lines|
    ensures BlockText(lines, j, j + 1) == Strip(lines[j])
  {
    assert lines[j..j + 1] == [lines[j]];
    assert StripEach([lines[j]]) == [Strip(lines[j])];
    StripOfStripped(Strip(lines[j]));
  }

  // ---------------------------------------------------------------- the timing line

  predicate IsClockChar(c: char) {
    IsAsciiDigit(c) || c == ':' || c == '.'
  }

  /** A written clock is twelve clock characters, with a digit at each end. */
  lemma ClockChars(c: Clock)
    requires WellFormed(c)
    ensures var s := ClockText(c);
      |s| == 12 && IsAsciiDigit(s[0]) && IsAsciiDigit(s[11]) && forall i :: 0 <= i < 12 ==> IsClockChar(s[i])
  {
    var s := ClockText(c);
    forall i | 0 <= i < 12
      ensures IsClockChar(s[i])
    {
      if i < 2 {
        assert s[i] == c.hh[i];
      } else if 3 <= i < 5 {
        assert s[i] == c.mm[i - 3];
      } else if 6 <= i < 8 {
        assert s[i] == c.ss[i - 6];
      } else if 9 <= i {
        assert s[i] == c.ff[i - 9];
      }
    }
  }

  /** The timing line is two clocks around " --> ". */
  lemma TimingChars(c: Cue)
    requires Writable(c)
    ensures var t := TimingLine(c);
      |t| == 29 && t[..13] == ClockText(c.start) + " " && t[16..] == " " + ClockText(c.end) &&
      t[13..16] == "-->" && t[12] == ' ' && t[16] == ' ' &&
      (forall i :: 0 <= i < 12 ==> IsClockChar(t[i])) && (forall i :: 17 <= i < 29 ==> IsClockChar(t[i])) &&
      IsAsciiDigit(t[0]) && IsAsciiDigit(t[28])
  {
    var a, b := ClockText(c.start), ClockText(c.end);
    ClockChars(c.start);
    ClockChars(c.end);
    var t := TimingLine(c);
    assert t == a + " --> " + b;
    forall i | 17 <= i < 29
      ensures IsClockChar(t[i])
    {
      assert t[i] == b[i - 17];
    }
  }

  /** The reader finds the arrow at index 13 and parses both clocks. */
  lemma TimingOf(c: Cue)
    requires Writable(c)
    ensures var t := TimingLine(c);
      Strip(t) == t && Find(t, "-->") == Some(13) && CueTiming(t) == Ok((Seconds(c.start), Seconds(c.end)))
  {
    var t := TimingLine(c);
    var a, b := ClockText(c.start), ClockText(c.end);
    ClockParses(c.start);
    ClockParses(c.end);
    TimingChars(c);
    TimingStripped(t);
    ArrowAt13(c);
    RestHasNoArrow(b);
    StripTrailingSpace(a);
    StripLeadingSpace(b);
    WordsOfWord(b);
    TimingFields(t, a, b, Seconds(c.start), Seconds(c.end));
  }

  lemma TimingStripped(t: string)
    requires t != [] && IsAsciiDigit(t[0]) && IsAsciiDigit(t[|t| - 1])
    ensures Strip(t) == t
  {
    StripOfStripped(t);
  }

  /** The first arrow of a timing line is the one between the clocks. */
  lemma ArrowAt13(c: Cue)
    requires Writable(c)
    ensures Find(TimingLine(c), "-->") == Some(13)
  {
    var t := TimingLine(c);
    TimingChars(c);
    forall j | 0 <= j < 13
      ensures t[j] != '-'
    {
      if j < 12 {
        ClockCharIsPlain(t[j]);
      }
    }
    ArrowFound(t, 13);
  }

  lemma RestHasNoArrow(b: string)
    requires forall i :: 0 <= i < |b| ==> b[i] != '-'
    ensures Find(" " + b, "-->") == None
  {
    var s := " " + b;
    forall i | 0 <= i < |s|
      ensures s[i] != '-'
    {
      if i > 0 {
        assert s[i] == b[i - 1];
      }
    }
    NoArrowAfter(s);
  }

  /** `CueTiming` of a line with its arrow at 13 and the two stripped clocks around it. */
  lemma TimingFields(t: string, a: string, b: string, v: real, w: real)
    requires |t| >= 16 && Find(t, "-->") == Some(13) && t[..13] == a + " " && t[16..] == " " + b
    requires Find(" " + b, "-->") == None && Strip(a + " ") == a && Strip(" " + b) == b && Words(b) == [b]
    requires ReplaceChar(a, ',', ".") == a && ReplaceChar(b, ',', ".") == b
    requires ParseVttTimestamp(a) == Ok(v) && ParseVttTimestamp(b) == Ok(w)
    ensures CueTiming(t) == Ok((v, w))
  {
  }

  lemma ArrowFound(t: string, p: nat)
    requires p + 3 <= |t| && t[p..p + 3] == "-->" && forall j :: 0 <= j < p ==> t[j] != '-'
    ensures Find(t, "-->") == Some(p)
  {
    assert OccursAt(t, "-->", p);
    forall j | 0 <= j < p
      ensures !OccursAt(t, "-->", j)
    {
      assert t[j..j + 3][0] == t[j];
    }
  }

  lemma NoArrowAfter(s: string)
    requires forall i :: 0 <= i < |s| ==> s[i] != '-'
    ensures Find(s, "-->") == None
  {
    forall j | 0 <= j <= |s|
      ensures !OccursAt(s, "-->", j)
    {
      if j + 3 <= |s| {
        assert s[j..j + 3][0] == s[j];
      }
    }
  }

  /** A clock parses, and ',' does not occur in it. */
  lemma ClockParses(c: Clock)
    requires WellFormed(c)
    ensures var s := ClockText(c);
      ParseVttTimestamp(s) == Ok(Seconds(c)) && ReplaceChar(s, ',', ".") == s && NoSpace(s) && s != [] &&
      IsStripped(s) && forall i :: 0 <= i < |s| ==> s[i] != '-'
  {
    ClockChars(c);
    var s := ClockText(c);
    forall i | 0 <= i < |s|
      ensures s[i] != ',' && s[i] != '-' && !IsSpace(s[i])
    {
      ClockCharIsPlain(s[i]);
    }
    assert ',' !in s;
    ParseFullStamp(c.hh, c.mm, c.ss, c.ff);
    SecondsIsStampValue(c);
  }

  /** The value the reader gives a clock is the seconds it denotes. */
  lemma ClockValue(c: Clock)
    requires WellFormed(c)
    ensures ParseVttTimestamp(ClockText(c)) == Ok(Seconds(c))
  {
    ParseFullStamp(c.hh, c.mm, c.ss, c.ff);
    SecondsIsStampValue(c);
  }

  lemma ClockValueIs(c: Clock, v: real)
    requires WellFormed(c) && Seconds(c) == v
    ensures ParseVttTimestamp(ClockText(c)) == Ok(v)
  {
    ClockValue(c);
  }

  lemma ClockCharIsPlain(c: char)
    requires IsClockChar(c)
    ensures c != ',' && c != '-' && !IsSpace(c)
  {
  }

  lemma StripTrailingSpace(w: string)
    requires w != [] && IsStripped(w)
    ensures Strip(w + " ") == w
  {
    var s := w + " ";
    assert s[0] == w[0];
    assert SkipSpace(s, 0) == 0;
    assert s[|s| - 2] == w[|w| - 1];
    assert SpaceStart(s, |s|) == SpaceStart(s, |s| - 1) == |w|;
    assert s[..|w|] == w;
  }

  lemma StripLeadingSpace(w: string)
    requires w != [] && IsStripped(w)
    ensures Strip(" " + w) == w
  {
    var s := " " + w;
    assert s[1] == w[0];
    assert SkipSpace(s, 0) == SkipSpace(s, 1) == 1;
    assert LStrip(s) == w;
    assert SpaceStart(w, |w|) == |w|;
  }
}
