/** The WebVTT reader of `app/services/caption.py`: `_parse_vtt_timestamp`, which
    turns one cue time into seconds, and `parse_webvtt_to_captions`, which turns a
    `.vtt` file into the `{"text", "start_ts", "end_ts"}` caption items the subtitle
    segmenters consume. */
module WebVtt {
  import opened Results
  import opened Text
  import opened Timeline

  // ---------------------------------------------------------------- timestamps

  /** `\d{2}\.\d{1,3}`: two digits of seconds, a point, one to three digits of fraction. */
  predicate IsSecondsField(s: string) {
    4 <= |s| <= 6 && IsDigitPair(s[..2]) && s[2] == '.' && IsFraction(s[3..])
  }

  /** `\d{2}` */
  predicate IsDigitPair(s: string) {
    |s| == 2 && IsAsciiDigit(s[0]) && IsAsciiDigit(s[1])
  }

  /** `\d{1,3}` */
  predicate IsFraction(s: string) {
    1 <= |s| <= 3 && IsAsciiDigit(s[0]) && (|s| >= 2 ==> IsAsciiDigit(s[1])) && (|s| == 3 ==> IsAsciiDigit(s[2]))
  }

  /** `float()` of a seconds field, as an exact real. */
  function SecondsValue(s: string): (v: real)
    requires IsSecondsField(s)
    ensures v >= 0.0
  {
    DigitsValue(s[..2]) as real + Fraction(DigitsValue(s[3..]), Pow10(|s| - 3))
  }

  /** `n / d` as a real. */
  function Fraction(n: nat, d: nat): (v: real)
    requires d >= 1
    ensures 0.0 <= v
  {
    FractionNonNegative(n, d);
    n as real / d as real
  }

  lemma FractionNonNegative(n: nat, d: nat)
    requires d >= 1
    ensures 0.0 <= n as real / d as real
  {
    var q := n as real / d as real;
    assert q * d as real == n as real;
  }

  /** `(\d{2}):(\d{2}\.\d{1,3})`: minutes, a colon and a seconds field. */
  predicate IsMinSec(t: string) {
    |t| >= 3 && IsDigitPair(t[..2]) && t[2] == ':' && IsSecondsField(t[3..])
  }

  function MinSecValue(t: string): (v: real)
    requires IsMinSec(t)
    ensures v >= 0.0
  {
    DigitsValue(t[..2]) as real * 60.0 + SecondsValue(t[3..])
  }

  /** The regular expression `(?:(\d{1,2}):)?(\d{2}):(\d{2}\.\d{1,3})$` matched against
      the whole of `t`, tried with two hour digits, then one, then none; the value is
      hours * 3600 + minutes * 60 + seconds. */
  function MatchStamp(t: string): (r: Option<real>)
    ensures r.Some? ==> r.value >= 0.0
  {
    if |t| >= 3 && IsDigitPair(t[..2]) && t[2] == ':' && IsMinSec(t[3..]) then
      Some(DigitsValue(t[..2]) as real * 3600.0 + MinSecValue(t[3..]))
    else if |t| >= 2 && IsAsciiDigit(t[0]) && t[1] == ':' && IsMinSec(t[2..]) then
      Some(DigitsValue(t[..1]) as real * 3600.0 + MinSecValue(t[2..]))
    else if IsMinSec(t) then
      Some(MinSecValue(t))
    else
      None
  }

  /** `_parse_vtt_timestamp`: the stamp grammar on the stripped text, or `ValueError`. */
  function ParseVttTimestamp(ts: string): (r: Result<real>)
    ensures r.Ok? ==> r.value >= 0.0
    ensures r.Err? ==> r.error == ValueError("Invalid VTT timestamp: " + ts)
  {
    match MatchStamp(Strip(ts))
    case Some(v) => Ok(v)
    case None => Err(ValueError("Invalid VTT timestamp: " + ts))
  }

  /** The value a stamp built from its digit fields denotes. */
  function StampValue(hh: string, mm: string, ss: string, ff: string): real
    requires AllDigits(hh) && AllDigits(mm) && AllDigits(ss) && AllDigits(ff)
  {
    DigitsValue(hh) as real * 3600.0 + DigitsValue(mm) as real * 60.0 + DigitsValue(ss) as real
      + Fraction(DigitsValue(ff), Pow10(|ff|))
  }

  lemma DigitsHaveNoSpace(s: string)
    requires AllDigits(s)
    ensures NoSpace(s) && ',' !in s
  {
  }

  /** A stamp `hh:mm:ss.fff` with two-digit hours, minutes and seconds and one to three
      fraction digits is accepted, and denotes what its fields say. */
  lemma ParseFullStamp(hh: string, mm: string, ss: string, ff: string)
    requires |hh| == 2 && |mm| == 2 && |ss| == 2 && 1 <= |ff| <= 3
    requires AllDigits(hh) && AllDigits(mm) && AllDigits(ss) && AllDigits(ff)
    ensures ParseVttTimestamp(Stamp(hh, mm, ss, ff)) == Ok(StampValue(hh, mm, ss, ff))
  {
    StampNested(hh, mm, ss, ff);
    ParseNestedStamp(hh, mm, ss, ff);
  }

  /** A stamp `mm:ss.fff` without hours is accepted, and denotes minutes * 60 plus
      the seconds, with hours taken as 0. */
  lemma ParseMinSecStamp(mm: string, ss: string, ff: string)
    requires |mm| == 2 && |ss| == 2 && 1 <= |ff| <= 3
    requires AllDigits(mm) && AllDigits(ss) && AllDigits(ff)
    ensures ParseVttTimestamp(mm + ":" + ss + "." + ff) == Ok(StampValue("", mm, ss, ff))
  {
    var sec := ss + "." + ff;
    var t := mm + ":" + sec;
    assert mm + ":" + ss + "." + ff == t;
    SecondsFieldOf(ss, ff);
    assert IsDigitPair(mm);
    MinSecOf(mm, sec);
    MatchMinSec(t);
    assert t[0] == mm[0] && t[|t| - 1] == ff[|ff| - 1];
    ParseOfStripped(t, StampValue("", mm, ss, ff));
  }

  /** The third shape of `MatchStamp`: a minutes-and-seconds text fits neither hours shape. */
  lemma MatchMinSec(t: string)
    requires IsMinSec(t)
    ensures MatchStamp(t) == Some(MinSecValue(t))
  {
    assert t[3..][2] == t[5] == '.';
  }

  /** A stamp `h:mm:ss.fff` with a single hour digit is accepted, and denotes what
      its fields say. */
  lemma ParseOneDigitHourStamp(h: string, mm: string, ss: string, ff: string)
    requires |h| == 1 && |mm| == 2 && |ss| == 2 && 1 <= |ff| <= 3
    requires AllDigits(h) && AllDigits(mm) && AllDigits(ss) && AllDigits(ff)
    ensures ParseVttTimestamp(Stamp(h, mm, ss, ff)) == Ok(StampValue(h, mm, ss, ff))
  {
    var sec := ss + "." + ff;
    var ms := mm + ":" + sec;
    var t := h + ":" + ms;
    assert Stamp(h, mm, ss, ff) == t;
    SecondsFieldOf(ss, ff);
    assert IsDigitPair(mm);
    MinSecOf(mm, sec);
    MatchOneDigitHour(t, h, ms, StampValue(h, mm, ss, ff));
    assert t[0] == h[0] && t[|t| - 1] == ff[|ff| - 1];
    ParseOfStripped(t, StampValue(h, mm, ss, ff));
  }

  /** The second shape of `MatchStamp`, with the fields of `t` given by name. */
  lemma MatchOneDigitHour(t: string, h: string, ms: string, v: real)
    requires |h| == 1 && AllDigits(h) && IsMinSec(ms) && t == h + ":" + ms
    requires v == DigitsValue(h) as real * 3600.0 + MinSecValue(ms)
    ensures MatchStamp(t) == Some(v)
  {
    assert t[1] == ':' && t[2..] == ms && t[..1] == h;
  }

  /** The text of a stamp from its fields: `f"{h}:{m}:{s}.{ms}"`. */
  function Stamp(hh: string, mm: string, ss: string, ff: string): string {
    hh + ":" + mm + ":" + ss + "." + ff
  }

  lemma StampNested(hh: string, mm: string, ss: string, ff: string)
    ensures Stamp(hh, mm, ss, ff) == hh + ":" + (mm + ":" + (ss + "." + ff))
  {
  }

  lemma ParseNestedStamp(hh: string, mm: string, ss: string, ff: string)
    requires |hh| == 2 && |mm| == 2 && |ss| == 2 && 1 <= |ff| <= 3
    requires AllDigits(hh) && AllDigits(mm) && AllDigits(ss) && AllDigits(ff)
    ensures ParseVttTimestamp(hh + ":" + (mm + ":" + (ss + "." + ff))) == Ok(StampValue(hh, mm, ss, ff))
  {
    var t := hh + ":" + (mm + ":" + (ss + "." + ff));
    NestedMatch(hh, mm, ss, ff);
    NestedEnds(hh, mm, ss, ff);
    ParseOfStripped(t, StampValue(hh, mm, ss, ff));
  }

  lemma NestedMatch(hh: string, mm: string, ss: string, ff: string)
    requires |hh| == 2 && |mm| == 2 && |ss| == 2 && 1 <= |ff| <= 3
    requires AllDigits(hh) && AllDigits(mm) && AllDigits(ss) && AllDigits(ff)
    ensures MatchStamp(hh + ":" + (mm + ":" + (ss + "." + ff))) == Some(StampValue(hh, mm, ss, ff))
  {
    var sec := ss + "." + ff;
    var ms := mm + ":" + sec;
    SecondsFieldOf(ss, ff);
    assert IsDigitPair(mm) && IsDigitPair(hh);
    MinSecOf(mm, sec);
    HoursOf(hh, ms, StampValue(hh, mm, ss, ff));
  }

  lemma NestedEnds(hh: string, mm: string, ss: string, ff: string)
    requires |hh| == 2 && |ff| >= 1 && IsAsciiDigit(hh[0]) && IsAsciiDigit(ff[|ff| - 1])
    ensures var t := hh + ":" + (mm + ":" + (ss + "." + ff));
      t != [] && IsAsciiDigit(t[0]) && IsAsciiDigit(t[|t| - 1])
  {
    var t := hh + ":" + (mm + ":" + (ss + "." + ff));
    assert t[0] == hh[0];
    assert t[|t| - 1] == ff[|ff| - 1];
  }

  /** Text that starts and ends with a digit is parsed as it stands. */
  lemma ParseOfStripped(t: string, v: real)
    requires t != [] && IsAsciiDigit(t[0]) && IsAsciiDigit(t[|t| - 1]) && MatchStamp(t) == Some(v)
    ensures ParseVttTimestamp(t) == Ok(v)
  {
    StripOfStripped(t);
  }

  lemma MinSecOf(mm: string, sec: string)
    requires IsDigitPair(mm) && IsSecondsField(sec)
    ensures IsMinSec(mm + ":" + sec)
    ensures MinSecValue(mm + ":" + sec) == DigitsValue(mm) as real * 60.0 + SecondsValue(sec)
  {
    FieldAfterColon(mm, sec);
  }

  lemma HoursOf(hh: string, ms: string, v: real)
    requires IsDigitPair(hh) && IsMinSec(ms) && v == DigitsValue(hh) as real * 3600.0 + MinSecValue(ms)
    ensures MatchStamp(hh + ":" + ms) == Some(v)
  {
    var t := hh + ":" + ms;
    FieldAfterColon(hh, ms);
    MatchTwoDigitHours(t, hh, ms, v);
  }

  /** The first shape of `MatchStamp`, with the fields of `t` given by name. */
  lemma MatchTwoDigitHours(t: string, hh: string, ms: string, v: real)
    requires |t| >= 3 && t[..2] == hh && t[2] == ':' && t[3..] == ms
    requires IsDigitPair(hh) && IsMinSec(ms) && v == DigitsValue(hh) as real * 3600.0 + MinSecValue(ms)
    ensures MatchStamp(t) == Some(v)
  {
  }

  lemma SecondsFieldOf(ss: string, ff: string)
    requires |ss| == 2 && 1 <= |ff| <= 3 && AllDigits(ss) && AllDigits(ff)
    ensures IsSecondsField(ss + "." + ff)
    ensures SecondsValue(ss + "." + ff) == DigitsValue(ss) as real + Fraction(DigitsValue(ff), Pow10(|ff|))
  {
    var sec := ss + "." + ff;
    assert sec[..2] == ss;
    assert sec[2] == '.';
    assert sec[3..] == ff;
    assert |sec| == 3 + |ff|;
    assert IsSecondsField(sec);
    assert DigitsValue(sec[..2]) == DigitsValue(ss);
    assert DigitsValue(sec[3..]) == DigitsValue(ff);
  }

  /** The two digits before a colon, and what follows it. */
  lemma FieldAfterColon(d: string, rest: string)
    requires |d| == 2
    ensures (d + ":" + rest)[..2] == d && (d + ":" + rest)[2] == ':' && (d + ":" + rest)[3..] == rest
  {
  }

  /** A stamp whose hours field has three or more digits matches none of the shapes. */
  lemma RejectLongHours(hh: string, rest: string)
    requires |hh| >= 3 && AllDigits(hh)
    ensures ParseVttTimestamp(hh + ":" + rest).Err?
  {
    var t := hh + ":" + rest;
    assert t[0] == hh[0] && t[1] == hh[1] && t[2] == hh[2];
    LStripOfNonSpace(t);
    RStripKeepsPrefix(t, 3);
    var u := Strip(t);
    assert u[1] == t[1] && u[2] == t[2] by {
      assert u[..3] == t[..3];
    }
    NoMatchWithDigitsAhead(u);
  }

  lemma NoMatchWithDigitsAhead(u: string)
    requires |u| >= 3 && IsAsciiDigit(u[1]) && IsAsciiDigit(u[2])
    ensures MatchStamp(u) == None
  {
  }

  /** A stamp whose fraction has four or more digits matches none of the shapes. */
  lemma RejectLongFraction(hh: string, mm: string, ss: string, ff: string)
    requires |hh| == 2 && |mm| == 2 && |ss| == 2 && |ff| >= 4
    requires AllDigits(hh) && AllDigits(mm) && AllDigits(ss) && AllDigits(ff)
    ensures ParseVttTimestamp(Stamp(hh, mm, ss, ff)).Err?
  {
    var t := Stamp(hh, mm, ss, ff);
    assert t != [] && IsAsciiDigit(t[0]) && IsAsciiDigit(t[|t| - 1]) && IsAsciiDigit(t[1]) && t[5] == ':' by {
      assert t[0] == hh[0] && t[1] == hh[1] && t[5] == ':' && t[|t| - 1] == ff[|ff| - 1];
    }
    NoMatchWithLongSeconds(t);
    StripOfStripped(t);
  }

  lemma NoMatchWithLongSeconds(t: string)
    requires |t| >= 13 && IsAsciiDigit(t[1]) && t[5] == ':'
    ensures MatchStamp(t) == None
  {
  }

  lemma LStripOfNonSpace(s: string)
    requires s != [] && !IsSpace(s[0])
    ensures LStrip(s) == s
  {
  }

  /** Stripping the right end never touches a prefix that holds a non-space at its end. */
  lemma RStripKeepsPrefix(s: string, k: nat)
    requires 1 <= k <= |s| && !IsSpace(s[k - 1])
    ensures |RStrip(s)| >= k && RStrip(s)[..k] == s[..k]
  {
    SpaceStartAll(s, |s|);
    assert SpaceStart(s, |s|) >= k;
  }

  // ---------------------------------------------------------------- cue blocks

  /** `c.upper()` for ASCII letters. */
  function UpperChar(c: char): char {
    if 'a' <= c <= 'z' then (c as int - 32) as char else c
  }

  /** `ln.upper().startswith("WEBVTT")`. */
  predicate IsHeader(ln: string) {
    |ln| >= 6 && UpperChar(ln[0]) == 'W' && UpperChar(ln[1]) == 'E' && UpperChar(ln[2]) == 'B' &&
    UpperChar(ln[3]) == 'V' && UpperChar(ln[4]) == 'T' && UpperChar(ln[5]) == 'T'
  }

  /** `[x.strip() for x in ls]`. */
  function StripEach(ls: seq<string>): (r: seq<string>)
    ensures |r| == |ls|
  {
    seq(|ls|, k requires 0 <= k < |ls| => Strip(ls[k]))
  }

  /** The index of the first blank line at or after `j` (or the end): where a cue's
      text ends and where "skip until next blank" stops. */
  function BlockEnd(lines: seq<string>, j: nat): (k: nat)
    requires j <= |lines|
    ensures j <= k <= |lines|
    ensures forall m :: j <= m < k ==> !IsBlank(lines[m])
    ensures k < |lines| ==> IsBlank(lines[k])
    decreases |lines| - j
  {
    if j == |lines| || IsBlank(lines[j]) then j
    else
      var k := BlockEnd(lines, j + 1);
      assert !IsBlank(lines[j]);
      k
  }

  /** A line whose `strip()` is empty. */
  predicate IsBlank(line: string) {
    Strip(line) == []
  }

  /** The two times of a timing line `start --> end settings`: the text before the
      first arrow, and the first word of the text between the first and a second
      arrow, each with ',' read as '.'. A timing line with nothing after the arrow
      fails like `[][0]` does. */
  function CueTiming(ln: string): (r: Result<(real, real)>)
    requires Find(ln, "-->").Some?
    ensures r.Ok? ==> r.value.0 >= 0.0 && r.value.1 >= 0.0
  {
    var p := Find(ln, "-->").value;
    var rest := ln[p + 3..];
    var startS := Strip(ln[..p]);
    var endS := Strip(match Find(rest, "-->") case Some(q) => rest[..q] case None => rest);
    match ParseVttTimestamp(ReplaceChar(startS, ',', "."))
    case Err(e) => Err(e)
    case Ok(start) =>
      var ws := Words(endS);
      if ws == [] then Err(IndexError)
      else
        match ParseVttTimestamp(ReplaceChar(ws[0], ',', "."))
        case Err(e) => Err(e)
        case Ok(end) => Ok((start, end))
  }

  /** The caption text of the block `lines[j..k]`: its stripped lines joined by spaces. */
  function BlockText(lines: seq<string>, j: nat, k: nat): string
    requires j <= k <= |lines|
  {
    Strip(Join(StripEach(lines[j..k]), " "))
  }

  /** A caption the reader can emit: non-empty text with no whitespace at either
      end, and times that are not negative. */
  predicate IsReadCaption(c: TimedText) {
    c.text != [] && IsStripped(c.text) && c.startTs >= 0.0 && c.endTs >= 0.0
  }

  /** What one pass of the reader's outer loop leaves: the line to go on from and
      the captions so far, or the reader's final answer. */
  datatype Step = Continue(next: nat, caps: seq<TimedText>) | Stop(result: Result<seq<TimedText>>)

  /** One pass of the reader's outer loop at line `i`, with the captions `acc`
      collected so far: blank and `WEBVTT` lines are skipped, a numeric cue id is
      stepped over (the reader stops when it is the last line), a timing line opens
      a cue whose text runs to the next blank line and is kept when not empty, and
      any other line skips its block. A timing line that does not parse stops the
      reader with its error. */
  function ReadStep(lines: seq<string>, i: nat, acc: seq<TimedText>): (s: Step)
    requires i < |lines|
    ensures s.Continue? ==> i < s.next <= |lines|
  {
    var ln := Strip(lines[i]);
    if ln == [] || IsHeader(ln) then Continue(i + 1, acc)
    else if AllDigits(ln) && i + 1 == |lines| then Stop(Ok(acc))
    else if AllDigits(ln) then CueStep(lines, Strip(lines[i + 1]), i + 2, acc)
    else CueStep(lines, ln, i + 1, acc)
  }

  /** The rest of a pass once the line that should time a cue is read and the
      reader stands at line `j`. */
  function CueStep(lines: seq<string>, cue: string, j: nat, acc: seq<TimedText>): (s: Step)
    requires j <= |lines|
    ensures s.Continue? ==> j <= s.next <= |lines|
  {
    if Find(cue, "-->").None? then Continue(BlockEnd(lines, j), acc)
    else
      match CueTiming(cue)
      case Err(e) => Stop(Err(e))
      case Ok(t) =>
        var k := BlockEnd(lines, j);
        Continue(BlockEnd(lines, k), AddCaption(acc, TimedText(BlockText(lines, j, k), t.0, t.1)))
  }

  /** `if text: captions.append(...)`. */
  function AddCaption(acc: seq<TimedText>, c: TimedText): (r: seq<TimedText>)
    requires IsStripped(c.text) && c.startTs >= 0.0 && c.endTs >= 0.0
    ensures r == acc || (|r| == |acc| + 1 && r[..|acc|] == acc && IsReadCaption(r[|acc|]))
  {
    if c.text == [] then acc else acc + [c]
  }

  /** The reader's outer loop from line `i`. */
  function ParseFrom(lines: seq<string>, i: nat, acc: seq<TimedText>): Result<seq<TimedText>>
    requires i <= |lines|
    decreases |lines| - i, 1
  {
    if i == |lines| then Ok(acc) else ParseStep(lines, ReadStep(lines, i, acc))
  }

  /** Where the loop goes after a pass. */
  function ParseStep(lines: seq<string>, s: Step): Result<seq<TimedText>>
    requires s.Continue? ==> s.next <= |lines|
    decreases if s.Continue? then |lines| - s.next else 0, 2
  {
    match s
    case Continue(next, caps) => ParseFrom(lines, next, caps)
    case Stop(r) => r
  }

  /** The reader only ever appends to what it has collected, and all it appends are
      well-formed captions. */
  lemma {:induction false} ParseFromExtends(lines: seq<string>, i: nat, acc: seq<TimedText>)
    requires i <= |lines|
    ensures ParseFrom(lines, i, acc).Ok? ==>
              var caps := ParseFrom(lines, i, acc).value;
              |acc| <= |caps| && caps[..|acc|] == acc && forall k :: |acc| <= k < |caps| ==> IsReadCaption(caps[k])
    decreases |lines| - i
  {
    if i < |lines| {
      ReadStepExtends(lines, i, acc);
    }
    if i < |lines| && ReadStep(lines, i, acc).Continue? {
      var s := ReadStep(lines, i, acc);
      ParseFromExtends(lines, s.next, s.caps);
      assert ParseFrom(lines, i, acc) == ParseFrom(lines, s.next, s.caps);
      if ParseFrom(lines, s.next, s.caps).Ok? {
        ExtendsThrough(acc, s.caps, ParseFrom(lines, s.next, s.caps).value);
      }
    }
  }

  /** One pass keeps what was collected and adds at most one well-formed caption. */
  lemma ReadStepExtends(lines: seq<string>, i: nat, acc: seq<TimedText>)
    requires i < |lines|
    ensures var s := ReadStep(lines, i, acc);
      s.Continue? ==> s.caps == acc || (|s.caps| == |acc| + 1 && s.caps[..|acc|] == acc && IsReadCaption(s.caps[|acc|]))
    ensures var s := ReadStep(lines, i, acc);
      s.Stop? ==> s.result.Err? || s.result == Ok(acc)
  {
    var ln := Strip(lines[i]);
    if ln == [] || IsHeader(ln) {
    } else if AllDigits(ln) && i + 1 == |lines| {
    } else if AllDigits(ln) {
      CueStepExtends(lines, Strip(lines[i + 1]), i + 2, acc);
    } else {
      CueStepExtends(lines, ln, i + 1, acc);
    }
  }

  lemma CueStepExtends(lines: seq<string>, cue: string, j: nat, acc: seq<TimedText>)
    requires j <= |lines|
    ensures var s := CueStep(lines, cue, j, acc);
      s.Continue? ==> s.caps == acc || (|s.caps| == |acc| + 1 && s.caps[..|acc|] == acc && IsReadCaption(s.caps[|acc|]))
    ensures CueStep(lines, cue, j, acc).Stop? ==> CueStep(lines, cue, j, acc).result.Err?
  {
  }

  lemma ExtendsThrough(acc: seq<TimedText>, mid: seq<TimedText>, caps: seq<TimedText>)
    requires mid == acc || (|mid| == |acc| + 1 && mid[..|acc|] == acc && IsReadCaption(mid[|acc|]))
    requires |mid| <= |caps| && caps[..|mid|] == mid
    requires forall k :: |mid| <= k < |caps| ==> IsReadCaption(caps[k])
    ensures |acc| <= |caps| && caps[..|acc|] == acc
    ensures forall k :: |acc| <= k < |caps| ==> IsReadCaption(caps[k])
  {
    assert caps[..|acc|] == mid[..|acc|];
    if mid != acc {
      assert caps[|acc|] == mid[|acc|];
    }
  }

  /** `parse_webvtt_to_captions`: the reader run over the lines of the file. */
  function ParseWebVtt(vttText: string): Result<seq<TimedText>> {
    ParseFrom(SplitLines(vttText), 0, [])
  }

  /** The cases of one pass, as the reader's loop takes them. */
  lemma ReadStepCases(lines: seq<string>, i: nat, acc: seq<TimedText>)
    requires i < |lines|
    ensures var ln := Strip(lines[i]);
      ParseFrom(lines, i, acc) ==
        if ln == [] || IsHeader(ln) then ParseFrom(lines, i + 1, acc)
        else if AllDigits(ln) && i + 1 == |lines| then Ok(acc)
        else if AllDigits(ln) then ParseStep(lines, CueStep(lines, Strip(lines[i + 1]), i + 2, acc))
        else ParseStep(lines, CueStep(lines, ln, i + 1, acc))
  {
  }

  /** `parse_webvtt_to_captions` with its loops. */
  method ParseWebVttToCaptions(vttText: string) returns (r: Result<seq<TimedText>>)
    ensures r == ParseWebVtt(vttText)
  {
    var lines := SplitLines(vttText);
    var captions: seq<TimedText> := [];
    var i := 0;
    while i < |lines|
      invariant i <= |lines|
      invariant ParseFrom(lines, i, captions) == ParseWebVtt(vttText)
      decreases |lines| - i
    {
      ghost var i0, caps0 := i, captions;
      var ln := Strip(lines[i]);
      i := i + 1;
      if ln == [] || IsHeader(ln) {
        ReadStepCases(lines, i0, caps0);
        continue;
      }
      if AllDigits(ln) {
        if i >= |lines| {
          // the numeric id was the last line
          ReadStepCases(lines, i0, caps0);
          return Ok(captions);
        }
        ln := Strip(lines[i]);
        i := i + 1;
      }
      ReadStepCases(lines, i0, caps0);
      var step := ReadCue(lines, ln, i, captions);
      if step.Stop? {
        return step.result;
      }
      i, captions := step.next, step.caps;
    }
    return Ok(captions);
  }

  /** The body of the reader's loop from the line that should time a cue: the cue's
      text lines are gathered and the caption kept when its text is not empty, and
      then the reader skips to the next blank line. */
  method ReadCue(lines: seq<string>, ln: string, j: nat, captions: seq<TimedText>) returns (step: Step)
    requires j <= |lines|
    ensures step == CueStep(lines, ln, j, captions)
  {
    var i := j;
    var caps := captions;
    if Find(ln, "-->").Some? {
      var timing := CueTiming(ln);
      if timing.Err? {
        return Stop(Err(timing.error));
      }
      var buff;
      buff, i := CollectBlock(lines, i);
      var text := Strip(Join(buff, " "));
      assert text == BlockText(lines, j, i);
      if text != [] {
        caps := caps + [TimedText(text, timing.value.0, timing.value.1)];
      }
    }
    i := SkipBlock(lines, i);
    return Continue(i, caps);
  }

  /** The loop that gathers a cue's stripped text lines up to the next blank line. */
  method CollectBlock(lines: seq<string>, j: nat) returns (buff: seq<string>, i: nat)
    requires j <= |lines|
    ensures i == BlockEnd(lines, j)
    ensures buff == StripEach(lines[j..i])
  {
    buff, i := [], j;
    assert |StripEach(lines[j..i])| == 0;
    while i < |lines| && !IsBlank(lines[i])
      invariant j <= i <= |lines|
      invariant forall m :: j <= m < i ==> !IsBlank(lines[m])
      invariant buff == StripEach(lines[j..i])
      decreases |lines| - i
    {
      StripEachSnoc(lines, j, i);
      buff := buff + [Strip(lines[i])];
      i := i + 1;
    }
    BlockEndIs(lines, j, i);
  }

  lemma StripEachSnoc(lines: seq<string>, j: nat, i: nat)
    requires j <= i < |lines|
    ensures StripEach(lines[j..i + 1]) == StripEach(lines[j..i]) + [Strip(lines[i])]
  {
    assert lines[j..i + 1] == lines[j..i] + [lines[i]];
  }

  /** The loop that skips to the next blank line. */
  method SkipBlock(lines: seq<string>, k: nat) returns (i: nat)
    requires k <= |lines|
    ensures i == BlockEnd(lines, k)
  {
    i := k;
    while i < |lines| && !IsBlank(lines[i])
      invariant k <= i <= |lines|
      invariant forall m :: k <= m < i ==> !IsBlank(lines[m])
      decreases |lines| - i
    {
      i := i + 1;
    }
    BlockEndIs(lines, k, i);
  }

  /** The first blank line at or after `j` is where `BlockEnd` stops. */
  lemma {:induction false} BlockEndIs(lines: seq<string>, j: nat, i: nat)
    requires j <= i <= |lines|
    requires forall m :: j <= m < i ==> !IsBlank(lines[m])
    requires i == |lines| || IsBlank(lines[i])
    ensures BlockEnd(lines, j) == i
    decreases i - j
  {
    if j < i {
      BlockEndIs(lines, j + 1, i);
    }
  }
}
