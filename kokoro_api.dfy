/** The caption helpers of `app/routers/tts_kokoro_api.py`: `_fmt_ts` and
    the cue list `_write_vtt` writes (the route itself is in KokoroRoute).
    Seconds are exact `real`s here; the engines, the clock and the file system
    are inputs. */
module KokoroApi {
  import opened Results
  import opened Text
  import opened Numeric
  import opened Timeline
  import opened WebVtt
  import opened VttWriter
  import opened AzureTts

  // ---------------------------------------------------------------- arithmetic

  /** Shifting by an even integer shifts the rounded value by the same amount. */
  lemma RoundShift(x: real, k: int)
    requires k % 2 == 0
    ensures RoundHalfEven(x + k as real) == RoundHalfEven(x) + k
  {
    assert (x + k as real).Floor == x.Floor + k;
    assert (x.Floor + k) % 2 == x.Floor % 2;
  }

  /** Python's `x % m` on floats for a positive modulus: the result has the sign of `m`. */
  function FloorMod(x: real, m: real): real
    requires m > 0.0
  {
    x - m * (x / m).Floor as real
  }

  /** Whole units of `m` in a non-negative `t` are the whole part of `t` divided by `m`;
      what is left over is the whole remainder plus the fraction of `t`. */
  lemma FloorDiv(t: real, m: int)
    requires t >= 0.0 && m > 0
    ensures (t / m as real).Floor == t.Floor / m
    ensures FloorMod(t, m as real) == (t.Floor % m) as real + (t - t.Floor as real)
  {
    var w := t.Floor;
    var q, r := w / m, w % m;
    var f := t - w as real;
    assert w == q * m + r;
    var x := t / m as real;
    assert x * m as real == t;
    assert (q * m) as real <= t;
    assert t < (q * m + m) as real;
    assert q as real * m as real <= x * m as real;
    assert x * m as real < (q + 1) as real * m as real;
    assert q as real <= x < (q + 1) as real;
  }

  /** Hours, minutes below 60 and seconds below 60 of a whole number of seconds. */
  lemma HmsSplit(w: int)
    requires w >= 0
    ensures (w / 3600) * 3600 + ((w % 3600) / 60) * 60 + w % 60 == w
    ensures 0 <= (w % 3600) / 60 < 60
  {
    var h, a := w / 3600, w % 3600;
    var mi, s := a / 60, a % 60;
    assert w == h * 3600 + a;
    ModSixty(a, mi, s);
    assert mi * 60 <= a < 3600;
    ModSixty(w, h * 60 + mi, s);
  }

  /** The quotient and remainder by 60 are the only ones with the remainder below 60. */
  lemma ModSixty(w: int, q: int, s: int)
    requires w == q * 60 + s && 0 <= s < 60
    ensures w % 60 == s && w / 60 == q
  {
  }

  /** The split `ms_to_vtt` makes is the only one with minutes and seconds below 60
      and milliseconds below 1000. */
  lemma SplitMsUnique(n: int, f: ClockFields)
    requires f.h * 3600000 + f.m * 60000 + f.s * 1000 + f.ms == n
    requires 0 <= f.m < 60 && 0 <= f.s < 60 && 0 <= f.ms < 1000
    ensures SplitMs(n) == f
  {
    var rest := f.m * 60000 + f.s * 1000 + f.ms;
    assert 0 <= rest < 3600000;
    assert n / 3600000 == f.h && n % 3600000 == rest;
    var low := f.s * 1000 + f.ms;
    assert 0 <= low < 60000;
    assert rest / 60000 == f.m && rest % 60000 == low;
    assert low / 1000 == f.s && low % 1000 == f.ms;
  }

  // ---------------------------------------------------------------- _fmt_ts

  /** Negative times are clamped to zero. */
  function Clamp(ts: real): (t: real)
    ensures t >= 0.0 && (ts >= 0.0 ==> t == ts)
  {
    if ts < 0.0 then 0.0 else ts
  }

  datatype TsFields = TsFields(hours: int, minutes: int, seconds: int, millis: int)

  /** The four numbers `_fmt_ts` computes from the clamped time: `ts // 3600`,
      `(ts % 3600) // 60`, `ts % 60` truncated, and the rounded fraction in milliseconds. */
  function FmtFields(ts: real): TsFields {
    var t := Clamp(ts);
    TsFields((t / 3600.0).Floor, (FloorMod(t, 3600.0) / 60.0).Floor, FloorMod(t, 60.0).Floor,
             RoundHalfEven((t - t.Floor as real) * 1000.0))
  }

  function FmtClock(ts: real): Clock {
    var f := FmtFields(ts);
    Clock(FormatInt(f.hours, 2), FormatInt(f.minutes, 2), FormatInt(f.seconds, 2), FormatInt(f.millis, 3))
  }

  /** `_fmt_ts`. */
  function FmtTs(ts: real): string {
    ClockText(FmtClock(ts))
  }

  /** The fields split the whole seconds of the clamped time into hours, minutes
      below 60 and seconds below 60; the milliseconds lie in 0..1000, both ends included. */
  lemma FmtFieldsSplit(ts: real)
    ensures var f := FmtFields(ts); var w := Clamp(ts).Floor;
      f.hours * 3600 + f.minutes * 60 + f.seconds == w && f.hours >= 0 &&
      0 <= f.minutes < 60 && 0 <= f.seconds < 60 && 0 <= f.millis <= 1000
  {
    FmtFieldsWhole(ts);
    HmsSplit(Clamp(ts).Floor);
  }

  /** Hours, minutes and seconds are those of the whole seconds of the clamped time. */
  lemma FmtFieldsWhole(ts: real)
    ensures var f := FmtFields(ts); var w := Clamp(ts).Floor;
      f.hours == w / 3600 && f.minutes == (w % 3600) / 60 && f.seconds == w % 60
  {
    var t := Clamp(ts);
    var w := t.Floor;
    var frac := t - w as real;
    FloorDiv(t, 3600);
    var rest := FloorMod(t, 3600.0);
    WholePlusFraction(w % 3600, frac);
    FloorDiv(rest, 60);
    FloorDiv(t, 60);
    WholePlusFraction(w % 60, frac);
  }

  /** A whole number plus a fraction in [0, 1) has that whole number as its floor. */
  lemma WholePlusFraction(n: int, f: real)
    requires 0.0 <= f < 1.0
    ensures (n as real + f).Floor == n
  {
  }

  /** A negative time formats as zero. */
  lemma FmtTsClamps(ts: real)
    requires ts < 0.0
    ensures FmtTs(ts) == FmtTs(0.0)
  {
  }

  /** The milliseconds round up to 1000 exactly when the fraction is at least 0.9995. */
  lemma FmtMillisCarry(ts: real)
    ensures var t := Clamp(ts);
      FmtFields(ts).millis == 1000 <==> (t - t.Floor as real) * 1000.0 >= 999.5
  {
  }

  /** Such a time formats with a four-digit fraction, which the reader rejects. */
  lemma FmtTsLongFraction(ts: real)
    requires FmtFields(ts).millis == 1000 && FmtFields(ts).hours < 100
    ensures |FmtClock(ts).ff| == 4
    ensures ParseVttTimestamp(FmtTs(ts)).Err?
  {
    var c := FmtClock(ts);
    CarriedClockFields(ts);
    RejectLongFraction(c.hh, c.mm, c.ss, c.ff);
  }

  /** The clock fields of a carried timestamp: two digits each for hours, minutes
      and seconds, and the four digits "1000" for the fraction. */
  lemma CarriedClockFields(ts: real)
    requires FmtFields(ts).millis == 1000 && FmtFields(ts).hours < 100
    ensures var c := FmtClock(ts);
      |c.hh| == 2 && |c.mm| == 2 && |c.ss| == 2 && c.ff == "1000" &&
      AllDigits(c.hh) && AllDigits(c.mm) && AllDigits(c.ss) && AllDigits(c.ff)
  {
    var f := FmtFields(ts);
    FmtFieldsSplit(ts);
    PaddedField(f.hours, 2);
    PaddedField(f.minutes, 2);
    PaddedField(f.seconds, 2);
    ThousandDigits();
  }

  /** 1000 written with at least three digits is "1000". */
  lemma ThousandDigits()
    ensures FormatInt(1000, 3) == "1000" && AllDigits("1000")
  {
    assert NatToString(1) == "1";
    assert NatToString(10) == NatToString(1) + [DigitChar(0)];
    assert NatToString(100) == NatToString(10) + [DigitChar(0)];
    assert NatToString(1000) == NatToString(100) + [DigitChar(0)];
  }

  /** 0.9996 seconds comes out as `00:00:00.1000`. */
  lemma FmtTsCarryExample()
    ensures FmtTs(0.9996) == "00:00:00.1000"
    ensures ParseVttTimestamp(FmtTs(0.9996)).Err?
  {
    var f := FmtFields(0.9996);
    assert (0.9996).Floor == 0;
    FloorDiv(0.9996, 3600);
    FloorDiv(0.9996, 60);
    FloorDiv(FloorMod(0.9996, 3600.0), 60);
    assert f.millis == 1000;
    assert f == TsFields(0, 0, 0, 1000);
    assert NatToString(1000) == "1000" by {
      assert NatToString(1) == "1";
      assert NatToString(10) == NatToString(1) + [DigitChar(0)];
      assert NatToString(100) == NatToString(10) + [DigitChar(0)];
    }
    assert FormatInt(0, 2) == "00";
    FmtTsLongFraction(0.9996);
  }

  // ---------------------------------------------------------------- corrected _fmt_ts

  /** The whole clamped time in milliseconds, rounded half to even. */
  function TotalMillis(ts: real): int {
    RoundHalfEven(Clamp(ts) * 1000.0)
  }

  /** `_fmt_ts` with the rounding done on the whole time, so that a fraction that
      rounds up carries into the seconds: the layout of `ms_to_vtt`. */
  function FmtTsCarried(ts: real): string {
    MsToVtt(TotalMillis(ts))
  }

  /** The time a carried stamp denotes. */
  function Rounded(ts: real): real {
    MsToSeconds(TotalMillis(ts))
  }

  /** It is within half a millisecond of the clamped time. */
  lemma RoundedClose(ts: real)
    ensures Clamp(ts) - 0.0005 <= Rounded(ts) <= Clamp(ts) + 0.0005
  {
    var n := TotalMillis(ts);
    assert Clamp(ts) * 1000.0 - 0.5 <= n as real <= Clamp(ts) * 1000.0 + 0.5;
  }

  /** Below 100 hours the carried stamp always reads back, as the rounded time. */
  lemma FmtTsCarriedParses(ts: real)
    requires Clamp(ts) < 359999.0
    ensures ParseVttTimestamp(FmtTsCarried(ts)) == Ok(Rounded(ts))
  {
    var n := TotalMillis(ts);
    assert Clamp(ts) * 1000.0 < 359999000.0;
    assert 0 <= n < 360000000;
    MsToVttParses(n);
  }

  /** The whole-time rounding adds the whole seconds, in milliseconds, to the
      rounding of the fraction. */
  lemma TotalMillisSplit(ts: real)
    ensures TotalMillis(ts) == 1000 * Clamp(ts).Floor + FmtFields(ts).millis
  {
    var t := Clamp(ts);
    var w := t.Floor;
    var x := (t - w as real) * 1000.0;
    assert t * 1000.0 == x + (1000 * w) as real;
    RoundShift(x, 1000 * w);
  }

  /** Where the written milliseconds stay below 1000, `_fmt_ts` and the carried form agree. */
  lemma FmtTsAgrees(ts: real)
    requires FmtFields(ts).millis < 1000
    ensures FmtClock(ts) == VttClock(TotalMillis(ts))
    ensures FmtTs(ts) == FmtTsCarried(ts)
  {
    var f := FmtFields(ts);
    var w := Clamp(ts).Floor;
    FmtFieldsSplit(ts);
    TotalMillisSplit(ts);
    var n := TotalMillis(ts);
    var fields := ClockFields(f.hours, f.minutes, f.seconds, f.millis);
    assert f.hours * 3600000 + f.minutes * 60000 + f.seconds * 1000 == 1000 * w;
    SplitMsUnique(n, fields);
    assert VttClock(n) == FmtClock(ts);
  }

  // ---------------------------------------------------------------- _write_vtt

  /** The cue `_write_vtt` writes for a caption at 1-based position `id`. */
  function CueFor(c: TimedText, id: nat): Cue {
    Cue(id, FmtClock(c.startTs), FmtClock(c.endTs), Strip(c.text))
  }

  /** Whether each caption has text left after `str(c.get("text", "")).strip()`. */
  function NonBlank(cs: seq<TimedText>): (flags: seq<bool>)
    ensures |flags| == |cs|
  {
    seq(|cs|, i requires 0 <= i < |cs| => Strip(cs[i].text) != [])
  }

  lemma NonBlankAt(cs: seq<TimedText>, i: nat)
    requires i < |cs|
    ensures NonBlank(cs)[i] == (Strip(cs[i].text) != [])
  {
  }

  /** Among the first `i` elements, those whose flag is set, each with its 1-based
      position: what `enumerate(captions, 1)` visits past the `continue`. */
  function Selected<A>(xs: seq<A>, flags: seq<bool>, i: nat): seq<(A, nat)>
    requires |flags| == |xs| && i <= |xs|
  {
    if i == 0 then []
    else if flags[i - 1] then Selected(xs, flags, i - 1) + [(xs[i - 1], i)]
    else Selected(xs, flags, i - 1)
  }

  /** `f` applied to every numbered element. */
  function Images<A, B>(f: (A, nat) -> B, ps: seq<(A, nat)>): (r: seq<B>)
    ensures |r| == |ps|
  {
    seq(|ps|, k requires 0 <= k < |ps| => f(ps[k].0, ps[k].1))
  }

  /** Each selected element carries its own position, which is in range and flagged. */
  lemma {:induction false} SelectedSound<A>(xs: seq<A>, flags: seq<bool>, i: nat)
    requires |flags| == |xs| && i <= |xs|
    ensures forall k :: 0 <= k < |Selected(xs, flags, i)| ==>
      var p := Selected(xs, flags, i)[k];
      1 <= p.1 <= i && flags[p.1 - 1] && p.0 == xs[p.1 - 1]
  {
    if i > 0 {
      SelectedSound(xs, flags, i - 1);
      var prev, ps := Selected(xs, flags, i - 1), Selected(xs, flags, i);
      forall k | 0 <= k < |ps|
        ensures 1 <= ps[k].1 <= i && flags[ps[k].1 - 1] && ps[k].0 == xs[ps[k].1 - 1]
      {
        if k < |prev| {
          assert ps[k] == prev[k];
        }
      }
    }
  }

  /** The positions of the selected elements increase. */
  lemma {:induction false} SelectedIncreasing<A>(xs: seq<A>, flags: seq<bool>, i: nat)
    requires |flags| == |xs| && i <= |xs|
    ensures forall k, l :: 0 <= k < l < |Selected(xs, flags, i)| ==>
      Selected(xs, flags, i)[k].1 < Selected(xs, flags, i)[l].1
  {
    if i > 0 {
      SelectedIncreasing(xs, flags, i - 1);
      SelectedSound(xs, flags, i - 1);
      var prev, ps := Selected(xs, flags, i - 1), Selected(xs, flags, i);
      forall k, l | 0 <= k < l < |ps|
        ensures ps[k].1 < ps[l].1
      {
        assert ps[k] == prev[k];
        if l < |prev| {
          assert ps[l] == prev[l];
        }
      }
    }
  }

  /** Every flagged element is selected, with its position. */
  lemma {:induction false} SelectedComplete<A>(xs: seq<A>, flags: seq<bool>, i: nat)
    requires |flags| == |xs| && i <= |xs|
    ensures forall j :: 0 <= j < i && flags[j] ==> (xs[j], j + 1) in Selected(xs, flags, i)
  {
    if i > 0 {
      SelectedComplete(xs, flags, i - 1);
      var prev, ps := Selected(xs, flags, i - 1), Selected(xs, flags, i);
      forall j | 0 <= j < i && flags[j]
        ensures (xs[j], j + 1) in ps
      {
        if j < i - 1 {
          assert (xs[j], j + 1) in prev;
        }
      }
    }
  }

  /** One more element adds its image when it is flagged, and nothing otherwise. */
  lemma SelectedNext<A, B>(f: (A, nat) -> B, xs: seq<A>, flags: seq<bool>, i: nat)
    requires |flags| == |xs| && i < |xs|
    ensures flags[i] ==>
      Images(f, Selected(xs, flags, i + 1)) == Images(f, Selected(xs, flags, i)) + [f(xs[i], i + 1)]
    ensures !flags[i] ==> Images(f, Selected(xs, flags, i + 1)) == Images(f, Selected(xs, flags, i))
  {
    if flags[i] {
      var ps := Selected(xs, flags, i);
      var next := Images(f, ps + [(xs[i], i + 1)]);
      assert next == Images(f, ps) + [f(xs[i], i + 1)];
    }
  }

  /** The captions `_write_vtt` keeps, each with its 1-based position. */
  function KeptPairs(cs: seq<TimedText>): seq<(TimedText, nat)> {
    Selected(cs, NonBlank(cs), |cs|)
  }

  /** The cues written for all the captions: the cue of each kept caption, numbered
      by its position, so the numbering has gaps where blank captions were skipped. */
  function KeptCues(cs: seq<TimedText>): seq<Cue> {
    Images(CueFor, KeptPairs(cs))
  }

  /** Each kept caption is the one at its position, and its text is not blank. */
  lemma KeptPairsSound(cs: seq<TimedText>)
    ensures forall k :: 0 <= k < |KeptPairs(cs)| ==>
      var p := KeptPairs(cs)[k];
      1 <= p.1 <= |cs| && p.0 == cs[p.1 - 1] && Strip(p.0.text) != []
  {
    var flags := NonBlank(cs);
    var ps := KeptPairs(cs);
    SelectedSound(cs, flags, |cs|);
    forall k | 0 <= k < |ps|
      ensures 1 <= ps[k].1 <= |cs| && ps[k].0 == cs[ps[k].1 - 1] && Strip(ps[k].0.text) != []
    {
      assert flags[ps[k].1 - 1];
    }
  }

  /** The positions increase, so the cues keep the order of the captions. */
  lemma KeptPairsOrdered(cs: seq<TimedText>)
    ensures forall k, l :: 0 <= k < l < |KeptPairs(cs)| ==> KeptPairs(cs)[k].1 < KeptPairs(cs)[l].1
  {
    SelectedIncreasing(cs, NonBlank(cs), |cs|);
  }

  /** Every caption with non-blank text is kept, with its position. */
  lemma KeptPairsComplete(cs: seq<TimedText>)
    ensures forall j :: 0 <= j < |cs| && Strip(cs[j].text) != [] ==> (cs[j], j + 1) in KeptPairs(cs)
  {
    var flags := NonBlank(cs);
    SelectedComplete(cs, flags, |cs|);
    forall j | 0 <= j < |cs| && Strip(cs[j].text) != []
      ensures (cs[j], j + 1) in KeptPairs(cs)
    {
      assert flags[j];
    }
  }

  /** `_write_vtt`'s loop: the `lines` list, and the text it writes, `"\n".join(lines)`. */
  method WriteVtt(cs: seq<TimedText>) returns (lines: seq<string>, content: string)
    ensures lines == DocumentLines(KeptCues(cs))
    ensures content == Document(KeptCues(cs))
  {
    lines := VttLines(cs);
    content := Join(lines, "\n");
  }

  /** The `lines` list `_write_vtt` builds. */
  method VttLines(cs: seq<TimedText>) returns (lines: seq<string>)
    ensures lines == DocumentLines(KeptCues(cs))
  {
    lines := ["WEBVTT", ""];
    LinesStart(cs);
    var i := 0;
    while i < |cs|
      invariant 0 <= i <= |cs|
      invariant lines == LinesUpTo(cs, i)
    {
      ghost var next := LinesUpTo(cs, i + 1);
      LinesNext(cs, i, lines);
      if Strip(cs[i].text) != [] {
        var block := CaptionBlock(cs[i], i + 1);
        lines := lines + block;
      }
      assert lines == next;
      i := i + 1;
    }
  }

  /** The lines written for the captions before position `i`. */
  ghost function LinesUpTo(cs: seq<TimedText>, i: nat): seq<string>
    requires i <= |cs|
  {
    DocumentLines(Images(CueFor, Selected(cs, NonBlank(cs), i)))
  }

  /** Before the first caption only the header and its blank line are written. */
  lemma LinesStart(cs: seq<TimedText>)
    ensures LinesUpTo(cs, 0) == ["WEBVTT", ""]
  {
  }

  /** One step of `_write_vtt`'s loop: a blank caption adds no line, any other adds
      the lines of its cue. */
  lemma LinesNext(cs: seq<TimedText>, i: nat, lines: seq<string>)
    requires i < |cs| && lines == LinesUpTo(cs, i)
    ensures Strip(cs[i].text) == [] ==> LinesUpTo(cs, i + 1) == lines
    ensures Strip(cs[i].text) != [] ==> LinesUpTo(cs, i + 1) == lines + CueLines(CueFor(cs[i], i + 1))
  {
    var flags := NonBlank(cs);
    SelectedNext(CueFor, cs, flags, i);
    NonBlankAt(cs, i);
    DocumentLinesAppend(Images(CueFor, Selected(cs, flags, i)), CueFor(cs[i], i + 1));
  }

  /** The four lines one kept caption adds: its number, the timing line, the
      stripped text and a blank line. */
  method CaptionBlock(c: TimedText, id: nat) returns (block: seq<string>)
    ensures block == CueLines(CueFor(c, id))
  {
    var startTs := FmtTs(c.startTs);
    var endTs := FmtTs(c.endTs);
    var text := Strip(c.text);
    block := [NatToString(id), startTs + " --> " + endTs, text, ""];
  }

  lemma DocumentLinesAppend(cues: seq<Cue>, c: Cue)
    ensures DocumentLines(cues + [c]) == DocumentLines(cues) + CueLines(c)
  {
    LinesAt(cues + [c], |cues|);
    assert (cues + [c])[..|cues|] == cues;
    assert (cues + [c])[..|cues| + 1] == cues + [c];
  }

  // ---------------------------------------------------------------- reading it back

  /** A caption whose times format without a carry and below 100 hours, on one line. */
  predicate Representable(c: TimedText) {
    FmtFields(c.startTs).millis < 1000 && FmtFields(c.startTs).hours < 100 &&
    FmtFields(c.endTs).millis < 1000 && FmtFields(c.endTs).hours < 100 &&
    NoLineBreak(c.text)
  }

  /** What the reader makes of the kept captions: stripped text, times rounded to
      the millisecond. */
  function Heard(cs: seq<TimedText>): seq<TimedText> {
    if cs == [] then []
    else
      var c := cs[|cs| - 1];
      Heard(cs[..|cs| - 1]) +
        if Strip(c.text) == [] then [] else [TimedText(Strip(c.text), Rounded(c.startTs), Rounded(c.endTs))]
  }

  /** Reading the written file back with `parse_webvtt_to_captions` gives the captions
      with non-blank text, stripped, in order, each time within half a millisecond
      of the clamped original (`RoundedClose`). */
  lemma WriteVttReadsBack(cs: seq<TimedText>)
    requires forall i :: 0 <= i < |cs| ==> Representable(cs[i])
    ensures AllWritable(KeptCues(cs))
    ensures ParseWebVtt(Document(KeptCues(cs))) == Ok(Heard(cs))
  {
    KeptIsHeard(cs, |cs|);
    assert cs[..|cs|] == cs;
    ReadsBack(KeptCues(cs));
  }

  /** The clock of a time that formats without a carry below 100 hours is the clock
      `ms_to_vtt` makes of its rounded milliseconds. */
  lemma ClockOfTime(ts: real)
    requires FmtFields(ts).millis < 1000 && FmtFields(ts).hours < 100
    ensures 0 <= TotalMillis(ts) < 360000000
    ensures FmtClock(ts) == VttClock(TotalMillis(ts))
  {
    FmtTsAgrees(ts);
    FmtFieldsSplit(ts);
    TotalMillisSplit(ts);
    var f := FmtFields(ts);
    var w := Clamp(ts).Floor;
    assert 0 <= w < 360000 && 0 <= f.millis < 1000;
  }

  lemma CueWritable(c: TimedText, id: nat)
    requires Representable(c)
    ensures Writable(CueFor(c, id))
    ensures Kept(CueFor(c, id)) ==
      if Strip(c.text) == [] then [] else [TimedText(Strip(c.text), Rounded(c.startTs), Rounded(c.endTs))]
  {
    var s, e := TotalMillis(c.startTs), TotalMillis(c.endTs);
    ClockOfTime(c.startTs);
    ClockOfTime(c.endTs);
    VttClockDenotes(s);
    VttClockDenotes(e);
    StripKeepsLines(c.text);
    KeptOf(CueFor(c, id), s, e);
    StripOfStripped(Strip(c.text));
  }

  /** Stripping does not add line breaks. */
  lemma StripKeepsLines(s: string)
    requires NoLineBreak(s)
    ensures NoLineBreak(Strip(s))
  {
    var a := SkipSpace(s, 0);
    var l := LStrip(s);
    assert forall i :: 0 <= i < |l| ==> l[i] == s[a + i];
    var r := RStrip(l);
    assert forall i :: 0 <= i < |r| ==> r[i] == l[i];
  }

  /** The cues written for the first `i` captions read back as what is heard of them. */
  lemma {:induction false} KeptIsHeard(cs: seq<TimedText>, i: nat)
    requires i <= |cs|
    requires forall j :: 0 <= j < |cs| ==> Representable(cs[j])
    ensures AllWritable(Images(CueFor, Selected(cs, NonBlank(cs), i)))
    ensures AllKept(Images(CueFor, Selected(cs, NonBlank(cs), i))) == Heard(cs[..i])
  {
    if i == 0 {
      assert cs[..0] == [];
    } else {
      KeptIsHeard(cs, i - 1);
      KeptIsHeardStep(cs, i);
    }
  }

  /** One more caption: its cue, when written, reads back as what is heard of it. */
  lemma KeptIsHeardStep(cs: seq<TimedText>, i: nat)
    requires 0 < i <= |cs| && Representable(cs[i - 1])
    requires AllWritable(Images(CueFor, Selected(cs, NonBlank(cs), i - 1)))
    requires AllKept(Images(CueFor, Selected(cs, NonBlank(cs), i - 1))) == Heard(cs[..i - 1])
    ensures AllWritable(Images(CueFor, Selected(cs, NonBlank(cs), i)))
    ensures AllKept(Images(CueFor, Selected(cs, NonBlank(cs), i))) == Heard(cs[..i])
  {
    var c, flags := cs[i - 1], NonBlank(cs);
    HeardNext(cs, i);
    SelectedNext(CueFor, cs, flags, i - 1);
    var prev := Images(CueFor, Selected(cs, flags, i - 1));
    var cur := Images(CueFor, Selected(cs, flags, i));
    NonBlankAt(cs, i - 1);
    if flags[i - 1] {
      CueWritable(c, i);
      AllKeptAppendOne(prev, CueFor(c, i), Heard(cs[..i - 1]),
        [TimedText(Strip(c.text), Rounded(c.startTs), Rounded(c.endTs))]);
      assert cur == prev + [CueFor(c, i)];
    } else {
      assert cur == prev;
    }
  }

  lemma HeardNext(cs: seq<TimedText>, i: nat)
    requires 0 < i <= |cs|
    ensures Heard(cs[..i]) == Heard(cs[..i - 1]) +
      if Strip(cs[i - 1].text) == [] then []
      else [TimedText(Strip(cs[i - 1].text), Rounded(cs[i - 1].startTs), Rounded(cs[i - 1].endTs))]
  {
    assert cs[..i][..i - 1] == cs[..i - 1];
  }

  lemma AllKeptAppendOne(cues: seq<Cue>, c: Cue, heard: seq<TimedText>, t: seq<TimedText>)
    requires AllWritable(cues) && Writable(c)
    requires AllKept(cues) == heard && Kept(c) == t
    ensures AllWritable(cues + [c])
    ensures AllKept(cues + [c]) == heard + t
  {
    assert (cues + [c])[..|cues|] == cues;
  }
}
