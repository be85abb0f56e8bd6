/** Python string operations the core relies on, written out on `seq<char>`:
    the `str.isspace` character set, `strip`, `split()`, `splitlines`,
    `sep.join`, `str.replace` of one character, `str(int)` and the `0Nd`
    format with its sign-aware zero padding. */
module Text {
  import opened Results

  /** `str.isspace()` of one character: the characters whose Unicode bidirectional class is WS, B or S, or whose category is Zs. */
  predicate IsSpace(c: char) {
    c == ' ' || ('\t' <= c <= '\r') || ('\U{1C}' <= c <= '\U{1F}') || c == '\U{85}' ||
    c == '\U{A0}' || c == '\U{1680}' || ('\U{2000}' <= c <= '\U{200A}') ||
    c == '\U{2028}' || c == '\U{2029}' || c == '\U{202F}' || c == '\U{205F}' || c == '\U{3000}'
  }

  /** The characters at which `str.splitlines()` breaks a line. */
  predicate IsLineBreak(c: char) {
    c == '\n' || c == '\r' || c == '\U{B}' || c == '\U{C}' || ('\U{1C}' <= c <= '\U{1E}') ||
    c == '\U{85}' || c == '\U{2028}' || c == '\U{2029}'
  }

  predicate IsAsciiDigit(c: char) { '0' <= c <= '9' }

  predicate NoSpace(s: string) { forall i :: 0 <= i < |s| ==> !IsSpace(s[i]) }

  predicate NoLineBreak(s: string) { forall i :: 0 <= i < |s| ==> !IsLineBreak(s[i]) }

  /** Every character is an ASCII digit (the empty string included). */
  predicate AllDigits(s: string) { forall i :: 0 <= i < |s| ==> IsAsciiDigit(s[i]) }

  /** A string with no whitespace at either end: what `strip()` returns. */
  predicate IsStripped(s: string) { s == [] || (!IsSpace(s[0]) && !IsSpace(s[|s| - 1])) }

  predicate StartsWith(s: string, prefix: string) { |prefix| <= |s| && s[..|prefix|] == prefix }

  // ---------------------------------------------------------------- strip

  /** The index of the first non-whitespace character at or after `i`, or `|s|`. */
  function SkipSpace(s: string, i: nat): (n: nat)
    requires i <= |s|
    ensures i <= n <= |s| && (n == |s| || !IsSpace(s[n]))
    decreases |s| - i
  {
    if i < |s| && IsSpace(s[i]) then SkipSpace(s, i + 1) else i
  }

  /** Everything skipped is whitespace. */
  lemma {:induction false} SkipSpaceAll(s: string, i: nat)
    requires i <= |s|
    ensures forall k :: i <= k < SkipSpace(s, i) ==> IsSpace(s[k])
    decreases |s| - i
  {
    if i < |s| && IsSpace(s[i]) {
      SkipSpaceAll(s, i + 1);
    }
  }

  /** The index just past the last non-whitespace character before `j`, or 0. */
  function SpaceStart(s: string, j: nat): (n: nat)
    requires j <= |s|
    ensures n <= j && (n == 0 || !IsSpace(s[n - 1]))
  {
    if j > 0 && IsSpace(s[j - 1]) then SpaceStart(s, j - 1) else j
  }

  /** Everything after it, up to `j`, is whitespace. */
  lemma {:induction false} SpaceStartAll(s: string, j: nat)
    requires j <= |s|
    ensures forall k :: SpaceStart(s, j) <= k < j ==> IsSpace(s[k])
  {
    if j > 0 && IsSpace(s[j - 1]) {
      SpaceStartAll(s, j - 1);
    }
  }

  /** `str.lstrip()`. */
  function LStrip(s: string): (r: string)
    ensures |r| <= |s| && (r == [] || !IsSpace(r[0]))
  {
    s[SkipSpace(s, 0)..]
  }

  /** `str.rstrip()`. */
  function RStrip(s: string): (r: string)
    ensures |r| <= |s| && (r == [] || !IsSpace(r[|r| - 1]))
  {
    s[..SpaceStart(s, |s|)]
  }

  /** `str.strip()` with no argument: both ends, Python's whitespace set. */
  function Strip(s: string): (r: string)
    ensures IsStripped(r)
    ensures |r| <= |s|
  {
    RStrip(LStrip(s))
  }

  /** `strip()` removes exactly the leading and the trailing whitespace: the result
      is a slice of `s` that starts and ends with a non-space character (or is empty),
      with only whitespace outside it. */
  lemma StripSpec(s: string)
    ensures IsStripped(Strip(s))
    ensures exists a, b :: 0 <= a <= b <= |s| && Strip(s) == s[a..b] && AllSpace(s[..a]) && AllSpace(s[b..])
  {
    var a := SkipSpace(s, 0);
    var l := s[a..];
    var c := SpaceStart(l, |l|);
    SkipSpaceAll(s, 0);
    SpaceStartAll(l, |l|);
    assert Strip(s) == s[a..a + c];
    assert AllSpace(s[..a]);
    var tail := s[a + c..];
    forall k | 0 <= k < |tail|
      ensures IsSpace(tail[k])
    {
      assert tail[k] == l[c + k];
    }
  }

  lemma StripOfStripped(s: string)
    requires IsStripped(s)
    ensures Strip(s) == s
  {
  }

  /** `strip()` yields "" exactly for blank (all-whitespace) strings. */
  lemma StripEmptyIff(s: string)
    ensures Strip(s) == [] <==> (forall i :: 0 <= i < |s| ==> IsSpace(s[i]))
  {
    var l := LStrip(s);
    SkipSpaceAll(s, 0);
    SpaceStartAll(l, |l|);
    if l != [] {
      assert !IsSpace(l[0]);
      assert RStrip(l) != [];
    }
  }

  // ---------------------------------------------------------------- split()

  /** Length of the leading run of non-whitespace characters. */
  function WordLength(s: string): (k: nat)
    ensures k <= |s|
    ensures forall i :: 0 <= i < k ==> !IsSpace(s[i])
    ensures k < |s| ==> IsSpace(s[k])
  {
    if s == [] || IsSpace(s[0]) then 0 else 1 + WordLength(s[1..])
  }

  /** `str.split()` with no separator: the maximal runs of non-whitespace. */
  function Words(s: string): (ws: seq<string>)
    ensures forall i :: 0 <= i < |ws| ==> ws[i] != [] && NoSpace(ws[i])
    decreases |s|
  {
    var t := LStrip(s);
    if t == [] then [] else
      var k := WordLength(t);
      WordHead(t, k);
      var ws := Words(t[k..]);
      WordsCons(t[..k], ws);
      [t[..k]] + ws
  }

  /** Every character is whitespace. */
  predicate AllSpace(s: string) { forall i :: 0 <= i < |s| ==> IsSpace(s[i]) }

  /** The gaps and the words laid out alternately: `gaps[0] + ws[0] + gaps[1] + … + gaps[|ws|]`. */
  function Weave(gaps: seq<string>, ws: seq<string>): string
    requires |gaps| == |ws| + 1
    decreases |ws|
  {
    if ws == [] then gaps[0] else gaps[0] + ws[0] + Weave(gaps[1..], ws[1..])
  }

  /** The whitespace runs around and between the words of `s`. */
  predicate Separates(gaps: seq<string>, ws: seq<string>) {
    |gaps| == |ws| + 1 &&
    (forall i :: 0 <= i < |gaps| ==> AllSpace(gaps[i])) &&
    (forall i :: 0 < i < |ws| ==> gaps[i] != [])
  }

  /** `split()` yields the maximal non-space runs of `s`, in order: `s` is those words
      laid out between whitespace gaps, the gaps between two words being non-empty. */
  lemma {:induction false} WordsSpec(s: string)
    ensures forall i :: 0 <= i < |Words(s)| ==> Words(s)[i] != [] && NoSpace(Words(s)[i])
    ensures exists gaps :: Separates(gaps, Words(s)) && Weave(gaps, Words(s)) == s
    decreases |s|
  {
    var a := SkipSpace(s, 0);
    var t := s[a..];
    SkipSpaceAll(s, 0);
    assert AllSpace(s[..a]);
    if t == [] {
      assert s[..a] == s;
      assert Words(s) == [];
      assert Weave([s], []) == s;
    } else {
      var k := WordLength(t);
      WordHead(t, k);
      var w := t[..k];
      var rest := t[k..];
      WordsSpec(rest);
      var ws := Words(rest);
      var g' :| Separates(g', ws) && Weave(g', ws) == rest;
      assert Words(s) == [w] + ws;
      if ws != [] {
        assert rest != [] && IsSpace(rest[0]);
        WeaveFirst(g', ws);
        assert !IsSpace(ws[0][0]);
      }
      WeaveCons(s[..a], w, g', ws);
      SliceThree(s, a, k);
      SeparatesCons(s[..a], w, g', ws);
    }
  }

  lemma SliceThree(s: string, a: nat, k: nat)
    requires a <= |s| && k <= |s| - a
    ensures s[..a] + s[a..][..k] + s[a..][k..] == s
  {
    assert s[a..][..k] + s[a..][k..] == s[a..];
  }

  lemma WeaveCons(g: string, w: string, gaps: seq<string>, ws: seq<string>)
    requires |gaps| == |ws| + 1
    ensures Weave([g] + gaps, [w] + ws) == g + w + Weave(gaps, ws)
  {
    assert ([g] + gaps)[1..] == gaps && ([w] + ws)[1..] == ws;
  }

  lemma SeparatesCons(g: string, w: string, gaps: seq<string>, ws: seq<string>)
    requires AllSpace(g) && Separates(gaps, ws)
    requires ws != [] ==> gaps[0] != []
    ensures Separates([g] + gaps, [w] + ws)
  {
    var gs := [g] + gaps;
    forall i | 0 < i < |[w] + ws|
      ensures gs[i] != []
    {
      assert gs[i] == gaps[i - 1];
    }
    forall i | 0 <= i < |gs|
      ensures AllSpace(gs[i])
    {
      if i > 0 { assert gs[i] == gaps[i - 1]; }
    }
  }

  /** The first character of a weave whose first word is non-empty. */
  lemma WeaveFirst(gaps: seq<string>, ws: seq<string>)
    requires |gaps| == |ws| + 1 && ws != [] && ws[0] != []
    ensures Weave(gaps, ws) != []
    ensures Weave(gaps, ws)[0] == if gaps[0] != [] then gaps[0][0] else ws[0][0]
  {
  }

  lemma WordHead(t: string, k: nat)
    requires t != [] && !IsSpace(t[0]) && k == WordLength(t)
    ensures 0 < k <= |t| && NoSpace(t[..k])
  {
  }

  lemma WordsCons(w: string, ws: seq<string>)
    requires w != [] && NoSpace(w)
    requires forall i :: 0 <= i < |ws| ==> ws[i] != [] && NoSpace(ws[i])
    ensures forall i :: 0 <= i < |[w] + ws| ==> ([w] + ws)[i] != [] && NoSpace(([w] + ws)[i])
  {
  }

  /** `str.split()` of a string that has no whitespace and is non-empty is that string alone. */
  lemma WordsOfWord(w: string)
    requires w != [] && NoSpace(w)
    ensures Words(w) == [w]
  {
    WordLengthAll(w);
    assert LStrip(w) == w;
    assert w[..|w|] == w && w[|w|..] == [];
  }

  lemma WordLengthAll(w: string)
    requires NoSpace(w)
    ensures WordLength(w) == |w|
  {
    if w != [] { WordLengthAll(w[1..]); }
  }

  /** Leading whitespace does not change `split()`. */
  lemma WordsAfterSpace(c: char, w: string)
    requires IsSpace(c)
    ensures Words([c] + w) == Words(w)
  {
    var s := [c] + w;
    SkipSpaceShift(c, w, 0);
    assert SkipSpace(s, 0) == SkipSpace(s, 1);
    var a := SkipSpace(w, 0);
    assert LStrip(s) == s[a + 1..] == w[a..];
  }

  lemma {:induction false} SkipSpaceShift(c: char, w: string, i: nat)
    requires i <= |w| && IsSpace(c)
    ensures SkipSpace([c] + w, i + 1) == SkipSpace(w, i) + 1
    decreases |w| - i
  {
    var s := [c] + w;
    assert s[1..] == w;
    if i < |w| && IsSpace(w[i]) {
      assert s[i + 1] == w[i];
      SkipSpaceShift(c, w, i + 1);
    } else if i < |w| {
      assert s[i + 1] == w[i];
    }
  }

  // ---------------------------------------------------------------- join

  /** `sep.join(ss)`. */
  function Join(ss: seq<string>, sep: string): string {
    if |ss| == 0 then [] else if |ss| == 1 then ss[0] else ss[0] + sep + Join(ss[1..], sep)
  }

  /** `"".join(ss)`. */
  function Concat(ss: seq<string>): string {
    if |ss| == 0 then [] else ss[0] + Concat(ss[1..])
  }

  lemma {:induction false} JoinSnoc(ss: seq<string>, x: string, sep: string)
    requires ss != []
    ensures Join(ss + [x], sep) == Join(ss, sep) + sep + x
  {
    if |ss| == 1 {
      assert ss + [x] == [ss[0], x];
    } else {
      assert (ss + [x])[1..] == ss[1..] + [x];
      JoinSnoc(ss[1..], x, sep);
    }
  }

  lemma {:induction false} ConcatSnoc(ss: seq<string>, x: string)
    ensures Concat(ss + [x]) == Concat(ss) + x
  {
    if ss == [] {
      assert [] + [x] == [x];
    } else {
      assert (ss + [x])[1..] == ss[1..] + [x];
      ConcatSnoc(ss[1..], x);
    }
  }

  lemma {:induction false} ConcatAppend(a: seq<string>, b: seq<string>)
    ensures Concat(a + b) == Concat(a) + Concat(b)
  {
    if a == [] {
      assert a + b == b;
    } else {
      assert (a + b)[1..] == a[1..] + b;
      ConcatAppend(a[1..], b);
    }
  }

  lemma {:induction false} JoinAppend(a: seq<string>, b: seq<string>, sep: string)
    requires a != [] && b != []
    ensures Join(a + b, sep) == Join(a, sep) + sep + Join(b, sep)
  {
    if |a| == 1 {
      assert a + b == [a[0]] + b;
      assert (a + b)[1..] == b;
    } else {
      assert (a + b)[1..] == a[1..] + b;
      JoinAppend(a[1..], b, sep);
    }
  }

  // ---------------------------------------------------------------- splitlines

  /** Index of the first line break, or `|s|`. */
  function LineEnd(s: string): (k: nat)
    ensures k <= |s|
    ensures forall i :: 0 <= i < k ==> !IsLineBreak(s[i])
    ensures k < |s| ==> IsLineBreak(s[k])
  {
    if s == [] || IsLineBreak(s[0]) then 0 else 1 + LineEnd(s[1..])
  }

  /** `str.splitlines()`: "\r\n" is one break, a trailing break adds no empty line. */
  function SplitLines(s: string): (ls: seq<string>)
    decreases |s|
  {
    if s == [] then [] else
      var k := LineEnd(s);
      if k == |s| then [s] else
        var skip := if s[k] == '\r' && k + 1 < |s| && s[k + 1] == '\n' then 2 else 1;
        [s[..k]] + SplitLines(s[k + skip..])
  }

  lemma {:induction false} LineEndOfLine(a: string, rest: string)
    requires NoLineBreak(a)
    ensures LineEnd(a + rest) >= |a|
    ensures rest != [] && IsLineBreak(rest[0]) ==> LineEnd(a + rest) == |a|
    ensures rest == [] ==> LineEnd(a + rest) == |a|
  {
    if a != [] {
      assert (a + rest)[1..] == a[1..] + rest;
      LineEndOfLine(a[1..], rest);
    } else {
      assert a + rest == rest;
    }
  }

  /** Splitting lines that were joined with "\n" gives them back, except that a
      final empty line is absorbed by the trailing "\n". */
  lemma {:induction false} SplitLinesOfJoin(ls: seq<string>)
    requires ls != []
    requires forall i :: 0 <= i < |ls| ==> NoLineBreak(ls[i])
    ensures SplitLines(Join(ls, "\n")) == if ls[|ls| - 1] == [] then ls[..|ls| - 1] else ls
  {
    if |ls| == 1 {
      SplitLinesOfLine(ls[0]);
    } else {
      var tail := ls[1..];
      forall i | 0 <= i < |tail|
        ensures NoLineBreak(tail[i])
      {
        assert tail[i] == ls[i + 1];
      }
      SplitLinesOfJoin(tail);
      SplitLinesJoinStep(ls);
    }
  }

  lemma SplitLinesJoinStep(ls: seq<string>)
    requires |ls| >= 2 && NoLineBreak(ls[0])
    requires SplitLines(Join(ls[1..], "\n")) == if ls[|ls| - 1] == [] then ls[1..|ls| - 1] else ls[1..]
    ensures SplitLines(Join(ls, "\n")) == if ls[|ls| - 1] == [] then ls[..|ls| - 1] else ls
  {
    JoinCons(ls, "\n");
    SplitLinesCons(ls[0], Join(ls[1..], "\n"));
    ConsOfTail(ls);
  }

  lemma JoinCons(ls: seq<string>, sep: string)
    requires |ls| >= 2
    ensures Join(ls, sep) == ls[0] + sep + Join(ls[1..], sep)
  {
  }

  lemma ConsOfTail<T>(ls: seq<T>)
    requires |ls| >= 2
    ensures [ls[0]] + ls[1..|ls| - 1] == ls[..|ls| - 1]
    ensures [ls[0]] + ls[1..] == ls
  {
  }

  lemma SplitLinesOfLine(a: string)
    requires NoLineBreak(a)
    ensures SplitLines(a) == if a == [] then [] else [a]
  {
    if a != [] {
      LineEndOfLine(a, []);
      assert a + [] == a;
    }
  }

  /** A line followed by "\n" splits off as the first line. */
  lemma SplitLinesCons(a: string, rest: string)
    requires NoLineBreak(a)
    ensures SplitLines(a + "\n" + rest) == [a] + SplitLines(rest)
  {
    var s := a + "\n" + rest;
    assert s == a + ("\n" + rest);
    LineEndOfLine(a, "\n" + rest);
    assert s[..|a|] == a;
    assert s[|a|] == '\n';
    assert s[|a| + 1..] == rest;
  }

  // ---------------------------------------------------------------- replace

  /** `s.replace(c, r)` for a one-character pattern `c`. */
  function ReplaceChar(s: string, c: char, r: string): (t: string)
    ensures c !in s ==> t == s
  {
    if s == [] then [] else (if s[0] == c then r else [s[0]]) + ReplaceChar(s[1..], c, r)
  }

  // ---------------------------------------------------------------- substrings

  predicate OccursAt(s: string, pat: string, j: nat) {
    j + |pat| <= |s| && s[j..j + |pat|] == pat
  }

  /** Index of the first occurrence of `pat` in `s` at or after `from` (`str.find`), if any. */
  function Find(s: string, pat: string, from: nat := 0): (r: Option<nat>)
    requires from <= |s|
    ensures r.Some? ==> from <= r.value && OccursAt(s, pat, r.value)
    ensures r.Some? ==> forall j :: from <= j < r.value ==> !OccursAt(s, pat, j)
    ensures r.None? ==> forall j :: from <= j <= |s| ==> !OccursAt(s, pat, j)
    decreases |s| - from
  {
    if OccursAt(s, pat, from) then Some(from)
    else if from == |s| then None
    else Find(s, pat, from + 1)
  }

  // ---------------------------------------------------------------- integers

  function DigitChar(d: nat): char
    requires d < 10
  {
    '0' + d as char
  }

  function DigitValue(c: char): nat
    requires IsAsciiDigit(c)
  {
    (c - '0') as nat
  }

  /** `str(n)` for a natural number. */
  function NatToString(n: nat): (s: string)
    ensures s != [] && AllDigits(s)
    decreases n
  {
    if n < 10 then [DigitChar(n)] else NatToString(n / 10) + [DigitChar(n % 10)]
  }

  /** `str(v)` for any integer. */
  function IntToString(v: int): string {
    if v < 0 then "-" + NatToString(-v) else NatToString(v)
  }

  function Repeat(c: char, n: nat): (s: string)
    ensures |s| == n && forall i :: 0 <= i < n ==> s[i] == c
  {
    if n == 0 then [] else [c] + Repeat(c, n - 1)
  }

  /** The digits of `n`, left-padded with '0' to at least `width` characters. */
  function ZeroPad(n: nat, width: nat): (s: string)
    ensures AllDigits(s)
    ensures |s| == if |NatToString(n)| < width then width else |NatToString(n)|
  {
    var d := NatToString(n);
    (if |d| < width then Repeat('0', width - |d|) else []) + d
  }

  /** Python's `f"{v:0{width}d}"`: the sign counts towards the width. */
  function FormatInt(v: int, width: nat): string {
    if v < 0 then "-" + ZeroPad(-v, if width > 0 then width - 1 else 0) else ZeroPad(v, width)
  }

  /** The number an ASCII digit string denotes. */
  function DigitsValue(s: string): nat
    requires AllDigits(s)
  {
    if s == [] then 0 else 10 * DigitsValue(s[..|s| - 1]) + DigitValue(s[|s| - 1])
  }

  lemma {:induction false} DigitsValueOfNat(n: nat)
    ensures DigitsValue(NatToString(n)) == n
  {
    if n >= 10 {
      var s := NatToString(n);
      assert s[..|s| - 1] == NatToString(n / 10);
      DigitsValueOfNat(n / 10);
    }
  }

  lemma {:induction false} DigitsValueLeadingZeros(k: nat, s: string)
    requires AllDigits(s)
    ensures AllDigits(Repeat('0', k) + s)
    ensures DigitsValue(Repeat('0', k) + s) == DigitsValue(s)
  {
    if s == [] {
      assert Repeat('0', k) + s == Repeat('0', k);
      ZerosValue(k);
    } else {
      var t := Repeat('0', k) + s;
      assert t[..|t| - 1] == Repeat('0', k) + s[..|s| - 1];
      DigitsValueLeadingZeros(k, s[..|s| - 1]);
    }
  }

  lemma {:induction false} ZerosValue(k: nat)
    ensures DigitsValue(Repeat('0', k)) == 0
  {
    if k > 0 {
      var z := Repeat('0', k);
      assert z[..k - 1] == Repeat('0', k - 1);
      ZerosValue(k - 1);
    }
  }

  /** Zero padding never changes the value the digits denote. */
  lemma ZeroPadValue(n: nat, width: nat)
    ensures DigitsValue(ZeroPad(n, width)) == n
  {
    var d := NatToString(n);
    DigitsValueOfNat(n);
    if |d| < width {
      DigitsValueLeadingZeros(width - |d|, d);
    } else {
      assert ZeroPad(n, width) == d;
    }
  }

  lemma {:induction false} NatToStringLength(n: nat, width: nat)
    requires n < Pow10(width)
    ensures |NatToString(n)| <= if width == 0 then 1 else width
  {
    if n >= 10 {
      if width == 0 {
        assert false;
      } else if width == 1 {
        assert false;
      }
      assert n / 10 < Pow10(width - 1);
      NatToStringLength(n / 10, width - 1);
    }
  }

  function Pow10(k: nat): (p: nat)
    ensures p >= 1
  {
    if k == 0 then 1 else 10 * Pow10(k - 1)
  }

  /** A number below `10^width` pads to exactly `width` digits. */
  lemma ZeroPadExact(n: nat, width: nat)
    requires width >= 1 && n < Pow10(width)
    ensures |ZeroPad(n, width)| == width
  {
    NatToStringLength(n, width);
  }
}
