/**
 * The colour encoders of `app/services/caption.py`: a CSS-style hex colour
 * (`#RRGGBB`, `RRGGBB` or the short `RGB`) becomes an ASS colour with the
 * channels in blue-green-red order.
 */
module CaptionColor {
  import opened Results
  import opened Text

  const LengthMessage: string := "hex_color must be 'RRGGBB' or 'RGB'"

  // ---------------------------------------------------------------- hex digits

  predicate IsHexDigit(c: char) { '0' <= c <= '9' || 'a' <= c <= 'f' || 'A' <= c <= 'F' }

  predicate AllHex(s: string) { forall i :: 0 <= i < |s| ==> IsHexDigit(s[i]) }

  function HexDigitValue(c: char): (d: nat)
    requires IsHexDigit(c)
    ensures d < 16
  {
    if c <= '9' then (c - '0') as nat
    else if c <= 'F' then (c - 'A') as nat + 10
    else (c - 'a') as nat + 10
  }

  /** The upper-case hex digit for `0 <= d < 16`. */
  function UpperDigit(d: nat): (c: char)
    requires d < 16
    ensures IsHexDigit(c)
  {
    if d < 10 then '0' + d as char else 'A' + (d - 10) as char
  }

  /** A hex digit in upper case. */
  function UpperHex(c: char): char {
    if 'a' <= c <= 'f' then c - 'a' + 'A' else c
  }

  function UpperHexString(s: string): (r: string)
    ensures |r| == |s| && forall i :: 0 <= i < |s| ==> r[i] == UpperHex(s[i])
  {
    seq(|s|, i requires 0 <= i < |s| => UpperHex(s[i]))
  }

  /** The number a non-empty hex digit string denotes. */
  function HexValue(s: string): nat
    requires AllHex(s)
  {
    if s == [] then 0 else 16 * HexValue(s[..|s| - 1]) + HexDigitValue(s[|s| - 1])
  }

  /** `format(n, "X")`: the upper-case hex digits of `n`, no padding. */
  function HexString(n: nat): (s: string)
    ensures s != [] && AllHex(s)
    decreases n
  {
    if n < 16 then [UpperDigit(n)] else HexString(n / 16) + [UpperDigit(n % 16)]
  }

  /** `f"{v:02X}"`: at least two characters, the sign counting towards the width. */
  function FormatHex2(v: int): string {
    if v < 0 then "-" + HexString(-v)
    else if v < 16 then "0" + HexString(v)
    else HexString(v)
  }

  // ---------------------------------------------------------------- parsing

  /** `str.lstrip("#")`: every leading '#' goes. */
  function LStripHash(s: string): (r: string)
    ensures |r| <= |s| && r == s[|s| - |r|..]
    ensures r == [] || r[0] != '#'
    ensures forall i :: 0 <= i < |s| - |r| ==> s[i] == '#'
  {
    if s != [] && s[0] == '#' then LStripHash(s[1..]) else s
  }

  /** `"".join([c * 2 for c in s])`. */
  function DoubleEach(s: string): (r: string)
    ensures |r| == 2 * |s|
  {
    if s == [] then [] else [s[0], s[0]] + DoubleEach(s[1..])
  }

  /** The six-character form both encoders slice: `#` stripped, short form doubled, other lengths refused. */
  function NormalizeHex(hex: string): (r: Result<string>)
    ensures r.Ok? ==> |r.value| == 6
  {
    var s := LStripHash(hex);
    var s := if |s| == 3 then DoubleEach(s) else s;
    if |s| != 6 then Err(ValueError(LengthMessage)) else Ok(s)
  }

  /**
   * `int(pair, 16)` on a two-character slice: surrounding whitespace and one
   * sign are accepted before the digits.
   */
  function ParseHexPair(p: string): Result<int> {
    var t := Strip(p);
    if |t| >= 2 && (t[0] == '+' || t[0] == '-') && AllHex(t[1..]) then
      Ok(if t[0] == '-' then 0 - HexValue(t[1..]) else HexValue(t[1..]))
    else if t != [] && AllHex(t) then Ok(HexValue(t))
    else Err(ValueError("invalid literal for int() with base 16: '" + p + "'"))
  }

  datatype Rgb = Rgb(r: int, g: int, b: int)

  /** The three channels, parsed red first as the source does. */
  function Channels(hex: string): Result<Rgb> {
    match NormalizeHex(hex)
    case Err(e) => Err(e)
    case Ok(s) => ChannelsOf(s)
  }

  function ChannelsOf(s: string): Result<Rgb>
    requires |s| == 6
  {
      match ParseHexPair(s[0..2])
      case Err(e) => Err(e)
      case Ok(r) =>
        match ParseHexPair(s[2..4])
        case Err(e) => Err(e)
        case Ok(g) =>
          match ParseHexPair(s[4..6])
          case Err(e) => Err(e)
          case Ok(b) => Ok(Rgb(r, g, b))
  }

  /**
   * `Caption.hex_to_ass`. The alpha byte is computed from a float by
   * rounding, which is not modelled: it is passed in.
   */
  function HexToAss(hex: string, alpha: int): Result<string> {
    match Channels(hex)
    case Err(e) => Err(e)
    case Ok(c) => Ok(AssWithAlpha(c, alpha))
  }

  /** `Caption.hex_to_ass_no_alpha`: `&HBBGGRR&` for override tags. */
  function HexToAssNoAlpha(hex: string): Result<string> {
    match Channels(hex)
    case Err(e) => Err(e)
    case Ok(c) => Ok(AssNoAlpha(c))
  }

  /** The channels in blue-green-red order. */
  function Bgr(c: Rgb): string {
    FormatHex2(c.b) + FormatHex2(c.g) + FormatHex2(c.r)
  }

  function AssWithAlpha(c: Rgb, alpha: int): string {
    "&H" + FormatHex2(alpha) + Bgr(c)
  }

  function AssNoAlpha(c: Rgb): string {
    "&H" + Bgr(c) + "&"
  }

  // ---------------------------------------------------------------- properties

  lemma {:induction false} HexValueOfPair(p: string)
    requires |p| == 2 && AllHex(p)
    ensures HexValue(p) == 16 * HexDigitValue(p[0]) + HexDigitValue(p[1])
  {
    assert p[..|p| - 1] == [p[0]];
    assert [p[0]][..0] == [];
    assert HexValue([p[0]]) == 16 * HexValue([]) + HexDigitValue(p[0]);
  }

  lemma UpperDigitOfValue(c: char)
    requires IsHexDigit(c)
    ensures UpperDigit(HexDigitValue(c)) == UpperHex(c)
  {
  }

  /** Two hex digits parse to their value. */
  lemma PairParses(p: string)
    requires |p| == 2 && AllHex(p)
    ensures ParseHexPair(p) == Ok(HexValue(p))
  {
    assert !IsSpace(p[0]) && !IsSpace(p[1]);
    StripOfStripped(p);
  }

  /** A value printed from two hex digits gives back the same digits in upper case. */
  lemma PairPrints(p: string)
    requires |p| == 2 && AllHex(p)
    ensures FormatHex2(HexValue(p)) == UpperHexString(p)
  {
    HexValueOfPair(p);
    var hi := HexDigitValue(p[0]);
    var lo := HexDigitValue(p[1]);
    UpperDigitOfValue(p[0]);
    UpperDigitOfValue(p[1]);
    UpperPair(p);
    FormatTwoDigits(hi, lo);
  }

  lemma UpperPair(p: string)
    requires |p| == 2
    ensures UpperHexString(p) == [UpperHex(p[0]), UpperHex(p[1])]
  {
  }

  /** Two hex digit values print as those two upper-case digits. */
  lemma FormatTwoDigits(hi: nat, lo: nat)
    requires hi < 16 && lo < 16
    ensures FormatHex2(16 * hi + lo) == [UpperDigit(hi), UpperDigit(lo)]
  {
    var v := 16 * hi + lo;
    if v < 16 {
      assert hi == 0;
      assert FormatHex2(v) == ['0', UpperDigit(lo)];
    } else {
      assert v / 16 == hi && v % 16 == lo;
      assert HexString(v) == HexString(hi) + [UpperDigit(lo)];
    }
  }

  lemma {:induction false} LStripHashOfHashes(k: nat, d: string)
    requires d == [] || d[0] != '#'
    ensures LStripHash(Repeat('#', k) + d) == d
  {
    if k > 0 {
      assert (Repeat('#', k) + d)[1..] == Repeat('#', k - 1) + d;
      LStripHashOfHashes(k - 1, d);
    }
  }

  /** Six hex digits after any number of '#' give the three channels they spell. */
  lemma ChannelsOfSixDigits(k: nat, d: string)
    requires |d| == 6 && AllHex(d)
    ensures Channels(Repeat('#', k) + d) == Ok(Rgb(HexValue(d[0..2]), HexValue(d[2..4]), HexValue(d[4..6])))
  {
    NormalizeSix(k, d);
    ChannelsOfDigits(d);
  }

  lemma NormalizeSix(k: nat, d: string)
    requires |d| == 6 && AllHex(d)
    ensures NormalizeHex(Repeat('#', k) + d) == Ok(d)
  {
    LStripHashOfHashes(k, d);
  }

  lemma ChannelsOfDigits(d: string)
    requires |d| == 6 && AllHex(d)
    ensures ChannelsOf(d) == Ok(Rgb(HexValue(d[0..2]), HexValue(d[2..4]), HexValue(d[4..6])))
  {
    var a, b, c := d[0..2], d[2..4], d[4..6];
    HexSlice(d, 0, 2);
    HexSlice(d, 2, 4);
    HexSlice(d, 4, 6);
    PairParses(a);
    PairParses(b);
    PairParses(c);
    ChannelsOfPairs(d, HexValue(a), HexValue(b), HexValue(c));
  }

  lemma HexSlice(d: string, i: nat, j: nat)
    requires i <= j <= |d| && AllHex(d)
    ensures AllHex(d[i..j]) && |d[i..j]| == j - i
  {
    forall k | 0 <= k < j - i
      ensures IsHexDigit(d[i..j][k])
    {
      assert d[i..j][k] == d[i + k];
    }
  }

  lemma ChannelsOfPairs(s: string, r: int, g: int, b: int)
    requires |s| == 6
    requires ParseHexPair(s[0..2]) == Ok(r) && ParseHexPair(s[2..4]) == Ok(g) && ParseHexPair(s[4..6]) == Ok(b)
    ensures ChannelsOf(s) == Ok(Rgb(r, g, b))
  {
  }

  lemma BgrOfSixDigits(d: string)
    requires |d| == 6 && AllHex(d)
    ensures Bgr(Rgb(HexValue(d[0..2]), HexValue(d[2..4]), HexValue(d[4..6]))) == BgrDigits(d)
  {
    PairPrints(d[0..2]);
    PairPrints(d[2..4]);
    PairPrints(d[4..6]);
  }

  /** The blue, green and red digit pairs of a six-digit colour, in upper case. */
  function BgrDigits(d: string): string
    requires |d| == 6
  {
    UpperHexString(d[4..6]) + UpperHexString(d[2..4]) + UpperHexString(d[0..2])
  }

  /**
   * Six hex digits after any number of '#' encode as `&HBBGGRR&` with the
   * digits in upper case.
   */
  lemma NoAlphaOfSixDigits(k: nat, d: string)
    requires |d| == 6 && AllHex(d)
    ensures HexToAssNoAlpha(Repeat('#', k) + d) == Ok("&H" + BgrDigits(d) + "&")
  {
    var hex := Repeat('#', k) + d;
    var rgb := Rgb(HexValue(d[0..2]), HexValue(d[2..4]), HexValue(d[4..6]));
    ChannelsOfSixDigits(k, d);
    BgrOfSixDigits(d);
    assert HexToAssNoAlpha(hex) == Ok(AssNoAlpha(rgb));
  }

  /** The same digits encode as `&HAABBGGRR`, with no trailing '&'. */
  lemma WithAlphaOfSixDigits(k: nat, d: string, alpha: int)
    requires |d| == 6 && AllHex(d)
    ensures HexToAss(Repeat('#', k) + d, alpha) == Ok("&H" + FormatHex2(alpha) + BgrDigits(d))
  {
    var hex := Repeat('#', k) + d;
    var rgb := Rgb(HexValue(d[0..2]), HexValue(d[2..4]), HexValue(d[4..6]));
    ChannelsOfSixDigits(k, d);
    BgrOfSixDigits(d);
    assert HexToAss(hex, alpha) == Ok(AssWithAlpha(rgb, alpha));
  }

  /** The short form `RGB` means `RRGGBB`. */
  lemma ShortFormDoubles(k: nat, d: string, alpha: int)
    requires |d| == 3 && d[0] != '#'
    ensures Channels(Repeat('#', k) + d) == Channels(DoubleEach(d))
    ensures HexToAssNoAlpha(Repeat('#', k) + d) == HexToAssNoAlpha(DoubleEach(d))
    ensures HexToAss(Repeat('#', k) + d, alpha) == HexToAss(DoubleEach(d), alpha)
  {
    LStripHashOfHashes(k, d);
    assert DoubleEach(d)[0] == d[0];
    LStripHashOfHashes(0, DoubleEach(d));
    assert Repeat('#', 0) + DoubleEach(d) == DoubleEach(d);
    assert NormalizeHex(Repeat('#', k) + d) == NormalizeHex(DoubleEach(d));
  }

  /** Any length other than 3 or 6 once the '#'s are gone raises ValueError in both encoders. */
  lemma WrongLengthRejected(hex: string, alpha: int)
    requires |LStripHash(hex)| != 3 && |LStripHash(hex)| != 6
    ensures HexToAssNoAlpha(hex) == Err(ValueError(LengthMessage))
    ensures HexToAss(hex, alpha) == Err(ValueError(LengthMessage))
  {
  }

  /**
   * The two encoders agree: one succeeds exactly when the other does, and
   * the alpha form is the plain form with the alpha byte put in front and
   * the closing '&' dropped.
   */
  lemma EncodersAgree(hex: string, alpha: int)
    ensures HexToAss(hex, alpha).Ok? <==> HexToAssNoAlpha(hex).Ok?
    ensures HexToAss(hex, alpha).Ok? ==>
      HexToAssNoAlpha(hex).value == "&H" + HexToAss(hex, alpha).value[2 + |FormatHex2(alpha)|..] + "&"
  {
    if Channels(hex).Ok? {
      var c := Channels(hex).value;
      AlphaForm(c, alpha);
    }
  }

  lemma AlphaForm(c: Rgb, alpha: int)
    ensures AssNoAlpha(c) == "&H" + AssWithAlpha(c, alpha)[2 + |FormatHex2(alpha)|..] + "&"
  {
    assert AssWithAlpha(c, alpha) == ("&H" + FormatHex2(alpha)) + Bgr(c);
  }

  /** The digits of `#112233` are six hex digits behind a single `#`. */
  lemma ShadowDigits(hex: string)
    requires hex == "#112233"
    ensures AllHex(hex[1..]) && hex == Repeat('#', 1) + hex[1..]
  {
    var d := hex[1..];
    assert hex == Repeat('#', 1) + d;
    assert d[0] == '1' && d[1] == '1' && d[2] == '2' && d[3] == '2' && d[4] == '3' && d[5] == '3';
  }

  /** The pairs of `112233`, in blue-green-red order. */
  lemma ShadowBgr(d: string)
    requires d == "112233"
    ensures BgrDigits(d) == "332211"
  {
    assert UpperHexString(d[4..6]) == "33";
    assert UpperHexString(d[2..4]) == "22";
    assert UpperHexString(d[0..2]) == "11";
  }

  /** The colour of `tests/test_caption.py`: `#112233` becomes `&H332211&`. */
  lemma ShadowColourExample(hex: string)
    requires hex == "#112233"
    ensures HexToAssNoAlpha(hex) == Ok("&H332211&")
  {
    var d := hex[1..];
    ShadowDigits(hex);
    NoAlphaOfSixDigits(1, d);
    ShadowBgr(d);
    ShadowWrapped(BgrDigits(d));
  }

  lemma ShadowWrapped(b: string)
    requires b == "332211"
    ensures "&H" + b + "&" == "&H332211&"
  {
  }
}
