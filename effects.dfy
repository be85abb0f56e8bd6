/** The visual effects shared by the single-image video builder and the slideshow
    renderer: the effect configuration dictionary, the Ken Burns zoom expressions,
    the pan speeds and crop offsets, and the numeric conversions they rely on. */
module Effects {
  import opened Results
  import opened Text
  import opened Numeric

  /** An `effect_config` dictionary. Each field is `None` when the key is absent.
      `zoomFactor` holds the text `str()` gives for the configured zoom step. */
  datatype EffectConfig = EffectConfig(
    effect: Option<string>,
    zoomFactor: Option<string>,
    direction: Option<string>,
    speed: Option<string>,
    scaleFactor: Option<real>)

  /** `{"effect": "ken_burns"}`. */
  const KenBurnsDefault: EffectConfig := EffectConfig(Some("ken_burns"), None, None, None, None)

  /** `effect_config or {"effect": "ken_burns"}`, where `None` stands for a missing
      or empty dictionary. */
  function OrDefault(cfg: Option<EffectConfig>): (eff: EffectConfig)
    ensures cfg.Some? ==> eff == cfg.value
    ensures cfg.None? ==> eff.effect == Some("ken_burns")
  {
    if cfg.Some? then cfg.value else KenBurnsDefault
  }

  /** `dict.get(key, default)`. */
  function Get(v: Option<string>, default: string): string {
    if v.Some? then v.value else default
  }

  /** The effect the renderer applies: "ken_burns" unless the key says otherwise. */
  function EffectType(eff: EffectConfig): string {
    Get(eff.effect, "ken_burns")
  }

  // ---------------------------------------------------------------------------
  // Ken Burns

  const ZoomDirections: seq<string> := ["zoom-to-top", "zoom-to-center", "zoom-to-top-left"]

  /** The zoompan expression for a zoom direction; an unknown direction zooms to
      the top-left corner. */
  function ZoomExpr(direction: string, zoomFactor: string): string {
    var z := "z='zoom+" + zoomFactor + "'";
    if direction == "zoom-to-top" then z + ":x=iw/2-(iw/zoom/2):y=0"
    else if direction == "zoom-to-center" then z + ":x=iw/2-(iw/zoom/2):y=ih/2-(ih/zoom/2)"
    else z + ":x=0:y=0"
  }

  /** Every zoom expression grows the zoom by the configured step, and any direction
      outside the three known ones behaves as "zoom-to-top-left". */
  lemma ZoomExprSpec(direction: string, zoomFactor: string)
    ensures StartsWith(ZoomExpr(direction, zoomFactor), "z='zoom+" + zoomFactor + "'")
    ensures direction !in ZoomDirections ==>
      ZoomExpr(direction, zoomFactor) == ZoomExpr("zoom-to-top-left", zoomFactor)
  {
    var z := "z='zoom+" + zoomFactor + "'";
    var e := ZoomExpr(direction, zoomFactor);
    assert e[..|z|] == z;
  }

  /** The zoom step the renderer uses: the configured one, or 0.001. */
  function ZoomFactor(eff: EffectConfig): string {
    Get(eff.zoomFactor, "0.001")
  }

  // ---------------------------------------------------------------------------
  // Pan

  /** The text of the speed multiplier: slow 0.5, normal 1.0, fast 2.0, and 1.0
      for an unknown speed. */
  function SpeedMult(speed: string): (m: string)
    ensures m in ["0.5", "1.0", "2.0"]
    ensures speed == "slow" ==> m == "0.5"
    ensures speed == "fast" ==> m == "2.0"
    ensures m == "1.0" <==> speed !in ["slow", "fast"]
  {
    if speed == "slow" then "0.5" else if speed == "fast" then "2.0" else "1.0"
  }

  /** `int(dim * scale)` for an integer dimension. */
  function Scaled(dim: int, scale: real): int {
    Trunc(dim as real * scale)
  }

  /** Scaling by at least 1 never shrinks a non-negative dimension. */
  lemma ScaledAtLeast(dim: int, scale: real)
    requires dim >= 0 && scale >= 1.0
    ensures Scaled(dim, scale) >= dim
  {
    assert dim as real * scale >= dim as real * 1.0;
  }

  /** The crop window's start and end offsets in the scaled image. */
  datatype Offsets = Offsets(startX: int, endX: int, startY: int, endY: int)

  /** The pan rule: a horizontal pan crosses the whole horizontal margin with the
      window vertically centred, a vertical pan crosses the vertical margin with the
      window horizontally centred; an unknown direction pans left to right.
      Python's `//` by 2 floors, as Dafny's `/` does for a positive divisor. */
  function PanOffsets(direction: string, w: int, h: int, sw: int, sh: int): Offsets {
    if direction == "right-to-left" then Offsets(sw - w, 0, (sh - h) / 2, (sh - h) / 2)
    else if direction == "top-to-bottom" then Offsets((sw - w) / 2, (sw - w) / 2, 0, sh - h)
    else if direction == "bottom-to-top" then Offsets((sw - w) / 2, (sw - w) / 2, sh - h, 0)
    else Offsets(0, sw - w, (sh - h) / 2, (sh - h) / 2)
  }

  const PanDirections: seq<string> := ["left-to-right", "right-to-left", "top-to-bottom", "bottom-to-top"]

  /** Right-to-left and bottom-to-top run the left-to-right and top-to-bottom pans
      backwards; a horizontal pan keeps y fixed and a vertical one keeps x fixed;
      an unknown direction pans left to right; and when the scaled image is at
      least the frame, every offset keeps the crop window inside it. */
  lemma PanOffsetsSpec(direction: string, w: int, h: int, sw: int, sh: int)
    ensures var l := PanOffsets("left-to-right", w, h, sw, sh);
      var r := PanOffsets("right-to-left", w, h, sw, sh);
      l.startX == 0 && l.endX == sw - w && r.startX == l.endX && r.endX == l.startX && r.startY == l.startY
    ensures var t := PanOffsets("top-to-bottom", w, h, sw, sh);
      var b := PanOffsets("bottom-to-top", w, h, sw, sh);
      t.startY == 0 && t.endY == sh - h && b.startY == t.endY && b.endY == t.startY && b.startX == t.startX
    ensures var o := PanOffsets(direction, w, h, sw, sh);
      (direction in ["left-to-right", "right-to-left"] ==> o.startY == o.endY) &&
      (direction in ["top-to-bottom", "bottom-to-top"] ==> o.startX == o.endX)
    ensures direction !in PanDirections ==>
      PanOffsets(direction, w, h, sw, sh) == PanOffsets("left-to-right", w, h, sw, sh)
    ensures w <= sw && h <= sh ==>
      var o := PanOffsets(direction, w, h, sw, sh);
      0 <= o.startX <= sw - w && 0 <= o.endX <= sw - w && 0 <= o.startY <= sh - h && 0 <= o.endY <= sh - h
  {
  }

  /** `f"{start}+({end}-{start})*t/{duration}*{speed_mult}"`. */
  function PanExpr(start: int, end: int, duration: string, speedMult: string): string {
    IntToString(start) + "+(" + IntToString(end) + "-" + IntToString(start) + ")*t/" + duration + "*" + speedMult
  }

  // ---------------------------------------------------------------------------
  // Frames

  /** `max(1, int(round(duration * fps)))`: the frames of a slideshow segment. */
  function SegmentFrames(duration: real, fps: int): (frames: int)
    ensures frames >= 1
    ensures duration * fps as real >= 0.5 ==> duration * fps as real - 0.5 <= frames as real <= duration * fps as real + 0.5
  {
    var r := RoundHalfEven(duration * fps as real);
    if r < 1 then 1 else r
  }
}
