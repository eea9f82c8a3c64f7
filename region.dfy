/** The `TextRegion` record: one translated text with its box on the source
    image, its style, and where it has been placed on the target image. */
module Region {
  import opened Text

  /** An axis-aligned box `(x1, y1, x2, y2)` in image pixels. */
  datatype Box = Box(x1: int, y1: int, x2: int, y2: int)

  /** A text colour in OpenCV channel order. */
  datatype Bgr = Bgr(b: int, g: int, r: int)

  /** A stroke colour. */
  datatype Rgb = Rgb(r: int, g: int, b: int)

  /** A background colour; alpha 0 means transparent. */
  datatype Rgba = Rgba(r: int, g: int, b: int, a: int)

  datatype WrapMode = Word | Char

  datatype Align = Left | Center | Right

  /** A decimal number `scaled / 10^places`, the line-spacing multiplier as it
      is written (1.2 is `Decimal(12, 1)`). */
  datatype Decimal = Decimal(scaled: int, places: nat)

  function Pow10(n: nat): (p: nat)
    ensures p >= 1
  {
    if n == 0 then 1 else 10 * Pow10(n - 1)
  }

  /** Python's `int()` of a quotient: division truncating toward zero. */
  function TruncDiv(a: int, b: int): (q: int)
    requires b > 0
    ensures a >= 0 ==> q == a / b
    ensures a < 0 ==> q == -((-a) / b)
    ensures q * b <= a < (q + 1) * b || (a < 0 && (q - 1) * b < a <= q * b)
  {
    if a >= 0 then a / b else -((-a) / b)
  }

  /** `int(x * d)` for a decimal `d`. */
  function TruncMul(x: int, d: Decimal): int
  {
    TruncDiv(x * d.scaled, Pow10(d.places))
  }

  datatype TextRegion = TextRegion(
    text: string,
    bbox: Box,
    fontSize: int,
    fontFamily: string,
    margin: int,
    color: Bgr,
    wrapMode: WrapMode,
    bold: bool,
    boldLevel: int,
    lineSpacing: Decimal,
    textAlign: Align,
    bgColor: Rgba,
    strokeColor: Option<Rgb>,
    strokeWidth: int,
    center: (real, real),
    targetBox: Option<Box>,
    isPositioned: bool,
    imageFilename: Option<string>,
    isManual: bool,
    visible: bool)

  /** The weight level agrees with the bold flag: level 0 is regular, 1 bold,
      2 extra bold. */
  predicate WeightConsistent(r: TextRegion) {
    0 <= r.boldLevel <= 2 && (r.bold <==> r.boldLevel >= 1)
  }

  /** A stroke is drawn exactly when it has a colour and a positive width. */
  predicate StrokeConsistent(r: TextRegion) {
    r.strokeWidth >= 0 && (r.strokeWidth == 0 <==> r.strokeColor.None?)
  }

  /** `TextRegion.__init__`. */
  function NewRegion(text: string, bbox: Option<Box>, fontSize: int, color: Bgr, fontFamily: string,
                     margin: int, wrapMode: WrapMode, lineSpacing: Decimal, bold: bool,
                     textAlign: Align, bgColor: Option<Rgba>): (r: TextRegion)
    ensures bbox.None? ==> r.bbox == Box(0, 0, 0, 0)
    ensures bbox.Some? ==> r.bbox == bbox.value
    ensures r.boldLevel == (if bold then 1 else 0) && WeightConsistent(r)
    ensures bgColor.None? ==> r.bgColor == Rgba(255, 255, 255, 255)
    ensures bgColor.Some? ==> r.bgColor == bgColor.value
    ensures r.strokeColor.None? && r.strokeWidth == 0 && StrokeConsistent(r)
    ensures 2.0 * r.center.0 == (r.bbox.x1 + r.bbox.x2) as real
    ensures 2.0 * r.center.1 == (r.bbox.y1 + r.bbox.y2) as real
    ensures r.targetBox.None? && !r.isPositioned && r.imageFilename.None?
    ensures !r.isManual && r.visible
    ensures r.text == text && r.fontSize == fontSize && r.color == color && r.fontFamily == fontFamily
    ensures r.margin == margin && r.wrapMode == wrapMode && r.lineSpacing == lineSpacing
    ensures r.bold == bold && r.textAlign == textAlign
  {
    var b := if bbox.Some? then bbox.value else Box(0, 0, 0, 0);
    TextRegion(
      text := text, bbox := b, fontSize := fontSize, fontFamily := fontFamily, margin := margin,
      color := color, wrapMode := wrapMode, bold := bold, boldLevel := if bold then 1 else 0,
      lineSpacing := lineSpacing, textAlign := textAlign,
      bgColor := if bgColor.Some? then bgColor.value else Rgba(255, 255, 255, 255),
      strokeColor := None, strokeWidth := 0,
      center := ((b.x1 + b.x2) as real / 2.0, (b.y1 + b.y2) as real / 2.0),
      targetBox := None, isPositioned := false, imageFilename := None,
      isManual := false, visible := true)
  }

  /** The constructor's keyword defaults: size 18, black, NanumGothic, margin
      2, word wrapping, spacing 1.2, regular weight, centred, white background. */
  function DefaultRegion(text: string, bbox: Option<Box>): (r: TextRegion)
    ensures r.fontSize == 18 && r.color == Bgr(0, 0, 0) && r.fontFamily == "나눔고딕"
    ensures r.margin == 2 && r.wrapMode == Word && r.lineSpacing == Decimal(12, 1)
    ensures !r.bold && r.boldLevel == 0 && r.textAlign == Center && r.bgColor == Rgba(255, 255, 255, 255)
  {
    NewRegion(text, bbox, 18, Bgr(0, 0, 0), "나눔고딕", 2, Word, Decimal(12, 1), false, Center, None)
  }
}
