/** The box-fit layout of the live preview, `draw_korean_text_optimized`:
    from a region's target box, the image size, the region's style and a
    text measurer, it derives the font size, the wrapped lines, the line
    height and, for every line, where it is drawn or that it is skipped.
    Pixels are not modelled; a drawing is its position, text and stroke. */
module Layout {
  import opened Text
  import opened Region
  import opened Fonts
  import BoxWrap
  import WordWrap

  /** `ImageDraw.textlength(s, font=f)`; `None` when it raises. */
  type Metric = (Font, string) -> Option<real>

  /** Safe clamping of the target box to the image (lines 959-962): the box
      keeps at least 2 pixels each way, so the degenerate-box return at
      965-966 never fires; a box already inside the image is unchanged. */
  function ClampBox(b: Box, w: int, h: int): (c: Box)
    ensures c.x2 - c.x1 >= 2 && c.y2 - c.y1 >= 2
    ensures 0 <= c.x1 <= Max(0, w - 2) && 0 <= c.y1 <= Max(0, h - 2)
    ensures c.x2 <= Max(c.x1 + 2, w - 1) && c.y2 <= Max(c.y1 + 2, h - 1)
    ensures 0 <= b.x1 && b.x1 + 2 <= b.x2 <= w - 1 && 0 <= b.y1 && b.y1 + 2 <= b.y2 <= h - 1 ==> c == b
  {
    var x1 := Max(0, Min(b.x1, w - 2));
    var y1 := Max(0, Min(b.y1, h - 2));
    Box(x1, y1, Max(x1 + 2, Min(b.x2, w - 1)), Max(y1 + 2, Min(b.y2, h - 1)))
  }

  /** Line 979: the font size is 60% of the box height, capped by the
      region's own size and never below 8. */
  function PreviewFontSize(boxHeight: int, regionSize: int): (fs: int)
    ensures fs >= 8
    ensures fs <= Max(8, regionSize) && fs <= Max(8, boxHeight * 6 / 10)
    ensures 8 <= regionSize <= boxHeight * 6 / 10 ==> fs == regionSize
  {
    Max(8, Min(boxHeight * 6 / 10, regionSize))
  }

  /** Lines 985-999: the box inset by the margin (negative margins widen
      it); when that leaves no room, the box's corner with a minimum size
      derived from the font size. Either way the rectangle is not empty. */
  function TextRect(b: Box, margin: int, fs: int): (t: Box)
    ensures t.x2 > t.x1 && t.y2 > t.y1
    ensures b.x2 - b.x1 > 2 * margin && b.y2 - b.y1 > 2 * margin ==>
              t == Box(b.x1 + margin, b.y1 + margin, b.x2 - margin, b.y2 - margin)
    ensures !(b.x2 - b.x1 > 2 * margin && b.y2 - b.y1 > 2 * margin) ==>
              t.x1 == b.x1 && t.y1 == b.y1 &&
              t.x2 - t.x1 >= Max(20, 2 * fs) && t.y2 - t.y1 >= Max(15, fs)
  {
    var t := Box(b.x1 + margin, b.y1 + margin, b.x2 - margin, b.y2 - margin);
    if t.x2 <= t.x1 || t.y2 <= t.y1 then
      Box(b.x1, b.y1, Max(b.x1 + Max(20, fs * 2), b.x2), Max(b.y1 + Max(15, fs), b.y2))
    else t
  }

  /** Lines 1017-1023: the wrapping width, at least 10, widened by twice a
      negative margin. */
  function WrapWidth(t: Box, margin: int): (ww: int)
    ensures ww >= 10 && ww >= t.x2 - t.x1
  {
    var bw := Max(10, t.x2 - t.x1);
    if margin < 0 then bw - margin * 2 else bw
  }

  /** The wrapper chosen by the region's wrap mode, measuring with `font`:
      the canvas's `wrap_text_for_box` as written in character mode. Its
      lines hold no newline unless the box wrapper gave up and returned the
      text whole. */
  function Wrap(mode: WrapMode, text: string, width: int, size: int, font: Font, metric: Metric): (ls: seq<string>)
    ensures ls != []
    ensures (forall k :: 0 <= k < |ls| ==> '\n' !in ls[k]) || (mode == Char && ls == [text])
    ensures mode == Char && !IsBlank(text) && ls != [text] ==> |ls| >= Count(text, '\n')
  {
    match mode
    case Word => WordWrap.WrapWord(text, width, size, s => metric(font, s))
    case Char => BoxWrap.WrapForBoxAsWritten(text, width, size, s => metric(font, s))
  }

  /** The same choice with the whitespace fix in character mode: no line
      holds a newline. */
  function WrapFixed(mode: WrapMode, text: string, width: int, size: int, font: Font, metric: Metric): (ls: seq<string>)
    ensures ls != [] && forall k :: 0 <= k < |ls| ==> '\n' !in ls[k]
    ensures mode == Word ==> ls == Wrap(mode, text, width, size, font, metric)
  {
    match mode
    case Word => WordWrap.WrapWord(text, width, size, s => metric(font, s))
    case Char => BoxWrap.WrapForBox(text, width, size, s => metric(font, s))
  }

  /** The font size, font, lines, line height and block height chosen. */
  datatype Fit = Fit(fontSize: int, font: Font, lines: seq<string>, lineHeight: int, total: int)

  /** Lines 1031-1063: line height from the spacing; on overflow, first
      squeeze the line height down to `max(size, available // n)`, then, if
      the block still overflows, scale the font size down, reload the font
      with `refont`, wrap once more and recompute the line height. */
  function Arrange(text: string, mode: WrapMode, spacing: Decimal, available: int, width: int,
                   size: int, lineBase: int, font: Font, refont: int -> Font, metric: Metric): (a: Fit)
    requires available > 0 && size >= 8
    ensures a.lines != [] && a.total == |a.lines| * a.lineHeight
    ensures a.total <= available || (a.lineHeight == a.fontSize && a.lineHeight > available / |a.lines|)
    ensures 8 <= a.fontSize <= size
    ensures a.fontSize < size ==> a.fontSize == Max(8, a.fontSize) && a.lineHeight >= a.fontSize
  {
    var lines := Wrap(mode, text, width, size, font, metric);
    var n := |lines|;
    var lh := TruncMul(lineBase, spacing);
    if n * lh <= available then Fit(size, font, lines, lh, n * lh)
    else
      var lh1 := Max(size, available / n);
      if n * lh1 <= available then Fit(size, font, lines, lh1, n * lh1)
      else
        var size2 := Max(8, size * available / (n * lh1));
        var font2 := refont(size2);
        var lines2 := Wrap(mode, text, width, size2, font2, metric);
        var lh2 := Max(size2, available / |lines2|);
        ScaleShrinks(size, available, n * lh1);
        LineHeightFits(size2, available, |lines2|);
        Fit(size2, font2, lines2, lh2, |lines2| * lh2)
  }

  /** The squeezed line height `max(size, available // n)` makes `n` lines
      fit unless the font size itself is what pushes them out. */
  lemma LineHeightFits(size: int, available: int, n: int)
    requires n > 0 && available > 0
    ensures var lh := Max(size, available / n);
            n * lh <= available || (lh == size && lh > available / n)
  {
    var q := available / n;
    assert n * q + available % n == available;
  }

  lemma ScaleShrinks(size: int, available: int, total: int)
    requires size > 0 && 0 < available < total
    ensures 0 <= size * available / total < size
  {
    assert size * available < size * total;
  }

  /** Line 1066: the top of the block, centring it vertically; the gaps
      above and below differ by at most one pixel. */
  function StartY(t: Box, total: int): (y: int)
    ensures var top := y - t.y1; var bottom := t.y2 - (y + total);
            0 <= bottom - top <= 1
  {
    t.y1 + (t.y2 - t.y1 - total) / 2
  }

  /** The measured width of a line, or the character-count estimate. */
  function LineWidth(metric: Metric, font: Font, line: string, size: int): real
  {
    match metric(font, line)
    case Some(w) => w
    case None => (|line| * size) as real * 0.6
  }

  /** Lines 1080-1087: the left edge of a line of width `w`; centring is a
      floor division of the slack, so the two side gaps differ by less than 2. */
  function AlignX(align: Align, t: Box, w: real): (x: real)
    ensures align == Left ==> x == t.x1 as real
    ensures align == Right ==> x + w == t.x2 as real
    ensures align == Center ==> var left := x - t.x1 as real; var right := t.x2 as real - (x + w);
                                 0.0 <= right - left < 2.0
  {
    match align
    case Left => t.x1 as real
    case Right => t.x2 as real - w
    case Center => t.x1 as real + (((t.x2 - t.x1) as real - w) / 2.0).Floor as real
  }

  /** What happens to one line: skipped, or drawn at `(x, y)` with or
      without a stroke. */
  datatype LineDraw = Skipped | Drawn(x: real, y: int, text: string, stroked: bool)

  /** Lines 1073-1123 for the line at `index`: blank lines are skipped; a
      line is drawn when it lies within the tolerance of the text rectangle;
      a line whose bottom passes the tolerance goes to the truncation loop,
      which strips it to nothing, so it is not drawn either. */
  function PlaceLine(line: string, index: int, startY: int, lineHeight: int, t: Box, size: int,
                     font: Font, metric: Metric, align: Align, stroked: bool, tolerance: int): (d: LineDraw)
    ensures d.Drawn? ==> !IsBlank(line) && d.text == line && d.y == startY + index * lineHeight
    ensures d.Drawn? ==> d.y + size <= t.y2 + tolerance &&
                         (t.x1 - tolerance) as real <= d.x &&
                         d.x + LineWidth(metric, font, line, size) <= (t.x2 + tolerance) as real
    ensures var w := LineWidth(metric, font, line, size); var x := AlignX(align, t, w);
            (size >= 0 && !IsBlank(line) &&
             (t.x1 - tolerance) as real <= x && x + w <= (t.x2 + tolerance) as real &&
             startY + index * lineHeight + size <= t.y2 + tolerance) ==> d.Drawn?
  {
    if IsBlank(line) then Skipped
    else
      var w := LineWidth(metric, font, line, size);
      var x := AlignX(align, t, w);
      var y := startY + index * lineHeight;
      if x >= (t.x1 - tolerance) as real && x + w <= (t.x2 + tolerance) as real && y <= t.y2 + tolerance then
        if y + size <= t.y2 + tolerance then Drawn(x, y, line, stroked) else Skipped
      else Skipped
  }

  /** Every line of an arrangement placed in order. */
  function PlaceAll(a: Fit, startY: int, t: Box, metric: Metric, align: Align, stroked: bool, tolerance: int)
    : (ds: seq<LineDraw>)
    ensures |ds| == |a.lines|
    ensures forall i :: 0 <= i < |ds| ==>
              ds[i] == PlaceLine(a.lines[i], i, startY, a.lineHeight, t, a.fontSize, a.font, metric, align, stroked, tolerance)
  {
    seq(|a.lines|, i requires 0 <= i < |a.lines| =>
      PlaceLine(a.lines[i], i, startY, a.lineHeight, t, a.fontSize, a.font, metric, align, stroked, tolerance))
  }

  /** A stroke is drawn only with a colour and a positive width. */
  function Stroked(r: TextRegion): bool
  {
    r.strokeColor.Some? && r.strokeWidth > 0
  }

  /** The font reloaded after the font size was scaled down: the preview
      reloads the family at the new size (1052); the PIL exports enlarge it
      by 10% again when the region is bold (5309-5316). */
  function Reload(env: FontEnv, custom: map<string, string>, family: string, bold: bool): (f: int -> Font)
    ensures forall size :: f(size) == OverlayFont(env, custom, family, if bold then BoldSize(size) else size, false)
  {
    size => OverlayFont(env, custom, family, if bold then BoldSize(size) else size, false)
  }

  /** `int(size * 1.1)`, the size of the enlarged font that stands in for bold. */
  function BoldSize(size: int): int
  {
    size * 11 / 10
  }

  /** The geometry of one region before its lines are placed: the clamped
      box, the text rectangle, the arrangement and the top of the block. */
  datatype Frame = Frame(box: Box, textRect: Box, fit: Fit, startY: int)

  /** The outcome of laying out one region. */
  datatype Preview = Preview(box: Box, textRect: Box, background: bool, fit: Fit, startY: int,
                             draws: seq<LineDraw>, handle: Option<int>)

  /** Lines 985-1066: the text rectangle inside `box`, then wrapping and
      fitting with `font`, the line height starting from `lineBase`. */
  function Fitted(r: TextRegion, box: Box, margin: int, size: int, font: Font, lineBase: int,
                  refont: int -> Font, metric: Metric): (f: Frame)
    requires size >= 8
    ensures f.box == box && f.textRect == TextRect(box, margin, size)
    ensures 8 <= f.fit.fontSize <= size && f.fit.lines != []
    ensures f.fit.total <= f.textRect.y2 - f.textRect.y1 || f.fit.lineHeight == f.fit.fontSize
    ensures f.startY == StartY(f.textRect, f.fit.total)
  {
    var t := TextRect(box, margin, size);
    var a := Arrange(r.text, r.wrapMode, r.lineSpacing, t.y2 - t.y1, WrapWidth(t, margin), size, lineBase, font,
                     refont, metric);
    Frame(box, t, a, StartY(t, a.total))
  }

  /** The preview's font: the family at the layout size, or 10% larger for
      a bold region (1006-1015). */
  function PreviewFont(r: TextRegion, env: FontEnv, custom: map<string, string>, size: int): Font
  {
    if r.bold then OverlayFont(env, custom, r.fontFamily, BoldSize(size), false)
    else OverlayFont(env, custom, r.fontFamily, size, false)
  }

  /** Lines 959-1066 of `draw_korean_text_optimized`: clamp, font size, text
      rectangle, font, wrapping and fitting. */
  function PreviewFrame(r: TextRegion, target: Box, w: int, h: int, env: FontEnv, custom: map<string, string>,
                        metric: Metric): (f: Frame)
    ensures f.box == ClampBox(target, w, h)
    ensures f.textRect.y2 > f.textRect.y1 && f.textRect.x2 > f.textRect.x1
    ensures 8 <= f.fit.fontSize <= Max(8, r.fontSize) && f.fit.lines != []
  {
    var box := ClampBox(target, w, h);
    var fs := PreviewFontSize(box.y2 - box.y1, r.fontSize);
    Fitted(r, box, r.margin, fs, PreviewFont(r, env, custom, fs), fs, Reload(env, custom, r.fontFamily, false), metric)
  }

  /** Lines 1125-1130: the resize-handle size, drawn only for the selected
      region when handles are shown. */
  function Handle(f: Frame, selected: bool, showHandles: bool): (hs: Option<int>)
    ensures hs.Some? <==> selected && showHandles
    ensures hs.Some? ==> hs.value <= 15
  {
    if selected && showHandles
    then Some(Min(15, Min(Max(10, f.textRect.x2 - f.textRect.x1), f.box.y2 - f.box.y1) / 4))
    else None
  }

  /** The whole preview of one region, per `draw_korean_text_optimized`. */
  function PreviewLayout(r: TextRegion, target: Box, w: int, h: int, env: FontEnv, custom: map<string, string>,
                         metric: Metric, selected: bool, showHandles: bool): (p: Preview)
    ensures p.fit.fontSize >= 8 && p.fit.lines != [] && |p.draws| == |p.fit.lines|
  {
    var f := PreviewFrame(r, target, w, h, env, custom, metric);
    Preview(f.box, f.textRect, r.bgColor.a > 0, f.fit, f.startY,
            PlaceAll(f.fit, f.startY, f.textRect, metric, r.textAlign, Stroked(r), 20),
            Handle(f, selected, showHandles))
  }

  /** The truncation loop of lines 1104-1112: it removes the last character
      while the line's bottom passes the tolerance. Its condition does not
      depend on the text, so once entered the loop strips the line to nothing. */
  method TruncateLine(line: string, y: int, size: int, t: Box, font: Font, metric: Metric, x0: real)
    returns (truncated: string, x: real)
    ensures y + size > t.y2 + 20 ==> truncated == ""
    ensures y + size <= t.y2 + 20 ==> truncated == line && x == x0
  {
    truncated := line;
    x := x0;
    while truncated != "" && y + size > t.y2 + 20
      invariant y + size <= t.y2 + 20 ==> truncated == line && x == x0
      decreases |truncated|
    {
      truncated := truncated[..|truncated| - 1];
      if truncated != "" {
        var tw := LineWidth(metric, font, truncated + "...", size);
        x := t.x1 as real + (((t.x2 - t.x1) as real - tw) / 2.0).Floor as real;
      }
    }
  }

  /** The loop over the lines (lines 1072-1123): each line is placed as
      `PlaceLine` says, the truncation loop included. */
  method DrawLines(a: Fit, y0: int, t: Box, metric: Metric, align: Align, stroked: bool)
    returns (draws: seq<LineDraw>)
    ensures draws == PlaceAll(a, y0, t, metric, align, stroked, 20)
  {
    draws := [];
    for i := 0 to |a.lines|
      invariant |draws| == i
      invariant forall k :: 0 <= k < i ==>
                  draws[k] == PlaceLine(a.lines[k], k, y0, a.lineHeight, t, a.fontSize, a.font, metric, align, stroked, 20)
    {
      var line := a.lines[i];
      var d := Skipped;
      if !IsBlank(line) {
        var width := LineWidth(metric, a.font, line, a.fontSize);
        var x := AlignX(align, t, width);
        var y := y0 + i * a.lineHeight;
        if x >= (t.x1 - 20) as real && x + width <= (t.x2 + 20) as real && y <= t.y2 + 20 {
          if y + a.fontSize <= t.y2 + 20 {
            d := Drawn(x, y, line, stroked);
          } else {
            var truncated, tx := TruncateLine(line, y, a.fontSize, t, a.font, metric, x);
            if truncated != "" {
              d := Drawn(tx, y, truncated + "...", stroked);
            }
          }
        }
      }
      draws := draws + [d];
    }
  }

  /** The source procedure: the frame arithmetic, then the loop over the
      lines with its truncation loop; it computes `PreviewLayout`. */
  method DrawKoreanTextOptimized(r: TextRegion, target: Box, w: int, h: int, env: FontEnv,
                                 custom: map<string, string>, metric: Metric, selected: bool, showHandles: bool)
    returns (p: Preview)
    ensures p == PreviewLayout(r, target, w, h, env, custom, metric, selected, showHandles)
  {
    var f := PreviewFrame(r, target, w, h, env, custom, metric);
    var draws := DrawLines(f.fit, f.startY, f.textRect, metric, r.textAlign, Stroked(r));
    p := Preview(f.box, f.textRect, r.bgColor.a > 0, f.fit, f.startY, draws, Handle(f, selected, showHandles));
  }

  /** A line is drawn exactly when it is not blank and lies, with its full
      height, within 20 pixels of the text rectangle; it is drawn as it was
      wrapped, at its own row. */
  lemma PreviewDraws(r: TextRegion, target: Box, w: int, h: int, env: FontEnv, custom: map<string, string>,
                     metric: Metric, selected: bool, showHandles: bool, i: int)
    requires var p := PreviewLayout(r, target, w, h, env, custom, metric, selected, showHandles);
             0 <= i < |p.fit.lines|
    ensures var p := PreviewLayout(r, target, w, h, env, custom, metric, selected, showHandles);
            var line := p.fit.lines[i];
            var width := LineWidth(metric, p.fit.font, line, p.fit.fontSize);
            var x := AlignX(r.textAlign, p.textRect, width);
            var y := p.startY + i * p.fit.lineHeight;
            (p.draws[i].Drawn? <==>
               !IsBlank(line) && (p.textRect.x1 - 20) as real <= x && x + width <= (p.textRect.x2 + 20) as real &&
               y + p.fit.fontSize <= p.textRect.y2 + 20) &&
            (p.draws[i].Drawn? ==> p.draws[i] == Drawn(x, y, line, Stroked(r)))
  {
  }

  /** A margin of -10 on a 100 x 50 box widens the text rectangle to
      120 x 70 and the wrapping width to 140. */
  lemma NegativeMarginWidens()
    ensures TextRect(Box(0, 0, 100, 50), -10, 18) == Box(-10, -10, 110, 60)
    ensures WrapWidth(Box(-10, -10, 110, 60), -10) == 140
  {
  }

  /** When the first squeeze makes the block fit, the font size and the
      lines are kept and only the line height changes. */
  lemma SqueezeKeepsSize(text: string, mode: WrapMode, spacing: Decimal, available: int, width: int,
                         size: int, lineBase: int, font: Font, refont: int -> Font, metric: Metric)
    requires available > 0 && size >= 8
    requires var n := |Wrap(mode, text, width, size, font, metric)|;
             n * Max(size, available / n) <= available
    ensures var a := Arrange(text, mode, spacing, available, width, size, lineBase, font, refont, metric);
            a.fontSize == size && a.font == font && a.lines == Wrap(mode, text, width, size, font, metric) &&
            a.total <= available
  {
  }

  /** When the squeeze is not enough, the font size drops strictly (unless it
      is already the floor of 8), the font is reloaded at that size and the
      text is wrapped again exactly once. */
  lemma RescaleShrinks(text: string, mode: WrapMode, spacing: Decimal, available: int, width: int,
                       size: int, lineBase: int, font: Font, refont: int -> Font, metric: Metric)
    requires available > 0 && size >= 8
    requires var n := |Wrap(mode, text, width, size, font, metric)|;
             n * TruncMul(lineBase, spacing) > available && n * Max(size, available / n) > available
    ensures var a := Arrange(text, mode, spacing, available, width, size, lineBase, font, refont, metric);
            a.fontSize <= Max(8, size - 1) && a.font == refont(a.fontSize) &&
            a.lines == Wrap(mode, text, width, a.fontSize, refont(a.fontSize), metric) &&
            a.lineHeight == Max(a.fontSize, available / |a.lines|)
  {
    var n := |Wrap(mode, text, width, size, font, metric)|;
    ScaleShrinks(size, available, n * Max(size, available / n));
  }
}
