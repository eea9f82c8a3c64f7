/** The export paths of the main window. The two PIL exports repeat the
    preview's layout at scale 1 (`save_with_pil_screen`) or 2
    (`save_with_pil_hires`) with a weight-aware font; `save_with_qpainter`
    and `create_overlay_image` use their own variants of the arithmetic. */
module Export {
  import opened Text
  import opened Region
  import opened Fonts
  import opened Layout
  import WordWrap

  /** Lines 5217-5221 (and 5398-5402, 5674-5678): only the regions of the
      current image, matched by file name (a missing name matches regions
      with none); then 5225-5229: hidden regions are skipped where
      `requireVisible`, and unplaced ones always. */
  predicate Exported(r: TextRegion, current: Option<string>, requireVisible: bool)
  {
    r.imageFilename == current && (r.visible || !requireVisible) && r.isPositioned && r.targetBox.Some?
  }

  /** The box multiplied by the export scale. */
  function ScaleBox(b: Box, scale: int): (s: Box)
    ensures s.x2 - s.x1 == scale * (b.x2 - b.x1) && s.y2 - s.y1 == scale * (b.y2 - b.y1)
  {
    Box(b.x1 * scale, b.y1 * scale, b.x2 * scale, b.y2 * scale)
  }

  /** Lines 5274-5279: the bold levels enlarge the font by 10% and then 15%. */
  function EffectiveSize(size: int, level: int): (e: int)
    ensures size >= 0 && level <= 0 ==> e == size
    ensures size >= 10 && level >= 1 ==> e > size
  {
    var e1 := if level >= 1 then size * 11 / 10 else size;
    if level >= 2 then e1 * 115 / 100 else e1
  }

  /** The export geometry of one region on an image already scaled: the
      clamped box, the font size capped by `sizeCap`, the text rectangle
      inset by `margin`, the weight-aware font at the effective size, and an
      arrangement whose line height starts from that effective size. */
  function ScaledFrame(r: TextRegion, target: Box, w: int, h: int, sizeCap: int, margin: int, env: FontEnv,
                       custom: map<string, string>, metric: Metric): (f: Frame)
    ensures f.box == ClampBox(target, w, h)
    ensures f.textRect.y2 > f.textRect.y1 && f.fit.lines != [] && 8 <= f.fit.fontSize <= Max(8, sizeCap)
  {
    var box := ClampBox(target, w, h);
    var fs := PreviewFontSize(box.y2 - box.y1, sizeCap);
    var eff := EffectiveSize(fs, r.boldLevel);
    Fitted(r, box, margin, fs, WeightedFont(env, custom, r.fontFamily, eff, r.boldLevel), eff,
           Reload(env, custom, r.fontFamily, r.bold), metric)
  }

  /** The export geometry at `scale` on a `w` x `h` image: the box, the
      image, the region's size and its margin are all multiplied by `scale`. */
  function ExportFrame(r: TextRegion, target: Box, w: int, h: int, scale: int, env: FontEnv,
                       custom: map<string, string>, metric: Metric): (f: Frame)
    ensures f.box == ClampBox(ScaleBox(target, scale), w * scale, h * scale)
    ensures f.textRect.y2 > f.textRect.y1 && f.fit.lines != [] && f.fit.fontSize >= 8
  {
    ScaledFrame(r, ScaleBox(target, scale), w * scale, h * scale, r.fontSize * scale, r.margin * scale,
                env, custom, metric)
  }

  /** One exported region: the preview record without handles, with the
      tolerance scaled (5329, 5539). */
  function ExportRegion(r: TextRegion, w: int, h: int, scale: int, env: FontEnv,
                        custom: map<string, string>, metric: Metric): (p: Preview)
    requires r.targetBox.Some?
    ensures p.handle.None? && |p.draws| == |p.fit.lines|
  {
    var f := ExportFrame(r, r.targetBox.value, w, h, scale, env, custom, metric);
    Preview(f.box, f.textRect, r.bgColor.a > 0, f.fit, f.startY,
            PlaceAll(f.fit, f.startY, f.textRect, metric, r.textAlign, Stroked(r), 20 * scale), None)
  }

  /** All exported regions, in list order. */
  function ExportAll(rs: seq<TextRegion>, current: Option<string>, requireVisible: bool, w: int, h: int,
                     scale: int, env: FontEnv, custom: map<string, string>, metric: Metric): (ps: seq<Preview>)
    ensures |ps| <= |rs|
  {
    if rs == [] then []
    else
      var last := rs[|rs| - 1];
      ExportAll(rs[..|rs| - 1], current, requireVisible, w, h, scale, env, custom, metric) +
        (if Exported(last, current, requireVisible) then [ExportRegion(last, w, h, scale, env, custom, metric)] else [])
  }

  lemma ExportAllStep(rs: seq<TextRegion>, i: int, current: Option<string>, requireVisible: bool, w: int, h: int,
                      scale: int, env: FontEnv, custom: map<string, string>, metric: Metric)
    requires 0 <= i < |rs|
    ensures ExportAll(rs[..i + 1], current, requireVisible, w, h, scale, env, custom, metric) ==
            ExportAll(rs[..i], current, requireVisible, w, h, scale, env, custom, metric) +
            (if Exported(rs[i], current, requireVisible) then [ExportRegion(rs[i], w, h, scale, env, custom, metric)] else [])
  {
    assert rs[..i + 1][..i] == rs[..i];
  }

  /** The body of the export loop for one region. */
  method ExportOne(r: TextRegion, w: int, h: int, scale: int, env: FontEnv,
                   custom: map<string, string>, metric: Metric)
    returns (p: Preview)
    requires r.targetBox.Some?
    ensures p == ExportRegion(r, w, h, scale, env, custom, metric)
  {
    var f := ExportFrame(r, r.targetBox.value, w, h, scale, env, custom, metric);
    var draws := DrawLinesWithin(f.fit, f.startY, f.textRect, metric, r.textAlign, Stroked(r), 20 * scale);
    p := Preview(f.box, f.textRect, r.bgColor.a > 0, f.fit, f.startY, draws, None);
  }

  /** One pass of the export loop: the region at `i` is drawn when it passes
      the filter. */
  method ExportStep(rs: seq<TextRegion>, i: int, ps: seq<Preview>, current: Option<string>, requireVisible: bool,
                    w: int, h: int, scale: int, env: FontEnv, custom: map<string, string>, metric: Metric)
    returns (next: seq<Preview>)
    requires 0 <= i < |rs|
    requires ps == ExportAll(rs[..i], current, requireVisible, w, h, scale, env, custom, metric)
    ensures next == ExportAll(rs[..i + 1], current, requireVisible, w, h, scale, env, custom, metric)
  {
    ExportAllStep(rs, i, current, requireVisible, w, h, scale, env, custom, metric);
    next := ps;
    if Exported(rs[i], current, requireVisible) {
      var p := ExportOne(rs[i], w, h, scale, env, custom, metric);
      next := ps + [p];
    }
  }

  /** The loop over the regions shared by the two PIL exports. */
  method ExportLoop(rs: seq<TextRegion>, current: Option<string>, requireVisible: bool, w: int, h: int,
                    scale: int, env: FontEnv, custom: map<string, string>, metric: Metric)
    returns (ps: seq<Preview>)
    ensures ps == ExportAll(rs, current, requireVisible, w, h, scale, env, custom, metric)
  {
    ps := [];
    for i := 0 to |rs|
      invariant ps == ExportAll(rs[..i], current, requireVisible, w, h, scale, env, custom, metric)
    {
      ps := ExportStep(rs, i, ps, current, requireVisible, w, h, scale, env, custom, metric);
    }
    assert rs[..|rs|] == rs;
  }

  /** The per-line loop of the exports (5336-5355): no truncation branch. */
  method DrawLinesWithin(a: Fit, y0: int, t: Box, metric: Metric, align: Align, stroked: bool, tolerance: int)
    returns (draws: seq<LineDraw>)
    ensures draws == PlaceAll(a, y0, t, metric, align, stroked, tolerance)
  {
    draws := [];
    for i := 0 to |a.lines|
      invariant |draws| == i
      invariant forall k :: 0 <= k < i ==>
                  draws[k] == PlaceLine(a.lines[k], k, y0, a.lineHeight, t, a.fontSize, a.font, metric, align, stroked, tolerance)
    {
      var line := a.lines[i];
      var d := Skipped;
      if !IsBlank(line) {
        var width := LineWidth(metric, a.font, line, a.fontSize);
        var x := AlignX(align, t, width);
        var y := y0 + i * a.lineHeight;
        if x >= (t.x1 - tolerance) as real && x + width <= (t.x2 + tolerance) as real && y <= t.y2 + tolerance {
          if y + a.fontSize <= t.y2 + tolerance {
            d := Drawn(x, y, line, stroked);
          }
        }
      }
      draws := draws + [d];
    }
  }

  /** `save_with_pil_screen`: visible placed regions at scale 1. */
  method SaveWithPilScreen(rs: seq<TextRegion>, current: Option<string>, w: int, h: int, env: FontEnv,
                           custom: map<string, string>, metric: Metric)
    returns (ps: seq<Preview>)
    ensures ps == ExportAll(rs, current, true, w, h, 1, env, custom, metric)
  {
    ps := ExportLoop(rs, current, true, w, h, 1, env, custom, metric);
  }

  /** `save_with_pil_hires`: placed regions at scale 2, hidden ones included. */
  method SaveWithPilHiRes(rs: seq<TextRegion>, current: Option<string>, w: int, h: int, env: FontEnv,
                          custom: map<string, string>, metric: Metric)
    returns (ps: seq<Preview>)
    ensures ps == ExportAll(rs, current, false, w, h, 2, env, custom, metric)
  {
    ps := ExportLoop(rs, current, false, w, h, 2, env, custom, metric);
  }

  /** A region on the screen export is on the hi-res export too: the
      hi-res export differs only in not checking visibility. */
  lemma {:induction false} ScreenWithinHiRes(rs: seq<TextRegion>, current: Option<string>, w: int, h: int,
                                             env: FontEnv, custom: map<string, string>, metric: Metric)
    ensures |ExportAll(rs, current, true, w, h, 1, env, custom, metric)| <=
            |ExportAll(rs, current, false, w, h, 2, env, custom, metric)|
    decreases |rs|
  {
    if rs != [] {
      ScreenWithinHiRes(rs[..|rs| - 1], current, w, h, env, custom, metric);
    }
  }

  /** A hidden, placed region of the current image is left out of the
      screen export but drawn by the hi-res export. */
  lemma HiddenOnlyInHiRes(r: TextRegion, current: Option<string>, w: int, h: int,
                          env: FontEnv, custom: map<string, string>, metric: Metric)
    requires r.imageFilename == current && r.isPositioned && r.targetBox.Some? && !r.visible
    ensures ExportAll([r], current, true, w, h, 1, env, custom, metric) == []
    ensures ExportAll([r], current, false, w, h, 2, env, custom, metric) == [ExportRegion(r, w, h, 2, env, custom, metric)]
  {
    assert [r][..0] == [];
  }

  /** For a box well inside the image, the hi-res export lays out exactly
      twice the screen box, with twice the margin. */
  lemma HiResDoublesBox(r: TextRegion, target: Box, w: int, h: int, env: FontEnv,
                        custom: map<string, string>, metric: Metric)
    requires 0 <= target.x1 && target.x1 + 2 <= target.x2 <= w - 1
    requires 0 <= target.y1 && target.y1 + 2 <= target.y2 <= h - 1
    ensures ExportFrame(r, target, w, h, 1, env, custom, metric).box == target
    ensures ExportFrame(r, target, w, h, 2, env, custom, metric).box == ScaleBox(target, 2)
  {
    assert ScaleBox(target, 1) == target;
  }

  /** For a regular-weight region whose weight files are all absent, the
      screen export lays the region out exactly as the preview does. */
  lemma ScreenMatchesPreview(r: TextRegion, target: Box, w: int, h: int, env: FontEnv,
                             custom: map<string, string>, metric: Metric)
    requires r.boldLevel == 0 && !r.bold
    requires var ps := WeightCandidates(env, r.fontFamily, 0);
             forall k :: 0 <= k < |ps| ==> !env.present(ps[k])
    ensures ExportFrame(r, target, w, h, 1, env, custom, metric) == PreviewFrame(r, target, w, h, env, custom, metric)
  {
    assert ScaleBox(target, 1) == target;
    assert r.fontSize * 1 == r.fontSize && r.margin * 1 == r.margin && w * 1 == w && h * 1 == h;
    assert ExportFrame(r, target, w, h, 1, env, custom, metric) ==
           ScaledFrame(r, target, w, h, r.fontSize, r.margin, env, custom, metric);
    var box := ClampBox(target, w, h);
    var fs := PreviewFontSize(box.y2 - box.y1, r.fontSize);
    var ps := WeightCandidates(env, r.fontFamily, 0);
    assert forall k :: 0 <= k < |Plain(ps)| ==> !Loadable(env, Plain(ps)[k], fs);
    assert WeightedFont(env, custom, r.fontFamily, fs, 0) == PreviewFont(r, env, custom, fs);
  }

  /** The screen export starts the line height from the weight-enlarged
      size: a bold region whose 20-pixel font fits its box gets 22-pixel
      lines where the preview, which starts from the plain size, gets 20. */
  lemma BoldLinesTaller(text: string, mode: WrapMode, available: int, width: int, font: Font, font2: Font,
                        refont: int -> Font, refont2: int -> Font, metric: Metric)
    requires available >= 22 * |Wrap(mode, text, width, 20, font, metric)|
    requires Wrap(mode, text, width, 20, font2, metric) == Wrap(mode, text, width, 20, font, metric)
    ensures Arrange(text, mode, Decimal(10, 1), available, width, 20, EffectiveSize(20, 1), font, refont, metric).lineHeight == 22
    ensures Arrange(text, mode, Decimal(10, 1), available, width, 20, 20, font2, refont2, metric).lineHeight == 20
  {
    assert EffectiveSize(20, 1) == 22;
    assert TruncMul(22, Decimal(10, 1)) == 22;
    assert TruncMul(20, Decimal(10, 1)) == 20;
  }

  /** The advance width `QFontMetrics.width` of a string in a font of a given
      pixel size and weight. */
  type QtMetric = (int, bool, string) -> int

  /** One line of the QPainter export: skipped, or drawn with its baseline
      at `(x, baseline)`. */
  datatype QtDraw = QtSkipped | QtDrawn(x: int, baseline: int, text: string, stroked: bool)

  /** The QPainter layout of one region: the layout font size, the Qt font's
      pixel size, the text rectangle, the lines and their placement. */
  datatype QtPlan = QtPlan(background: bool, fontSize: int, pixelSize: int, textRect: Box, lines: seq<string>,
                           lineHeight: int, total: int, startY: int, draws: seq<QtDraw>)

  /** The temporary PIL font used only for wrapping (5754, 5798): the
      bundled NanumGothic when it exists, the built-in font otherwise, and
      `None` when the bundled file exists but does not open, which raises. */
  function TempFont(env: FontEnv, size: int): (f: Option<Font>)
    ensures f.None? <==> env.present(env.resourcePath("fonts/NanumGothic.ttf")) &&
                         !env.opens(env.resourcePath("fonts/NanumGothic.ttf"), size)
  {
    var path := env.resourcePath("fonts/NanumGothic.ttf");
    if !env.present(path) then Some(Builtin)
    else if env.opens(path, size) then Some(TrueType(path, size))
    else None
  }

  /** Lines 5751-5762 as written: on the main window `self.wrap_text_for_box`
      is not defined, so character mode raises like a failing font does;
      `None` stands for the exception. */
  function QtWrapAsWritten(r: TextRegion, width: int, size: int, env: FontEnv, metric: Metric): (ls: Option<seq<string>>)
    ensures r.wrapMode == Char ==> ls.None?
    ensures r.wrapMode == Word ==> (ls.None? <==> TempFont(env, size).None?)
    ensures ls.Some? ==> ls.value != [] && forall k :: 0 <= k < |ls.value| ==> '\n' !in ls.value[k]
  {
    match TempFont(env, size)
    case None => None
    case Some(f) =>
      if r.wrapMode == Word then Some(WordWrap.WrapWord(r.text, width, size, s => metric(f, s))) else None
  }

  /** Lines 5751-5762 as intended: the canvas's wrapper for the region's
      mode, with the whitespace fix, and the temporary font; `None` only
      when that font fails. */
  function QtWrap(r: TextRegion, width: int, size: int, env: FontEnv, metric: Metric): (ls: Option<seq<string>>)
    ensures ls.None? <==> TempFont(env, size).None?
    ensures ls.Some? ==> ls.value != []
  {
    match TempFont(env, size)
    case None => None
    case Some(f) => Some(WrapFixed(r.wrapMode, r.text, width, size, f, metric))
  }

  /** In character mode the export as written draws the whole text as one
      line, newlines included, whatever the box; as intended it draws the
      box wrapper's lines, which hold no newline and spell the text without
      its newlines. */
  lemma CharModeUnwrapped(r: TextRegion, width: int, size: int, env: FontEnv, metric: Metric)
    requires r.wrapMode == Char && TempFont(env, size).Some? && !IsBlank(r.text)
    ensures QtWrapAsWritten(r, width, size, env, metric).None?
    ensures var ls := QtWrap(r, width, size, env, metric).value;
            (forall k :: 0 <= k < |ls| ==> '\n' !in ls[k]) && Concat(ls) == Without(r.text, '\n')
  {
  }

  /** Lines 5813-5850 for the line at `index`: Qt measures with the font's
      pixel size and weight; the line is drawn when its baseline
      (`top + font size`) is within the text rectangle. */
  function QtPlace(r: TextRegion, line: string, index: int, startY: int, lineHeight: int, size: int, pixelSize: int,
                   t: Box, qt: QtMetric): (d: QtDraw)
    ensures d.QtDrawn? <==> !IsBlank(line) && startY + index * lineHeight + size <= t.y2
    ensures d.QtDrawn? ==> d.text == line && d.baseline == startY + index * lineHeight + size
  {
    if IsBlank(line) then QtSkipped
    else
      var lw := qt(pixelSize, r.bold, line);
      var x := match r.textAlign
               case Left => t.x1
               case Right => t.x2 - lw
               case Center => t.x1 + (t.x2 - t.x1 - lw) / 2;
      var baseline := startY + index * lineHeight + size;
      if baseline <= t.y2 then QtDrawn(x, baseline, line, Stroked(r)) else QtSkipped
  }

  /** The plan once the font size, lines and line height are settled. */
  function QtSettle(r: TextRegion, t: Box, size: int, pixelSize: int, lines: seq<string>, lineHeight: int,
                    qt: QtMetric): (p: QtPlan)
    ensures p.lines == lines && p.lineHeight == lineHeight && p.fontSize == size && |p.draws| == |lines|
  {
    var total := |lines| * lineHeight;
    var y0 := t.y1 + (t.y2 - t.y1 - total) / 2;
    QtPlan(r.bgColor.a > 0, size, pixelSize, t, lines, lineHeight, total, y0,
           seq(|lines|, i requires 0 <= i < |lines| => QtPlace(r, lines[i], i, y0, lineHeight, size, pixelSize, t, qt)))
  }

  /** Lines 5697-5702: the layout font size from the unclamped box, at
      least 8, enlarged by 10% for bold. */
  function QtSize(r: TextRegion, b: Box): (fs: int)
    ensures fs >= 8
    ensures !r.bold ==> fs == Max(8, Min(TruncDiv((b.y2 - b.y1) * 6, 10), r.fontSize))
  {
    var fs0 := Max(8, Min(TruncDiv((b.y2 - b.y1) * 6, 10), r.fontSize));
    if r.bold then BoldSize(fs0) else fs0
  }

  /** Lines 5764-5809: on overflow the font size is scaled down at once,
      without first squeezing the line height, the text is wrapped again
      (the old lines are kept when that raises) and the line height is
      recomputed from the new line count. As written, the re-wrap raises in
      character mode, so those lines stay unwrapped. Unlike the preview, an
      overflowing block never keeps its font size, even when squeezing the
      line height alone would have made it fit. */
  function QtFit(r: TextRegion, t: Box, width: int, size: int, lines: seq<string>, env: FontEnv, metric: Metric,
                 qt: QtMetric): (p: QtPlan)
    requires lines != [] && size >= 8 && t.y2 > t.y1
    ensures p.lines != [] && 8 <= p.fontSize <= size
    ensures |lines| * TruncMul(size, r.lineSpacing) > t.y2 - t.y1 ==> p.fontSize <= Max(8, size - 1)
    ensures |lines| * TruncMul(size, r.lineSpacing) <= t.y2 - t.y1 ==>
              p.fontSize == size && p.lines == lines && p.lineHeight == TruncMul(size, r.lineSpacing)
    ensures r.wrapMode == Char ==> p.lines == lines
  {
    var available := t.y2 - t.y1;
    var lh := TruncMul(size, r.lineSpacing);
    if |lines| * lh <= available then QtSettle(r, t, size, size, lines, lh, qt)
    else
      var size2 := Max(8, size * available / (|lines| * lh));
      ScaleShrinks(size, available, |lines| * lh);
      var lines2 := match QtWrapAsWritten(r, width, size2, env, metric) case Some(ls) => ls case None => lines;
      QtSettle(r, t, size2, if r.bold then BoldSize(size2) else size2, lines2, Max(size2, available / |lines2|), qt)
  }

  /** `save_with_qpainter` for one region (lines 5690-5850). The target box
      is used unclamped; the text is wrapped with the temporary font, or
      left whole when that raises, which it always does in character mode. */
  function QPainterPlan(r: TextRegion, env: FontEnv, metric: Metric, qt: QtMetric): (p: QtPlan)
    requires r.targetBox.Some?
    ensures p.lines != [] && p.fontSize >= 8
    ensures forall i :: 0 <= i < |p.draws| && p.draws[i].QtDrawn? ==> p.draws[i].baseline <= p.textRect.y2
    ensures r.wrapMode == Char ==> p.lines == [r.text]
  {
    var b := r.targetBox.value;
    var fs := QtSize(r, b);
    var t := TextRect(b, r.margin, fs);
    var ww := WrapWidth(t, r.margin);
    var lines := match QtWrapAsWritten(r, ww, fs, env, metric) case Some(ls) => ls case None => [r.text];
    QtFit(r, t, ww, fs, lines, env, metric, qt)
  }

  /** What `create_overlay_image` lays out for one region: the clamped box,
      the text rectangle, the font size and font, the lines, the line
      height and the top of the block. */
  datatype OverlayPlan = OverlayPlan(box: Box, textRect: Box, fontSize: int, font: Font, lines: seq<string>,
                                     lineHeight: int, startY: int)

  /** Lines 5877-5881: a looser clamp than the preview's, keeping at least
      one pixel each way. */
  function ClampLoose(b: Box, w: int, h: int): (c: Box)
    ensures c.x2 - c.x1 >= 1 && c.y2 - c.y1 >= 1
    ensures 0 <= c.x1 <= Max(0, w - 1) && 0 <= c.y1 <= Max(0, h - 1)
    ensures 0 <= b.x1 && b.x1 + 1 <= b.x2 <= w && 0 <= b.y1 && b.y1 + 1 <= b.y2 <= h ==> c == b
  {
    var x1 := Max(0, Min(b.x1, w - 1));
    var y1 := Max(0, Min(b.y1, h - 1));
    Box(x1, y1, Max(x1 + 1, Min(b.x2, w)), Max(y1 + 1, Min(b.y2, h)))
  }

  /** Lines 5929-5939 as written: character mode calls the box wrapper the
      main window does not have, and the handler keeps the text whole. */
  function OverlayLinesAsWritten(r: TextRegion, width: int, font: Font, metric: Metric): (ls: seq<string>)
    ensures ls != []
    ensures r.wrapMode == Char ==> ls == [r.text]
    ensures r.wrapMode == Word ==> forall k :: 0 <= k < |ls| ==> '\n' !in ls[k]
  {
    if r.wrapMode == Word then WordWrap.WrapWord(r.text, width, r.fontSize, s => metric(font, s)) else [r.text]
  }

  /** Lines 5929-5939 as intended: the canvas's wrapper for the region's
      mode, with the whitespace fix, at the region's own font size and 40
      pixels wider than the box. */
  function OverlayLines(r: TextRegion, width: int, font: Font, metric: Metric): (ls: seq<string>)
    ensures ls != []
    ensures r.wrapMode == Word ==> ls == OverlayLinesAsWritten(r, width, font, metric)
  {
    WrapFixed(r.wrapMode, r.text, width, r.fontSize, font, metric)
  }

  /** `create_overlay_image` for one region (lines 5871-5951): skipped when
      unplaced or when the margin leaves no text rectangle (there is no
      minimum-size fallback); no overflow fitting takes place. As written,
      a character-mode text is kept whole as one line. */
  function OverlayRegion(r: TextRegion, w: int, h: int, env: FontEnv, custom: map<string, string>,
                         metric: Metric): (p: Option<OverlayPlan>)
    ensures p.Some? ==> r.isPositioned && r.targetBox.Some? && p.value.fontSize >= 8 &&
                        p.value.textRect.x2 > p.value.textRect.x1 && p.value.textRect.y2 > p.value.textRect.y1 &&
                        p.value.lineHeight == TruncMul(p.value.fontSize, r.lineSpacing)
    ensures r.isPositioned && r.targetBox.Some? && r.margin <= 0 ==> p.Some?
    ensures p.Some? && r.wrapMode == Char ==> p.value.lines == [r.text]
  {
    if !r.isPositioned || r.targetBox.None? then None
    else
      var box := ClampLoose(r.targetBox.value, w, h);
      var fs := Max(8, Min((box.y2 - box.y1) * 6 / 10, r.fontSize));
      var font := OverlayFont(env, custom, r.fontFamily, fs, true);
      var t := Box(box.x1 + r.margin, box.y1 + r.margin, box.x2 - r.margin, box.y2 - r.margin);
      if t.x2 - t.x1 <= 0 || t.y2 - t.y1 <= 0 then None
      else
        var lines := OverlayLinesAsWritten(r, Max(10, t.x2 - t.x1) + 40, font, metric);
        var lh := TruncMul(fs, r.lineSpacing);
        Some(OverlayPlan(box, t, fs, font, lines, lh, t.y1 + (t.y2 - t.y1 - |lines| * lh) / 2))
  }

  /** In character mode the overlay image as written keeps a multi-line text
      as one line; as intended, the lines hold no newline. */
  lemma OverlayCharModeUnwrapped(r: TextRegion, width: int, font: Font, metric: Metric)
    requires r.wrapMode == Char && '\n' in r.text
    ensures OverlayLinesAsWritten(r, width, font, metric) == [r.text]
    ensures var ls := OverlayLines(r, width, font, metric);
            forall k :: 0 <= k < |ls| ==> '\n' !in ls[k]
  {
  }
}
