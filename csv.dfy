/** The CSV row mapping of `save_csv` and `load_csv`: a region becomes one
    row of nineteen cells under a fixed header, and a row becomes a region by
    reading each cell it has and keeping a default for each cell it lacks or
    cannot read. Rows are sequences of cells; quoting and encoding are the
    `csv` module's business and not part of this model. */
module Csv {
  import opened Text
  import opened Region
  import opened Numerals

  type Row = seq<string>

  /** The extended header `save_csv` writes. */
  function Header(): (h: Row)
    ensures |h| == 19
  {
    ["번호", "텍스트", "이미지파일명", "x1", "y1", "x2", "y2", "폰트크기", "폰트",
     "색상B", "색상G", "색상R", "여백", "줄바꿈모드", "줄간격", "볼드", "정렬",
     "is_positioned", "is_manual"]
  }

  function WrapName(m: WrapMode): string
  {
    match m
    case Word => "word"
    case Char => "char"
  }

  function AlignName(a: Align): string
  {
    match a
    case Left => "left"
    case Center => "center"
    case Right => "right"
  }

  /** A flag written as `1` or `0`. */
  function Flag(b: bool): string
  {
    if b then "1" else "0"
  }

  /** The row `save_csv` writes for the region at index `i`: the target box
      (not the OCR box) as four integers, or four empty cells when the region
      has none. */
  function SaveRow(i: nat, r: TextRegion): (row: Row)
    ensures |row| == 19
  {
    var coords :=
      if r.targetBox.Some? then
        [IntToString(r.targetBox.value.x1), IntToString(r.targetBox.value.y1),
         IntToString(r.targetBox.value.x2), IntToString(r.targetBox.value.y2)]
      else ["", "", "", ""];
    [NatToString(i), r.text, if r.imageFilename.Some? then r.imageFilename.value else ""]
      + coords
      + [IntToString(r.fontSize), r.fontFamily,
         IntToString(r.color.b), IntToString(r.color.g), IntToString(r.color.r),
         IntToString(r.margin), WrapName(r.wrapMode), DecimalToString(r.lineSpacing),
         IntToString(r.boldLevel), AlignName(r.textAlign),
         Flag(r.isPositioned), Flag(r.isManual)]
  }

  /** The data rows `save_csv` writes for the first `n` regions, one per
      region, numbered from 0. */
  function SavedRows(regions: seq<TextRegion>, n: nat): (rows: seq<Row>)
    requires n <= |regions|
    ensures |rows| == n
    ensures forall i :: 0 <= i < n ==> rows[i] == SaveRow(i, regions[i])
  {
    seq(n, k requires 0 <= k < n => SaveRow(k, regions[k]))
  }

  /** Saving one more region appends its row. */
  lemma SavedRowsStep(regions: seq<TextRegion>, n: nat)
    requires n < |regions|
    ensures SavedRows(regions, n + 1) == SavedRows(regions, n) + [SaveRow(n, regions[n])]
  {
    var longer := SavedRows(regions, n + 1);
    var extended := SavedRows(regions, n) + [SaveRow(n, regions[n])];
    assert |longer| == |extended|;
    forall k | 0 <= k < n + 1 ensures longer[k] == extended[k] {
      if k < n {
        assert extended[k] == SavedRows(regions, n)[k];
      }
    }
  }

  /** The column index of each header name; a repeated name keeps its last
      position, as the dictionary filled in header order does. */
  function Columns(header: Row): (col: map<string, nat>)
    ensures forall name :: name in col <==> name in header
    ensures forall name :: name in col ==> col[name] < |header| && header[col[name]] == name
    ensures forall name, k :: name in col && col[name] < k < |header| ==> header[k] != name
  {
    if header == [] then map[]
    else
      var init := header[..|header| - 1];
      assert forall k :: 0 <= k < |init| ==> header[k] == init[k];
      Columns(init)[header[|header| - 1] := |header| - 1]
  }

  /** The legacy two-column format: no header, or at most two header cells. */
  predicate IsLegacy(header: Option<Row>)
  {
    header.None? || |header.value| <= 2
  }

  /** `get(name)`: the cell under `name`, or `None` when there is no such
      column or the row is too short. */
  function Get(row: Row, col: map<string, nat>, name: string): (v: Option<string>)
    ensures v.Some? <==> name in col && col[name] < |row|
    ensures v.Some? ==> v.value == row[col[name]]
  {
    if name in col && col[name] < |row| then Some(row[col[name]]) else None
  }

  /** The column of the text: its header position, or 1 without one. */
  function TextColumn(col: map<string, nat>): nat
  {
    if "텍스트" in col then col["텍스트"] else 1
  }

  /** `int(v or 0)`: a missing or empty cell reads as 0, an unreadable one
      is the `ValueError` `None`. */
  function IntOrZero(v: Option<string>): Option<int>
  {
    if v.None? || v.value == "" then Some(0) else ParseInt(v.value)
  }

  /** The target box from the four coordinate cells: kept only when all four
      read and the box has positive width and height. */
  function TargetCells(x1: Option<string>, y1: Option<string>, x2: Option<string>, y2: Option<string>): (b: Option<Box>)
    ensures b.Some? ==> b.value.x1 < b.value.x2 && b.value.y1 < b.value.y2
  {
    match (IntOrZero(x1), IntOrZero(y1), IntOrZero(x2), IntOrZero(y2))
    case (Some(a), Some(b), Some(c), Some(d)) => if c > a && d > b then Some(Box(a, b, c, d)) else None
    case _ => None
  }

  /** An integer cell: read when present and non-empty, otherwise, or when it
      does not read, the default. */
  function IntCell(v: Option<string>, default: int): int
  {
    if v.None? || v.value == "" then default
    else match ParseInt(v.value)
      case Some(n) => n
      case None => default
  }

  /** The three colour cells, each missing or empty one read as 0; black when
      any of them does not read. */
  function ColorCells(b: Option<string>, g: Option<string>, r: Option<string>): Bgr
  {
    match (IntOrZero(b), IntOrZero(g), IntOrZero(r))
    case (Some(vb), Some(vg), Some(vr)) => Bgr(vb, vg, vr)
    case _ => Bgr(0, 0, 0)
  }

  /** The wrap mode: `char` or `word` as written, `word` otherwise. */
  function WrapCell(v: Option<string>): WrapMode
  {
    if v == Some("char") then Char else Word
  }

  /** The line spacing: read when present and non-empty, otherwise, or when
      it does not read, 1.2. */
  function SpacingCell(v: Option<string>): Decimal
  {
    if v.None? || v.value == "" then Decimal(12, 1)
    else match ParseDecimal(v.value)
      case Some(d) => d
      case None => Decimal(12, 1)
  }

  /** The weight level: `0`, `1` or `2` as written; any other non-empty text
      is 1 when it is `True` or `true` and 0 otherwise; a missing or empty
      cell keeps `level`. */
  function BoldCell(v: Option<string>, level: int): int
  {
    if v.None? || v.value == "" then level
    else if v.value == "0" then 0
    else if v.value == "1" then 1
    else if v.value == "2" then 2
    else if v.value == "True" || v.value == "true" then 1
    else 0
  }

  function AlignCell(v: Option<string>, default: Align): Align
  {
    if v == Some("left") then Left
    else if v == Some("center") then Center
    else if v == Some("right") then Right
    else default
  }

  predicate Truthy(v: Option<string>)
  {
    v == Some("1") || v == Some("True") || v == Some("true")
  }

  predicate Falsy(v: Option<string>)
  {
    v == Some("0") || v == Some("False") || v == Some("false")
  }

  /** The region every loaded row starts from: the constructor's defaults,
      the workspace's default font, and marked as added by hand. */
  function Base(text: string, defaultSize: int, defaultFamily: string): (r: TextRegion)
    ensures r.text == text && r.fontSize == defaultSize && r.fontFamily == defaultFamily
    ensures r.isManual && !r.isPositioned && r.targetBox.None? && r.imageFilename.None?
    ensures WeightConsistent(r) && StrokeConsistent(r) && r.visible
  {
    DefaultRegion("", None).(
      text := text, fontSize := defaultSize, fontFamily := defaultFamily,
      color := Bgr(0, 0, 0), margin := 2, wrapMode := Word, lineSpacing := Decimal(12, 1),
      bold := false, imageFilename := None, isPositioned := false, isManual := true,
      textAlign := Center)
  }

  /** The cells of an extended row applied to `base`, one field group at a
      time. `is_positioned` can only confirm what the coordinates decided. */
  function Extend(row: Row, col: map<string, nat>, base: TextRegion): TextRegion
  {
    var image := Get(row, col, "이미지파일명");
    var target := TargetCells(Get(row, col, "x1"), Get(row, col, "y1"), Get(row, col, "x2"), Get(row, col, "y2"));
    var family := Get(row, col, "폰트");
    var bold := Get(row, col, "볼드");
    var level := BoldCell(bold, base.boldLevel);
    base.(
      imageFilename := if image.Some? && image.value != "" then image else None,
      targetBox := target,
      isPositioned := if Truthy(Get(row, col, "is_positioned")) then target.Some? else target.Some? || base.isPositioned,
      fontSize := IntCell(Get(row, col, "폰트크기"), base.fontSize),
      fontFamily := if family.Some? && family.value != "" then family.value else base.fontFamily,
      color := ColorCells(Get(row, col, "색상B"), Get(row, col, "색상G"), Get(row, col, "색상R")),
      margin := IntCell(Get(row, col, "여백"), base.margin),
      wrapMode := WrapCell(Get(row, col, "줄바꿈모드")),
      lineSpacing := SpacingCell(Get(row, col, "줄간격")),
      boldLevel := level,
      bold := if bold.None? || bold.value == "" then base.bold else level >= 1,
      textAlign := AlignCell(Get(row, col, "정렬"), base.textAlign),
      isManual := if Falsy(Get(row, col, "is_manual")) then false else base.isManual)
  }

  /** The region `load_csv` builds from one row, or `None` when the row is
      skipped for lacking its text column. */
  function LoadRow(legacy: bool, col: map<string, nat>, row: Row, defaultSize: int, defaultFamily: string): (r: Option<TextRegion>)
    ensures legacy ==> (r.Some? <==> |row| >= 2)
    ensures !legacy ==> (r.Some? <==> TextColumn(col) < |row|)
    ensures r.Some? && legacy ==> r.value == Base(row[1], defaultSize, defaultFamily)
  {
    if legacy then
      if |row| < 2 then None else Some(Base(row[1], defaultSize, defaultFamily))
    else
      var t := TextColumn(col);
      if t >= |row| then None
      else Some(Extend(row, col, Base(row[t], defaultSize, defaultFamily)))
  }

  /** The regions loaded from `rows`, in order, skipped rows left out. */
  function LoadAll(legacy: bool, col: map<string, nat>, rows: seq<Row>, defaultSize: int, defaultFamily: string): (rs: seq<TextRegion>)
    ensures |rs| <= |rows|
  {
    Collect(rows, row => LoadRow(legacy, col, row, defaultSize, defaultFamily))
  }

  /** The present results of `f` over `xs`, in order. */
  function Collect<A, B>(xs: seq<A>, f: A -> Option<B>): (ys: seq<B>)
    ensures |ys| <= |xs|
  {
    if xs == [] then []
    else
      var init := Collect(xs[..|xs| - 1], f);
      match f(xs[|xs| - 1])
      case Some(y) => init + [y]
      case None => init
  }

  // Lemmas

  /** The header names are distinct. */
  lemma HeaderDistinct()
    ensures forall j, k :: 0 <= j < k < 19 ==> Header()[j] != Header()[k]
  {
  }

  /** A name that does not occur again later in the header is looked up at
      its own position. */
  lemma ColumnAt(header: Row, k: nat)
    requires k < |header| && forall j :: k < j < |header| ==> header[j] != header[k]
    ensures header[k] in Columns(header) && Columns(header)[header[k]] == k
  {
  }

  /** Under the saved header each name is looked up at its own position. */
  lemma HeaderColumns(header: Row)
    requires header == Header()
    ensures forall k :: 0 <= k < 19 ==> header[k] in Columns(header) && Columns(header)[header[k]] == k
  {
    HeaderDistinct();
    forall k | 0 <= k < 19
      ensures header[k] in Columns(header) && Columns(header)[header[k]] == k
    {
      ColumnAt(header, k);
    }
  }

  /** The saved header is an extended one with the text in column 1. */
  lemma HeaderIsExtended(header: Row)
    requires header == Header()
    ensures !IsLegacy(Some(header)) && TextColumn(Columns(header)) == 1
  {
    TextAtOne(header);
  }

  lemma TextAtOne(header: Row)
    requires header == Header()
    ensures TextColumn(Columns(header)) == 1
  {
    ColumnAt(header, 1);
  }

  /** Each saved cell is found under its own header name. */
  lemma SavedCells(header: Row, row: Row)
    requires header == Header() && |row| == 19
    ensures Get(row, Columns(header), "이미지파일명") == Some(row[2])
    ensures Get(row, Columns(header), "x1") == Some(row[3]) && Get(row, Columns(header), "y1") == Some(row[4])
    ensures Get(row, Columns(header), "x2") == Some(row[5]) && Get(row, Columns(header), "y2") == Some(row[6])
    ensures Get(row, Columns(header), "폰트크기") == Some(row[7]) && Get(row, Columns(header), "폰트") == Some(row[8])
    ensures Get(row, Columns(header), "색상B") == Some(row[9]) && Get(row, Columns(header), "색상G") == Some(row[10])
    ensures Get(row, Columns(header), "색상R") == Some(row[11]) && Get(row, Columns(header), "여백") == Some(row[12])
    ensures Get(row, Columns(header), "줄바꿈모드") == Some(row[13]) && Get(row, Columns(header), "줄간격") == Some(row[14])
    ensures Get(row, Columns(header), "볼드") == Some(row[15]) && Get(row, Columns(header), "정렬") == Some(row[16])
    ensures Get(row, Columns(header), "is_positioned") == Some(row[17]) && Get(row, Columns(header), "is_manual") == Some(row[18])
  {
    HeaderNames(header);
    HeaderColumns(header);
  }

  lemma HeaderNames(header: Row)
    requires header == Header()
    ensures header[2] == "이미지파일명" && header[3] == "x1" && header[4] == "y1"
    ensures header[5] == "x2" && header[6] == "y2" && header[7] == "폰트크기" && header[8] == "폰트"
    ensures header[9] == "색상B" && header[10] == "색상G" && header[11] == "색상R" && header[12] == "여백"
    ensures header[13] == "줄바꿈모드" && header[14] == "줄간격" && header[15] == "볼드" && header[16] == "정렬"
    ensures header[17] == "is_positioned" && header[18] == "is_manual"
  {
  }

  /** The region loaded from the row saved for `r`, under `header`. */
  function Reload(header: Row, i: nat, r: TextRegion, defaultSize: int, defaultFamily: string): Option<TextRegion>
  {
    LoadRow(IsLegacy(Some(header)), Columns(header), SaveRow(i, r), defaultSize, defaultFamily)
  }

  /** Saving a region and loading the row under the saved header gives back
      every field the row carries: the text, the image name (an empty one is
      none), a target box of positive size, the font, colour, margin, wrap
      mode, line spacing (as printed), weight, alignment and hand-made flag.
      A region counts as positioned after loading exactly when it has such a
      box. */
  lemma RowRoundTrip(header: Row, i: nat, r: TextRegion, defaultSize: int, defaultFamily: string)
    requires header == Header() && WeightConsistent(r) && r.fontFamily != ""
    ensures Reload(header, i, r, defaultSize, defaultFamily).Some?
    ensures var l := Reload(header, i, r, defaultSize, defaultFamily).value;
      l.text == r.text &&
      l.imageFilename == (if r.imageFilename == Some("") then None else r.imageFilename) &&
      l.targetBox == (if r.targetBox.Some? && r.targetBox.value.x1 < r.targetBox.value.x2
                        && r.targetBox.value.y1 < r.targetBox.value.y2 then r.targetBox else None) &&
      (l.isPositioned <==> l.targetBox.Some?)
    ensures var l := Reload(header, i, r, defaultSize, defaultFamily).value;
      l.fontSize == r.fontSize && l.fontFamily == r.fontFamily &&
      l.color == r.color && l.margin == r.margin
    ensures var l := Reload(header, i, r, defaultSize, defaultFamily).value;
      l.wrapMode == r.wrapMode && l.lineSpacing == Printed(r.lineSpacing) &&
      l.boldLevel == r.boldLevel && l.bold == r.bold &&
      l.textAlign == r.textAlign && l.isManual == r.isManual
  {
    var row := SaveRow(i, r);
    var col := Columns(header);
    HeaderIsExtended(header);
    SavedCells(header, row);
    assert Reload(header, i, r, defaultSize, defaultFamily)
        == Some(Extend(row, col, Base(r.text, defaultSize, defaultFamily)));
    IntCellRoundTrip(r.fontSize);
    IntCellRoundTrip(r.margin);
    ColorRoundTrip(r.color);
    TargetRoundTrip(r.targetBox);
    SpacingRoundTrip(r.lineSpacing);
    BoldRoundTrip(r.boldLevel);
    NamesRoundTrip(r.wrapMode, r.textAlign, r.isManual);
  }

  /** Wrap mode and alignment names read back as written; the hand-made flag
      reads back as written. */
  lemma NamesRoundTrip(m: WrapMode, a: Align, manual: bool)
    ensures WrapCell(Some(WrapName(m))) == m
    ensures forall d :: AlignCell(Some(AlignName(a)), d) == a
    ensures !Falsy(Some(Flag(manual))) <==> manual
  {
  }

  lemma IntCellRoundTrip(n: int)
    ensures forall d :: IntCell(Some(IntToString(n)), d) == n
  {
    ParseIntRoundTrip(n);
  }

  lemma ColorRoundTrip(c: Bgr)
    ensures ColorCells(Some(IntToString(c.b)), Some(IntToString(c.g)), Some(IntToString(c.r))) == c
  {
    ParseIntRoundTrip(c.b);
    ParseIntRoundTrip(c.g);
    ParseIntRoundTrip(c.r);
  }

  /** Four saved coordinates read back as the box when it has positive size;
      four empty cells read as no box. */
  lemma TargetRoundTrip(t: Option<Box>)
    ensures var cells := if t.Some? then [IntToString(t.value.x1), IntToString(t.value.y1),
                                            IntToString(t.value.x2), IntToString(t.value.y2)]
                         else ["", "", "", ""];
      TargetCells(Some(cells[0]), Some(cells[1]), Some(cells[2]), Some(cells[3]))
        == (if t.Some? && t.value.x1 < t.value.x2 && t.value.y1 < t.value.y2 then t else None)
  {
    if t.Some? {
      assert IntToString(t.value.x1) != "" && IntToString(t.value.y1) != "";
      ParseIntRoundTrip(t.value.x1);
      ParseIntRoundTrip(t.value.y1);
      ParseIntRoundTrip(t.value.x2);
      ParseIntRoundTrip(t.value.y2);
    }
  }

  lemma SpacingRoundTrip(d: Decimal)
    ensures SpacingCell(Some(DecimalToString(d))) == Printed(d)
  {
    ParseDecimalRoundTrip(d);
  }

  lemma BoldRoundTrip(level: int)
    requires 0 <= level <= 2
    ensures forall l :: BoldCell(Some(IntToString(level)), l) == level
  {
    assert IntToString(0) == "0" && IntToString(1) == "1" && IntToString(2) == "2";
  }

  /** A loaded region is positioned exactly when it has a target box, and it
      keeps the weight and stroke invariants of a new region. */
  lemma LoadedConsistent(legacy: bool, col: map<string, nat>, row: Row, defaultSize: int, defaultFamily: string)
    ensures var l := LoadRow(legacy, col, row, defaultSize, defaultFamily);
      l.Some? ==> (l.value.isPositioned <==> l.value.targetBox.Some?) &&
                  WeightConsistent(l.value) && StrokeConsistent(l.value) && l.value.visible
  {
  }

  /** Loading the rows saved for a region list, under the saved header,
      gives one region per saved region, in order, each the reload of its
      own row. */
  lemma LoadSaved(header: Row, regions: seq<TextRegion>, defaultSize: int, defaultFamily: string)
    requires header == Header()
    ensures var loaded := LoadAll(IsLegacy(Some(header)), Columns(header), SavedRows(regions, |regions|), defaultSize, defaultFamily);
      |loaded| == |regions| &&
      forall i :: 0 <= i < |regions| ==> Some(loaded[i]) == Reload(header, i, regions[i], defaultSize, defaultFamily)
  {
    HeaderIsExtended(header);
    var rows := SavedRows(regions, |regions|);
    var legacy := IsLegacy(Some(header));
    var col := Columns(header);
    CollectAll(rows, row => LoadRow(legacy, col, row, defaultSize, defaultFamily));
  }

  /** When `f` has a result for every element, collecting keeps one result
      per element, in order. */
  lemma {:induction false} CollectAll<A, B>(xs: seq<A>, f: A -> Option<B>)
    requires forall i :: 0 <= i < |xs| ==> f(xs[i]).Some?
    ensures |Collect(xs, f)| == |xs|
    ensures forall i :: 0 <= i < |xs| ==> Some(Collect(xs, f)[i]) == f(xs[i])
  {
    if xs != [] {
      var init := xs[..|xs| - 1];
      CollectAll(init, f);
      assert Collect(xs, f) == Collect(init, f) + [f(xs[|xs| - 1]).value];
    }
  }
}
