/** The editing state of the main window and of its target-image canvas, and
    the commands that change it: selecting, dragging and resizing a placed
    box with the mouse, nudging it with the arrow keys, dropping a text onto
    the image, the layer and stroke commands of the region dialog, resetting
    a position, merging table rows and loading or saving the CSV file.

    Regions are values in the owner's list; a command that edits a region
    replaces it at its index. The image path is kept as its base name, and
    an image as its `(height, width)`. */
module Editor {
  import opened Text
  import opened Region
  import opened Geometry
  import opened Edits
  import Csv

  /** The main window: the region list, the target image and its canvas. */
  class Tool {
    var regions: seq<TextRegion>
    /** `os.path.basename(jp_image_path)`, none without a target image. */
    var jpImageName: Option<string>
    var jpImage: Option<Size>
    var jpCanvas: Canvas?
    var defaultFontSize: int
    var defaultFontFamily: string

    /** A window with no regions, no target image and its target canvas. */
    constructor ()
      ensures regions == [] && jpImageName.None? && jpImage.None?
      ensures defaultFontSize == 18 && defaultFontFamily == "나눔고딕"
      ensures jpCanvas != null && fresh(jpCanvas) && jpCanvas.owner == this && jpCanvas.Idle()
    {
      regions := [];
      jpImageName := None;
      jpImage := None;
      defaultFontSize := 18;
      defaultFontFamily := "나눔고딕";
      new;
      jpCanvas := new Canvas(this);
    }

    /** `on_text_dropped`: a valid index gets the dropped box, is positioned,
        and is tied to the current target image when there is one. */
    method OnTextDropped(index: int, bbox: Box)
      modifies `regions
      ensures 0 <= index < |old(regions)| ==>
        var r := old(regions)[index];
        regions == old(regions)[index := r.(targetBox := Some(bbox), isPositioned := true,
                                            imageFilename := if jpImageName.Some? then jpImageName else r.imageFilename)]
      ensures !(0 <= index < |old(regions)|) ==> regions == old(regions)
    {
      if 0 <= index < |regions| {
        var r := regions[index];
        var name := if jpImageName.Some? then jpImageName else r.imageFilename;
        regions := regions[index := r.(targetBox := Some(bbox), isPositioned := true, imageFilename := name)];
      }
    }

    /** `move_selected_text_box`: the arrow keys move the canvas's selected
        box by `(dx, dy)` when it is placed on the current image, keeping its
        size and, with a target image, its top-left corner inside it. */
    method MoveSelectedTextBox(dx: int, dy: int)
      modifies `regions
      ensures var i := if jpCanvas == null then -1 else jpCanvas.selectedIndex;
        if jpCanvas != null && 0 <= i < |old(regions)| && jpImageName.Some? && OnImage(old(regions)[i], jpImageName.value)
        then regions == old(regions)[i := old(regions)[i].(targetBox := Some(Shifted(old(regions)[i].targetBox.value, dx, dy, jpImage)))]
        else regions == old(regions)
    {
      if jpCanvas == null {
        return;
      }
      var i := jpCanvas.selectedIndex;
      if i < 0 || i >= |regions| {
        return;
      }
      var r := regions[i];
      if !r.isPositioned || r.targetBox.None? {
        return;
      }
      if jpImageName.None? || r.imageFilename != jpImageName {
        return;
      }
      regions := regions[i := r.(targetBox := Some(Shifted(r.targetBox.value, dx, dy, jpImage)))];
    }

    /** `clear_text_selection`: nothing selected, no drag or resize under
        way. */
    method ClearTextSelection()
      modifies jpCanvas
      ensures jpCanvas != null ==> (
        jpCanvas.Idle() && jpCanvas.dragStart.None? &&
        jpCanvas.image == old(jpCanvas.image) && jpCanvas.resizeStart == old(jpCanvas.resizeStart) &&
        jpCanvas.currentFilename == old(jpCanvas.currentFilename) && jpCanvas.imgSize == old(jpCanvas.imgSize))
    {
      if jpCanvas != null {
        jpCanvas.Select(-1);
        jpCanvas.dragStart := None;
      }
    }

    /** `reset_text_position` once confirmed: the table's current row, when it
        is a positioned region, loses its box, its placement and its image,
        keeping its text; the canvas selection is cleared. Returns whether
        anything was reset. */
    method ResetTextPosition(row: int) returns (reset: bool)
      modifies `regions, jpCanvas
      ensures reset <==> 0 <= row < |old(regions)| && old(regions)[row].isPositioned
      ensures reset ==> regions == old(regions)[row := old(regions)[row].(targetBox := None, isPositioned := false, imageFilename := None)]
      ensures reset && jpCanvas != null ==> (
        jpCanvas.Idle() &&
        jpCanvas.image == old(jpCanvas.image) && jpCanvas.dragStart == old(jpCanvas.dragStart) &&
        jpCanvas.resizeStart == old(jpCanvas.resizeStart) &&
        jpCanvas.currentFilename == old(jpCanvas.currentFilename) && jpCanvas.imgSize == old(jpCanvas.imgSize))
      ensures !reset ==> regions == old(regions) && (jpCanvas != null ==> unchanged(jpCanvas))
    {
      if row < 0 || row >= |regions| || !regions[row].isPositioned {
        return false;
      }
      regions := regions[row := regions[row].(targetBox := None, isPositioned := false, imageFilename := None)];
      if jpCanvas != null {
        jpCanvas.Select(-1);
      }
      return true;
    }

    /** `merge_selected_lines` on the rows of the selected table items: with
        at least two distinct rows and some non-blank text among them, the
        lowest row takes the '\n'-join of the stripped non-blank texts and
        the other selected rows are deleted, and the canvas selects the
        merged row. Returns whether the rows were merged. */
    method MergeSelectedLines(selected: seq<nat>) returns (merged: bool)
      modifies `regions, jpCanvas
      ensures merged <==> (
        |Selection(selected)| >= 2 && MergedLines(old(regions), Selection(selected), |old(regions)|) != [])
      ensures merged ==> (
        Lowest(selected) < |old(regions)| && regions == Merged(old(regions), Selection(selected), Lowest(selected)))
      ensures merged && jpCanvas != null ==> (
        jpCanvas.Idle(Lowest(selected)) &&
        jpCanvas.image == old(jpCanvas.image) && jpCanvas.dragStart == old(jpCanvas.dragStart) &&
        jpCanvas.resizeStart == old(jpCanvas.resizeStart) &&
        jpCanvas.currentFilename == old(jpCanvas.currentFilename) && jpCanvas.imgSize == old(jpCanvas.imgSize))
      ensures !merged ==> regions == old(regions) && (jpCanvas != null ==> unchanged(jpCanvas))
    {
      var rows := Selection(selected);
      if |rows| < 2 {
        return false;
      }
      var first := Lowest(selected);
      var lines := CollectLines(regions, rows);
      if lines == [] {
        return false;
      }
      MergedRowExists(regions, rows, selected);
      var old0 := regions;
      var s := regions[first := regions[first].(text := Join(lines, "\n"))];
      regions := DeleteRows(s, Doomed(rows, first), first);
      MergeShape(old0, rows, first);
      var at := if first < |regions| then first else -1;
      if jpCanvas != null {
        jpCanvas.Select(at);
      }
      return true;
    }

    /** `load_csv` on the header and data rows of a file: the list is cleared
        and refilled with one region per row that has its text column. */
    method LoadCsv(header: Option<Csv.Row>, rows: seq<Csv.Row>)
      modifies `regions
      ensures regions == Csv.LoadAll(Csv.IsLegacy(header), Columns(header), rows, defaultFontSize, defaultFontFamily)
    {
      regions := [];
      var legacy := Csv.IsLegacy(header);
      var col := Columns(header);
      for k := 0 to |rows|
        invariant regions == Csv.LoadAll(legacy, col, rows[..k], defaultFontSize, defaultFontFamily)
      {
        var r := Csv.LoadRow(legacy, col, rows[k], defaultFontSize, defaultFontFamily);
        assert rows[..k + 1][..k] == rows[..k];
        if r.Some? {
          regions := regions + [r.value];
        }
      }
      assert rows[..|rows|] == rows;
    }

    /** `save_csv`: nothing without regions, otherwise the header and one row
        per region, in list order. */
    method SaveCsv() returns (file: Option<seq<Csv.Row>>)
      ensures regions == [] <==> file.None?
      ensures file.Some? ==> |file.value| == |regions| + 1 && file.value[0] == Csv.Header()
      ensures file.Some? ==> file.value[1..] == Csv.SavedRows(regions, |regions|)
    {
      if regions == [] {
        return None;
      }
      var out := [Csv.Header()];
      for i := 0 to |regions|
        invariant |out| == i + 1 && out[0] == Csv.Header()
        invariant out[1..] == Csv.SavedRows(regions, i)
      {
        Csv.SavedRowsStep(regions, i);
        out := out + [Csv.SaveRow(i, regions[i])];
      }
      return Some(out);
    }
  }

  /** The merge's collecting loop: the stripped non-blank texts of the
      selected rows, in ascending row order, rows past the end skipped. */
  method CollectLines(regions: seq<TextRegion>, rows: set<nat>) returns (lines: seq<string>)
    ensures lines == MergedLines(regions, rows, |regions|)
  {
    lines := [];
    for k := 0 to |regions|
      invariant lines == MergedLines(regions, rows, k)
    {
      var line := Strip(regions[k].text);
      MergedLinesStep(regions, rows, k);
      if k in rows && line != "" {
        lines := lines + [line];
      }
    }
  }

  /** The merge's deleting loop: the rows above `first` in `doomed` deleted
      from the highest down, so each deletion leaves the lower indices
      valid. */
  method DeleteRows(s: seq<TextRegion>, doomed: set<nat>, first: nat) returns (t: seq<TextRegion>)
    requires first < |s|
    requires forall k :: k in doomed ==> k > first
    ensures t == Kept(s, doomed, 0)
  {
    t := s;
    for j := |s| downto first + 1
      invariant t == s[..j] + Kept(s, doomed, j)
    {
      if j in doomed {
        DropOne(s, doomed, j, t);
        t := t[..j] + t[j + 1..];
      } else {
        KeepOne(s, doomed, j, t);
      }
    }
    KeptFrom(s, doomed, first);
  }

  /** The header-name-to-column map, empty without a header. */
  function Columns(header: Option<Csv.Row>): map<string, nat>
  {
    if header.Some? then Csv.Columns(header.value) else map[]
  }

  /** The target-image canvas: its image, its selection and the state of a
      drag or resize in progress, with the cached image name and size. */
  class Canvas {
    const owner: Tool
    var image: Option<Size>
    var selectedIndex: int
    var resizing: bool
    var moving: bool
    var resizeHandle: Option<Handle>
    /** `drag_start_pos` and `drag_start_bbox`. */
    var dragStart: Option<(Pos, Box)>
    /** `resize_start_pos` and `resize_start_bbox`. */
    var resizeStart: Option<(Pos, Box)>
    /** `_current_filename`. */
    var currentFilename: Option<string>
    /** `_img_size`. */
    var imgSize: Option<Size>

    /** No selection and no drag or resize under way. */
    predicate Idle(selection: int := -1)
      reads this
    {
      selectedIndex == selection && !resizing && !moving && resizeHandle.None?
    }

    constructor (owner: Tool)
      ensures this.owner == owner && image.None? && Idle()
      ensures dragStart.None? && resizeStart.None? && currentFilename.None? && imgSize.None?
    {
      this.owner := owner;
      image := None;
      selectedIndex := -1;
      resizing := false;
      moving := false;
      resizeHandle := None;
      dragStart := None;
      resizeStart := None;
      currentFilename := None;
      imgSize := None;
    }

    /** Selects `selection` (-1 for none) and ends any drag or resize mode. */
    method Select(selection: int)
      modifies `selectedIndex, `resizing, `moving, `resizeHandle
      ensures Idle(selection)
    {
      selectedIndex := selection;
      resizing := false;
      moving := false;
      resizeHandle := None;
    }

    /** `load_image`: the new image, with the cached size and name dropped. */
    method LoadImage(size: Size)
      modifies `image, `imgSize, `currentFilename
      ensures image == Some(size) && imgSize.None? && currentFilename.None?
    {
      image := Some(size);
      imgSize := None;
      currentFilename := None;
    }

    /** The left-button part of `mousePressEvent`: a click on a box selects
        the topmost box there and starts a resize on a handle or a move
        elsewhere; a click elsewhere changes nothing. */
    method MousePress(p: Option<Pos>)
      modifies `selectedIndex, `resizing, `moving, `resizeHandle
      ensures var hit := if image.Some? && p.Some? then TextAt(owner.regions, owner.jpImageName, p.value) else -1;
        if hit >= 0 then
          var h := ResizeHandle(owner.regions, hit, owner.jpImageName, p.value);
          selectedIndex == hit && resizeHandle == (if h.Some? then h else old(resizeHandle)) &&
          resizing == (h.Some? || old(resizing)) && moving == (h.None? || old(moving))
        else selectedIndex == old(selectedIndex) && resizing == old(resizing) &&
             moving == old(moving) && resizeHandle == old(resizeHandle)
    {
      if image.None? || p.None? {
        return;
      }
      var hit := TextAt(owner.regions, owner.jpImageName, p.value);
      if hit >= 0 {
        selectedIndex := hit;
        var h := ResizeHandle(owner.regions, hit, owner.jpImageName, p.value);
        if h.Some? {
          resizing := true;
          resizeHandle := h;
        } else {
          moving := true;
        }
      }
    }

    /** `mouseReleaseEvent`: with an image and a selection, the drag or
        resize ends and its start is forgotten; the selection stays. */
    method MouseRelease()
      modifies `resizing, `moving, `resizeHandle, `dragStart, `resizeStart
      ensures if image.Some? && selectedIndex >= 0
        then !resizing && !moving && resizeHandle.None? && dragStart.None? && resizeStart.None?
        else resizing == old(resizing) && moving == old(moving) && resizeHandle == old(resizeHandle) &&
             dragStart == old(dragStart) && resizeStart == old(resizeStart)
    {
      if image.None? || selectedIndex < 0 {
        return;
      }
      resizing := false;
      moving := false;
      resizeHandle := None;
      dragStart := None;
      resizeStart := None;
    }

    /** The part of the canvas and owner state a `g` step reads and
        writes. */
    function Session(g: Gesture): Pointer
      reads this, owner
    {
      Pointer(owner.regions, currentFilename, if g == Move then dragStart else resizeStart, imgSize)
    }

    /** `move_text_box`: one step of dragging the selected box (see
        `Step`). */
    method MoveTextBox(p: Pos)
      modifies `currentFilename, `dragStart, `imgSize, owner`regions
      ensures Session(Move) == Step(old(Session(Move)), Move, resizeHandle, owner.jpImageName, selectedIndex, image, p)
    {
      var next := Step(Session(Move), Move, resizeHandle, owner.jpImageName, selectedIndex, image, p);
      owner.regions := next.regions;
      currentFilename := next.name;
      dragStart := next.start;
      imgSize := next.imgSize;
    }

    /** `resize_text_box`: one step of resizing the selected box at the
        active handle (see `Step`). */
    method ResizeTextBox(p: Pos)
      modifies `currentFilename, `resizeStart, `imgSize, owner`regions
      ensures Session(Resize) == Step(old(Session(Resize)), Resize, resizeHandle, owner.jpImageName, selectedIndex, image, p)
    {
      var next := Step(Session(Resize), Resize, resizeHandle, owner.jpImageName, selectedIndex, image, p);
      owner.regions := next.regions;
      currentFilename := next.name;
      resizeStart := next.start;
      imgSize := next.imgSize;
    }

    /** `dropEvent`: a `text_index:N` payload dropped on a point of the image
        places text `N` in the drop box there. Returns whether the drop was
        accepted. */
    method Drop(data: string, p: Option<Pos>) returns (accepted: bool)
      modifies owner`regions
      ensures accepted <==> DropIndex(data).Some? && p.Some?
      ensures accepted ==>
        var i := DropIndex(data).value;
        (0 <= i < |old(owner.regions)| ==>
           var r := old(owner.regions)[i];
           owner.regions == old(owner.regions)[i := r.(targetBox := Some(DropBox(p.value, image)), isPositioned := true,
             imageFilename := if owner.jpImageName.Some? then owner.jpImageName else r.imageFilename)]) &&
        (!(0 <= i < |old(owner.regions)|) ==> owner.regions == old(owner.regions))
      ensures !accepted ==> owner.regions == old(owner.regions)
    {
      var index := DropIndex(data);
      if index.None? || p.None? {
        return false;
      }
      owner.OnTextDropped(index.value, DropBox(p.value, image));
      return true;
    }

    /** `move_to_front` of the region dialog for the region at `i`: it is
        drawn last, on top of the others. Returns whether it moved. */
    method MoveToFront(i: int) returns (moved: bool)
      modifies owner`regions
      ensures moved <==> 0 <= i < |old(owner.regions)|
      ensures moved ==> owner.regions == MovedToFront(old(owner.regions), i)
      ensures !moved ==> owner.regions == old(owner.regions)
    {
      if i < 0 || i >= |owner.regions| {
        return false;
      }
      var r := owner.regions[i];
      owner.regions := owner.regions[..i] + owner.regions[i + 1..];
      owner.regions := owner.regions + [r];
      return true;
    }

    /** `move_to_back` of the region dialog for the region at `i`: it is
        drawn first, under the others. Returns whether it moved. */
    method MoveToBack(i: int) returns (moved: bool)
      modifies owner`regions
      ensures moved <==> 0 <= i < |old(owner.regions)|
      ensures moved ==> owner.regions == MovedToBack(old(owner.regions), i)
      ensures !moved ==> owner.regions == old(owner.regions)
    {
      if i < 0 || i >= |owner.regions| {
        return false;
      }
      var r := owner.regions[i];
      owner.regions := owner.regions[..i] + owner.regions[i + 1..];
      owner.regions := [r] + owner.regions;
      return true;
    }

    /** `choose_stroke_color` in the dialog for the region at `i`; `None` is
        a cancelled colour dialog. */
    method ChooseStrokeColor(i: nat, c: Option<Rgb>)
      requires i < |owner.regions|
      modifies owner`regions
      ensures owner.regions == if c.Some? then old(owner.regions)[i := StrokeColorChosen(old(owner.regions)[i], c.value)] else old(owner.regions)
      ensures StrokeConsistent(old(owner.regions)[i]) ==> StrokeConsistent(owner.regions[i])
    {
      if c.Some? {
        var r := owner.regions[i];
        r := r.(strokeColor := Some(c.value));
        if r.strokeWidth == 0 {
          r := r.(strokeWidth := 1);
        }
        owner.regions := owner.regions[i := r];
      }
    }

    /** `on_stroke_width_changed` in the dialog for the region at `i`, with
        a spin-box value. */
    method OnStrokeWidthChanged(i: nat, v: int)
      requires i < |owner.regions|
      modifies owner`regions
      ensures owner.regions == old(owner.regions)[i := StrokeWidthChanged(old(owner.regions)[i], v)]
      ensures v >= 0 ==> StrokeConsistent(owner.regions[i])
    {
      var r := owner.regions[i].(strokeWidth := v);
      if v == 0 {
        r := r.(strokeColor := None);
      } else if r.strokeColor.None? {
        r := r.(strokeColor := Some(Rgb(0, 0, 0)));
      }
      owner.regions := owner.regions[i := r];
    }

    /** The stroke part of accepting the dialog for the region at `i`, with
        the spin box's value. */
    method ApplyStroke(i: nat, spin: int)
      requires i < |owner.regions|
      modifies owner`regions
      ensures owner.regions == old(owner.regions)[i := StrokeApplied(old(owner.regions)[i], spin)]
      ensures spin >= 0 ==> StrokeConsistent(owner.regions[i])
    {
      var r := owner.regions[i];
      if r.strokeWidth != spin {
        r := r.(strokeWidth := spin);
      }
      if r.strokeWidth == 0 {
        r := r.(strokeColor := None);
      } else if r.strokeColor.None? && r.strokeWidth > 0 {
        r := r.(strokeColor := Some(Rgb(0, 0, 0)));
      }
      owner.regions := owner.regions[i := r];
    }
  }

  // Dragging and resizing

  datatype Gesture = Move | Resize

  /** What a drag or resize step reads and writes: the region list, the
      cached image name, the recorded start (pointer and box) of the gesture
      and the cached image size. */
  datatype Pointer = Pointer(regions: seq<TextRegion>, name: Option<string>, start: Option<(Pos, Box)>, imgSize: Option<Size>)

  /** One call of `move_text_box` (`Move`) or `resize_text_box` (`Resize`)
      with the pointer at `p`. The selected region must be placed, and on
      the image named by the cache, which the first call fills from the
      owner's current image name. The first call on it records the pointer
      and its box; a later call with the pointer displaced sets its box to
      the recorded box dragged or resized by the displacement, filling the
      size cache from the canvas image. */
  function Step(s: Pointer, g: Gesture, handle: Option<Handle>, current: Option<string>, selected: int,
                image: Option<Size>, p: Pos): Pointer
  {
    if selected < 0 || selected >= |s.regions| then s
    else
      var r := s.regions[selected];
      if !r.isPositioned || r.targetBox.None? then s
      else
        var name := if s.name.Some? then s.name else current;
        if name.None? then s
        else if r.imageFilename != name then s.(name := name)
        else if s.start.None? then s.(name := name, start := Some((p, r.targetBox.value)))
        else
          var (origin, box) := s.start.value;
          var dx := p.x - origin.x;
          var dy := p.y - origin.y;
          if dx == 0 && dy == 0 then s.(name := name)
          else
            var next := GestureBox(g, box, r.targetBox.value, handle, dx, dy, image, s.imgSize);
            Pointer(s.regions[selected := r.(targetBox := Some(next))], name, s.start,
                    if image.Some? && s.imgSize.None? then image else s.imgSize)
  }

  /** A step changes only the selected region's box, and only once the
      start is recorded and the region is on the cached image, keeping it
      inside the image; the cached name and start, once set, stay. */
  lemma StepKeeps(s: Pointer, g: Gesture, handle: Option<Handle>, current: Option<string>, selected: int,
                  image: Option<Size>, p: Pos)
    ensures var t := Step(s, g, handle, current, selected, image, p);
      |t.regions| == |s.regions| &&
      (forall j :: 0 <= j < |s.regions| && j != selected ==> t.regions[j] == s.regions[j]) &&
      (0 <= selected < |s.regions| ==> t.regions[selected] == s.regions[selected].(targetBox := t.regions[selected].targetBox))
    ensures var t := Step(s, g, handle, current, selected, image, p);
      (s.name.Some? ==> t.name == s.name) && (s.start.Some? ==> t.start == s.start) &&
      (t.imgSize == s.imgSize || (s.imgSize.None? && t.imgSize == image))
    ensures var t := Step(s, g, handle, current, selected, image, p);
      t.regions != s.regions ==> (
        s.start.Some? && 0 <= selected < |s.regions| && t.regions[selected].targetBox.Some? &&
        t.name.Some? && OnImage(s.regions[selected], t.name.value))
    ensures var t := Step(s, g, handle, current, selected, image, p);
      t.regions != s.regions && image.Some? ==> (
        var b := t.regions[selected].targetBox.value;
        0 <= b.x1 < b.x2 && 0 <= b.y1 < b.y2 &&
        (image.value.w >= 2 ==> b.x2 <= image.value.w - 1) && (image.value.h >= 2 ==> b.y2 <= image.value.h - 1))
  {
  }

  /** The box a drag or resize by `(dx, dy)` gives the box `start` it began
      with (`current` is the box now); on an image it stays inside it. */
  function GestureBox(g: Gesture, start: Box, current: Box, handle: Option<Handle>, dx: int, dy: int,
                      image: Option<Size>, cached: Option<Size>): (b: Box)
    ensures image.Some? ==> (
      0 <= b.x1 < b.x2 && 0 <= b.y1 < b.y2 &&
      (image.value.w >= 2 ==> b.x2 <= image.value.w - 1) && (image.value.h >= 2 ==> b.y2 <= image.value.h - 1))
  {
    match g
    case Move => Dragged(start, dx, dy, image, cached)
    case Resize => ResizeResult(start, current, handle, dx, dy, image, cached)
  }

  /** A press records the start; a second call with the pointer moved by
      `(dx, dy)` on an image the box stays clear of the edges of drags the
      box by exactly that much. */
  lemma DragFollowsPointer(s: Pointer, current: Option<string>, selected: int, size: Size, p: Pos, q: Pos)
    requires 0 <= selected < |s.regions| && s.start.None? && s.imgSize.None?
    requires var name := if s.name.Some? then s.name else current;
      name.Some? && OnImage(s.regions[selected], name.value)
    requires var b := s.regions[selected].targetBox.value;
      b.x1 < b.x2 && b.y1 < b.y2 && (q.x != p.x || q.y != p.y) &&
      0 <= b.x1 + (q.x - p.x) && b.x2 + (q.x - p.x) <= size.w - 1 &&
      0 <= b.y1 + (q.y - p.y) && b.y2 + (q.y - p.y) <= size.h - 1
    ensures var b := s.regions[selected].targetBox.value;
      var t := Step(Step(s, Move, None, current, selected, Some(size), p), Move, None, current, selected, Some(size), q);
      t.regions[selected].targetBox == Some(Box(b.x1 + (q.x - p.x), b.y1 + (q.y - p.y), b.x2 + (q.x - p.x), b.y2 + (q.y - p.y)))
  {
    var b := s.regions[selected].targetBox.value;
    var name := if s.name.Some? then s.name else current;
    var t1 := Step(s, Move, None, current, selected, Some(size), p);
    assert t1 == s.(name := name, start := Some((p, b)));
    StepFromStart(t1, current, selected, size, q);
    DragFollows(b, q.x - p.x, q.y - p.y, size, None);
  }

  /** A step with a recorded start and a displaced pointer sets the
      selected box to the gesture's box. */
  lemma StepFromStart(t: Pointer, current: Option<string>, selected: int, size: Size, q: Pos)
    requires 0 <= selected < |t.regions| && t.start.Some? && t.name.Some?
    requires OnImage(t.regions[selected], t.name.value)
    requires q != t.start.value.0
    ensures var (origin, b) := t.start.value;
      Step(t, Move, None, current, selected, Some(size), q).regions[selected].targetBox ==
      Some(GestureBox(Move, b, t.regions[selected].targetBox.value, None, q.x - origin.x, q.y - origin.y, Some(size), t.imgSize))
  {
  }

  // Lemmas behind `MergeSelectedLines`

  /** Some selected row below the end holds non-blank text, so the lowest
      selected row is inside the list. */
  lemma MergedRowExists(regions: seq<TextRegion>, rows: set<nat>, selected: seq<nat>)
    requires selected != [] && rows == Selection(selected)
    requires MergedLines(regions, rows, |regions|) != []
    ensures Lowest(selected) < |regions|
  {
    var k :| 0 <= k < |regions| && k in rows && !IsBlank(regions[k].text);
    assert k in selected;
  }

  /** One more row of the collecting loop: a selected row's stripped text
      joins the lines unless it is empty. */
  lemma MergedLinesStep(regions: seq<TextRegion>, rows: set<nat>, k: nat)
    requires k < |regions|
    ensures var line := Strip(regions[k].text);
      MergedLines(regions, rows, k + 1) ==
      MergedLines(regions, rows, k) + (if k in rows && line != "" then [line] else [])
  {
  }

  /** Deleting index `j` of the partly deleted list extends what is kept. */
  lemma DropOne<T(!new)>(s: seq<T>, deleted: set<nat>, j: nat, cur: seq<T>)
    requires j < |s| && j in deleted
    requires cur == s[..j + 1] + Kept(s, deleted, j + 1)
    ensures cur[..j] + cur[j + 1..] == s[..j] + Kept(s, deleted, j)
  {
    assert cur[..j] == s[..j];
    assert cur[j + 1..] == Kept(s, deleted, j + 1);
  }

  /** Keeping index `j` of the partly deleted list extends what is kept. */
  lemma KeepOne<T(!new)>(s: seq<T>, deleted: set<nat>, j: nat, cur: seq<T>)
    requires j < |s| && j !in deleted
    requires cur == s[..j + 1] + Kept(s, deleted, j + 1)
    ensures cur == s[..j] + Kept(s, deleted, j)
  {
    assert s[..j + 1] == s[..j] + [s[j]];
  }

  /** Nothing at or below `first` is deleted, so the kept list from `first +
      1` after the untouched prefix is the kept list from 0. */
  lemma {:induction false} KeptFrom<T(!new)>(s: seq<T>, deleted: set<nat>, first: nat)
    requires first < |s|
    requires forall k :: k in deleted ==> k > first
    ensures s[..first + 1] + Kept(s, deleted, first + 1) == Kept(s, deleted, 0)
  {
    KeptUntouched(s, deleted, 0, first + 1);
  }

  /** Indices from `lo` up to `hi` are all kept. */
  lemma {:induction false} KeptUntouched<T(!new)>(s: seq<T>, deleted: set<nat>, lo: nat, hi: nat)
    requires lo <= hi <= |s|
    requires forall k :: k in deleted ==> k >= hi
    ensures s[lo..hi] + Kept(s, deleted, hi) == Kept(s, deleted, lo)
    decreases hi - lo
  {
    if lo < hi {
      KeptUntouched(s, deleted, lo + 1, hi);
      assert lo !in deleted;
      var rest := Kept(s, deleted, hi);
      calc {
        s[lo..hi] + rest;
        { assert s[lo..hi] == [s[lo]] + s[lo + 1..hi]; }
        ([s[lo]] + s[lo + 1..hi]) + rest;
        [s[lo]] + (s[lo + 1..hi] + rest);
        [s[lo]] + Kept(s, deleted, lo + 1);
        Kept(s, deleted, lo);
      }
    }
  }
}
