/** The box arithmetic behind editing on the target canvas: hit-testing a
    click against the placed boxes, the resize handles, dragging, resizing,
    nudging with the arrow keys and the box a dropped text gets. Image sizes
    are `(height, width)` as `image.shape[:2]` gives them. */
module Geometry {
  import opened Text
  import opened Region
  import opened Numerals

  /** A point in image pixels. */
  datatype Pos = Pos(x: int, y: int)

  /** `image.shape[:2]`. */
  datatype Size = Size(h: int, w: int)

  /** The four resize handles, `"se"`, `"ne"`, `"sw"` and `"nw"`. */
  datatype Handle = SE | NE | SW | NW

  /** The box contains the point, edges included. */
  predicate Contains(b: Box, p: Pos)
  {
    b.x1 <= p.x <= b.x2 && b.y1 <= p.y <= b.y2
  }

  /** A region drawn on the current target image: it belongs to that file,
      is positioned and has a target box. */
  predicate OnImage(r: TextRegion, current: string)
  {
    r.imageFilename == Some(current) && r.isPositioned && r.targetBox.Some?
  }

  /** A click at `p` on the current image lands on `r`. */
  predicate Hits(r: TextRegion, current: string, p: Pos)
  {
    OnImage(r, current) && Contains(r.targetBox.value, p)
  }

  /** The topmost of the first `n` regions that the click lands on, or -1. */
  function TopHit(regions: seq<TextRegion>, current: string, p: Pos, n: nat): (i: int)
    requires n <= |regions|
    ensures -1 <= i < n
    ensures i >= 0 ==> Hits(regions[i], current, p)
    ensures forall j :: i < j < n ==> !Hits(regions[j], current, p)
  {
    if n == 0 then -1
    else if Hits(regions[n - 1], current, p) then n - 1
    else TopHit(regions, current, p, n - 1)
  }

  /** `get_text_at_position`: -1 without a current image, otherwise the
      highest index whose region the click lands on, the last-drawn layer
      being on top. */
  function TextAt(regions: seq<TextRegion>, current: Option<string>, p: Pos): (i: int)
    ensures -1 <= i < |regions|
    ensures current.None? ==> i == -1
    ensures current.Some? ==>
      (i == -1 <==> forall j :: 0 <= j < |regions| ==> !Hits(regions[j], current.value, p))
    ensures i >= 0 ==> current.Some? && Hits(regions[i], current.value, p)
    ensures i >= 0 && current.Some? ==> forall j :: i < j < |regions| ==> !Hits(regions[j], current.value, p)
  {
    if current.None? then -1 else TopHit(regions, current.value, p, |regions|)
  }

  /** The corner zone of one handle: 20 pixels (a 15-pixel handle and a
      5-pixel margin) inward from that corner. */
  function Zone(b: Box, h: Handle): Box
  {
    match h
    case SE => Box(b.x2 - 20, b.y2 - 20, b.x2, b.y2)
    case NE => Box(b.x2 - 20, b.y1, b.x2, b.y1 + 20)
    case SW => Box(b.x1, b.y2 - 20, b.x1 + 20, b.y2)
    case NW => Box(b.x1, b.y1, b.x1 + 20, b.y1 + 20)
  }

  /** The order in which the handles are tried. */
  function Priority(): seq<Handle>
  {
    [SE, NE, SW, NW]
  }

  /** The handle under the point, trying south-east, north-east, south-west
      and north-west in turn. */
  function HandleAt(b: Box, p: Pos): (h: Option<Handle>)
  {
    if Contains(Box(b.x2 - 20, b.y2 - 20, b.x2, b.y2), p) then Some(SE)
    else if Contains(Box(b.x2 - 20, b.y1, b.x2, b.y1 + 20), p) then Some(NE)
    else if Contains(Box(b.x1, b.y2 - 20, b.x1 + 20, b.y2), p) then Some(SW)
    else if Contains(Box(b.x1, b.y1, b.x1 + 20, b.y1 + 20), p) then Some(NW)
    else None
  }

  /** `get_resize_handle`: a handle only for a valid index whose region is
      positioned, has a target box and belongs to the current image. */
  function ResizeHandle(regions: seq<TextRegion>, index: int, current: Option<string>, p: Pos): (h: Option<Handle>)
    ensures h.Some? ==> 0 <= index < |regions| && current.Some? && OnImage(regions[index], current.value)
  {
    if index < 0 || index >= |regions| then None
    else
      var r := regions[index];
      if !r.isPositioned || r.targetBox.None? then None
      else if current.None? || r.imageFilename != Some(current.value) then None
      else HandleAt(r.targetBox.value, p)
  }

  /** Translation by `(dx, dy)` keeping the size; with an image, the top-left
      corner is held inside `[0, w - width] x [0, h - height]`, pinned at 0
      when the box is wider or taller than the image. */
  function Shifted(b: Box, dx: int, dy: int, size: Option<Size>): (c: Box)
    ensures c.x2 - c.x1 == b.x2 - b.x1 && c.y2 - c.y1 == b.y2 - b.y1
    ensures size.None? ==> c == Box(b.x1 + dx, b.y1 + dy, b.x2 + dx, b.y2 + dy)
    ensures size.Some? ==> 0 <= c.x1 <= Max(0, size.value.w - (b.x2 - b.x1)) &&
                           0 <= c.y1 <= Max(0, size.value.h - (b.y2 - b.y1))
    ensures size.Some? && b.x2 - b.x1 <= size.value.w ==> c.x2 <= size.value.w
    ensures size.Some? && b.y2 - b.y1 <= size.value.h ==> c.y2 <= size.value.h
  {
    var width := b.x2 - b.x1;
    var height := b.y2 - b.y1;
    var x1 := if size.Some? then Max(0, Min(b.x1 + dx, size.value.w - width)) else b.x1 + dx;
    var y1 := if size.Some? then Max(0, Min(b.y1 + dy, size.value.h - height)) else b.y1 + dy;
    Box(x1, y1, x1 + width, y1 + height)
  }

  /** The safe clamp after a drag or resize: the top-left corner inside
      `[0, w - 2] x [0, h - 2]` (0 on a narrower image), each side at least
      one pixel, the bottom-right at most at `w - 1`, `h - 1` on an image at
      least 2 pixels each way; a box already inside is left alone. */
  function SafeClamp(b: Box, size: Size): (c: Box)
    ensures 0 <= c.x1 <= Max(0, size.w - 2) && 0 <= c.y1 <= Max(0, size.h - 2)
    ensures c.x2 >= c.x1 + 1 && c.y2 >= c.y1 + 1
    ensures size.w >= 2 ==> c.x2 <= size.w - 1
    ensures size.h >= 2 ==> c.y2 <= size.h - 1
    ensures (0 <= b.x1 <= size.w - 2 && b.x1 < b.x2 <= size.w - 1 &&
             0 <= b.y1 <= size.h - 2 && b.y1 < b.y2 <= size.h - 1) ==> c == b
  {
    var x1 := Max(0, Min(b.x1, size.w - 2));
    var y1 := Max(0, Min(b.y1, size.h - 2));
    Box(x1, y1, Max(x1 + 1, Min(b.x2, size.w - 1)), Max(y1 + 1, Min(b.y2, size.h - 1)))
  }

  /** The size a drag or resize bounds the box by: the cached `_img_size`
      when the canvas has an image (the cache is filled from the image on
      first use), none without an image. */
  function Bounds(image: Option<Size>, cached: Option<Size>): (s: Option<Size>)
    ensures s.Some? <==> image.Some?
    ensures image.Some? && cached.None? ==> s == image
  {
    if image.None? then None else if cached.Some? then cached else image
  }

  /** `move_text_box` after the first call: the start box shifted by the drag
      distance, clamped to the bounds, then safely clamped to the canvas
      image. Without an image the box follows the pointer unclamped; with
      one it ends inside the image. */
  function Dragged(start: Box, dx: int, dy: int, image: Option<Size>, cached: Option<Size>): (c: Box)
    ensures image.None? ==> c == Box(start.x1 + dx, start.y1 + dy, start.x2 + dx, start.y2 + dy)
    ensures image.Some? ==> 0 <= c.x1 < c.x2 && 0 <= c.y1 < c.y2
    ensures image.Some? && image.value.w >= 2 ==> c.x2 <= image.value.w - 1
    ensures image.Some? && image.value.h >= 2 ==> c.y2 <= image.value.h - 1
  {
    var b := Shifted(start, dx, dy, Bounds(image, cached));
    if image.Some? then SafeClamp(b, image.value) else b
  }

  /** The smallest box side a resize leaves. */
  const MinSide := 30

  /** `resize_text_box` before the safe clamp: the dragged corner follows the
      pointer, the opposite corner stays, the sides it moves end at least 30
      pixels from the fixed ones (for the top and left edges, when the fixed
      edge is at least 30 from the origin), and the moved right and bottom
      edges stay within the bounds whenever those leave room for 30 pixels;
      without a handle nothing moves. */
  function Resized(b: Box, handle: Option<Handle>, dx: int, dy: int, width: int, height: int): (c: Box)
    ensures handle == Some(SE) ==> (
      c.x1 == b.x1 && c.y1 == b.y1 && c.x2 >= b.x1 + MinSide && c.y2 >= b.y1 + MinSide &&
      (b.x1 + MinSide <= width ==> c.x2 <= width) && (b.y1 + MinSide <= height ==> c.y2 <= height))
    ensures handle == Some(NE) ==> (
      c.x1 == b.x1 && c.y2 == b.y2 && c.x2 >= b.x1 + MinSide && c.y1 >= 0 &&
      (b.y2 >= MinSide ==> c.y1 <= b.y2 - MinSide) && (b.x1 + MinSide <= width ==> c.x2 <= width))
    ensures handle == Some(SW) ==> (
      c.x2 == b.x2 && c.y1 == b.y1 && c.y2 >= b.y1 + MinSide && c.x1 >= 0 &&
      (b.x2 >= MinSide ==> c.x1 <= b.x2 - MinSide) && (b.y1 + MinSide <= height ==> c.y2 <= height))
    ensures handle == Some(NW) ==> (
      c.x2 == b.x2 && c.y2 == b.y2 && c.x1 >= 0 && c.y1 >= 0 &&
      (b.x2 >= MinSide ==> c.x1 <= b.x2 - MinSide) && (b.y2 >= MinSide ==> c.y1 <= b.y2 - MinSide))
    ensures handle.None? ==> c == b
  {
    match handle
    case Some(SE) =>
      Box(b.x1, b.y1,
          Max(b.x1 + MinSide, Min(Max(b.x1 + MinSide, b.x2 + dx), width)),
          Max(b.y1 + MinSide, Min(Max(b.y1 + MinSide, b.y2 + dy), height)))
    case Some(NE) =>
      Box(b.x1, Max(0, Min(Min(b.y2 - MinSide, b.y1 + dy), b.y2 - MinSide)),
          Max(b.x1 + MinSide, Min(Max(b.x1 + MinSide, b.x2 + dx), width)), b.y2)
    case Some(SW) =>
      Box(Max(0, Min(Min(b.x2 - MinSide, b.x1 + dx), b.x2 - MinSide)), b.y1,
          b.x2, Max(b.y1 + MinSide, Min(Max(b.y1 + MinSide, b.y2 + dy), height)))
    case Some(NW) =>
      Box(Max(0, Min(Min(b.x2 - MinSide, b.x1 + dx), b.x2 - MinSide)),
          Max(0, Min(Min(b.y2 - MinSide, b.y1 + dy), b.y2 - MinSide)), b.x2, b.y2)
    case None => b
  }

  /** The full `resize_text_box` step: with a handle the start box resized
      within the bounds (the cached image size, or 1920x1080 without an
      image); without one the current box as it is. The safe clamp needs the
      canvas image and, without one, fails after the box is already set,
      leaving it unclamped. */
  function ResizeResult(start: Box, current: Box, handle: Option<Handle>, dx: int, dy: int,
                        image: Option<Size>, cached: Option<Size>): (c: Box)
    ensures image.None? ==> c == (if handle.Some? then Resized(start, handle, dx, dy, 1920, 1080) else current)
    ensures image.Some? ==> 0 <= c.x1 < c.x2 && 0 <= c.y1 < c.y2
    ensures image.Some? && image.value.w >= 2 ==> c.x2 <= image.value.w - 1
    ensures image.Some? && image.value.h >= 2 ==> c.y2 <= image.value.h - 1
  {
    var bounds := if image.Some? then Bounds(image, cached).value else Size(1080, 1920);
    var b := if handle.Some? then Resized(start, handle, dx, dy, bounds.w, bounds.h) else current;
    if image.Some? then SafeClamp(b, image.value) else b
  }

  /** The text index a drop carries: the part after the first `:` of a
      `text_index:N` payload read as an integer. */
  function DropIndex(data: string): (i: Option<int>)
  {
    var prefix := DropPrefix();
    if !IsPrefix(prefix, data) then None
    else
      var parts := SplitOn(data, ':');
      if |parts| < 2 then None else ParseInt(parts[1])
  }

  predicate IsPrefix(p: string, s: string)
  {
    |p| <= |s| && s[..|p|] == p
  }

  function DropPrefix(): string
  {
    "text_index:"
  }

  /** The box a dropped text gets: 120x50 centred on the drop point; on an
      image at least that large it stays 120x50 and lies inside it. */
  function DropBox(p: Pos, image: Option<Size>): (b: Box)
    ensures image.None? ==> b == Box(p.x - 60, p.y - 25, p.x + 60, p.y + 25)
    ensures image.Some? && image.value.w >= 120 && image.value.h >= 50 ==>
      b.x2 - b.x1 == 120 && b.y2 - b.y1 == 50 &&
      0 <= b.x1 && b.x2 <= image.value.w && 0 <= b.y1 && b.y2 <= image.value.h
  {
    var c := Box(p.x - 120 / 2, p.y - 50 / 2, p.x + 120 / 2, p.y + 50 / 2);
    if image.None? then c
    else
      Box(Max(0, Min(c.x1, image.value.w - 120)), Max(0, Min(c.y1, image.value.h - 50)),
          Max(120, Min(c.x2, image.value.w)), Max(50, Min(c.y2, image.value.h)))
  }

  // Lemmas

  /** The handle found is the first in priority order whose zone holds the
      point; `None` means no zone holds it. */
  lemma {:induction false} HandlePriority(b: Box, p: Pos)
    ensures HandleAt(b, p).None? <==> forall k :: 0 <= k < 4 ==> !Contains(Zone(b, Priority()[k]), p)
    ensures HandleAt(b, p).Some? ==>
      exists k :: 0 <= k < 4 && HandleAt(b, p) == Some(Priority()[k]) && Contains(Zone(b, Priority()[k]), p) &&
        forall j :: 0 <= j < k ==> !Contains(Zone(b, Priority()[j]), p)
  {
    var z := Priority();
    assert z[0] == SE && z[1] == NE && z[2] == SW && z[3] == NW;
    if HandleAt(b, p) == Some(NE) {
      assert !Contains(Zone(b, z[0]), p);
    } else if HandleAt(b, p) == Some(SW) {
      assert !Contains(Zone(b, z[0]), p) && !Contains(Zone(b, z[1]), p);
    } else if HandleAt(b, p) == Some(NW) {
      assert !Contains(Zone(b, z[0]), p) && !Contains(Zone(b, z[1]), p) && !Contains(Zone(b, z[2]), p);
    }
  }

  /** On a box at least 20 pixels each way every handle zone lies inside the
      box, so a point on a handle is a point on the box. */
  lemma HandleInsideBox(b: Box, p: Pos)
    requires b.x2 - b.x1 >= 20 && b.y2 - b.y1 >= 20
    ensures HandleAt(b, p).Some? ==> Contains(b, p)
  {
  }

  /** Clamping twice is clamping once, on an image at least 2 pixels each
      way. */
  lemma SafeClampIdempotent(b: Box, size: Size)
    requires size.w >= 2 && size.h >= 2
    ensures SafeClamp(SafeClamp(b, size), size) == SafeClamp(b, size)
  {
  }

  /** A drag that keeps the box clear of the right and bottom edges, on an
      image the bounds agree with, moves the box exactly by the pointer's
      displacement. */
  lemma DragFollows(start: Box, dx: int, dy: int, size: Size, cached: Option<Size>)
    requires cached.None? || cached == Some(size)
    requires start.x1 < start.x2 && start.y1 < start.y2
    requires 0 <= start.x1 + dx && start.x2 + dx <= size.w - 1
    requires 0 <= start.y1 + dy && start.y2 + dy <= size.h - 1
    ensures Dragged(start, dx, dy, Some(size), cached) == Box(start.x1 + dx, start.y1 + dy, start.x2 + dx, start.y2 + dy)
  {
  }

  /** A drop carrying `text_index:N` yields `N` for every integer `N`. */
  lemma {:induction false} DropIndexRoundTrip(n: int)
    ensures DropIndex(DropPrefix() + IntToString(n)) == Some(n)
  {
    var t := IntToString(n);
    var data := DropPrefix() + t;
    assert IsPrefix(DropPrefix(), data);
    assert ':' !in t by {
      var digits := if n < 0 then NatToString(-n) else NatToString(n);
      assert t == (if n < 0 then "-" else "") + digits;
      assert forall k :: 0 <= k < |digits| ==> IsDigit(digits[k]);
    }
    var j := FindFrom(data, ':', 0);
    assert data[10] == ':';
    assert j == 10;
    assert data[11..] == t;
    assert FindFrom(t, ':', 0) == |t|;
    assert SplitOn(t, ':') == [t] by { assert t[..|t|] == t; }
    assert SplitOn(data, ':')[1] == t;
    ParseIntRoundTrip(n);
  }

  /** A resize that stays within the bounds follows the pointer exactly. */
  lemma ResizeFollows(b: Box, dx: int, dy: int, width: int, height: int)
    requires b.x1 + MinSide <= b.x2 + dx <= width && b.y1 + MinSide <= b.y2 + dy <= height
    ensures Resized(b, Some(SE), dx, dy, width, height) == Box(b.x1, b.y1, b.x2 + dx, b.y2 + dy)
  {
  }
}
