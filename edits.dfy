/** What the list-editing commands do to the region list and to one region,
    as functions of the list before: the layer reorder of the canvas
    context menu, merging the selected table rows, and the stroke settings
    of the region dialog. The editor's methods are proved against these. */
module Edits {
  import opened Text
  import opened Region

  // Layer order: the list is drawn first to last, so the last is on top.

  /** The list without the element at `i`. */
  function Removed<T>(s: seq<T>, i: nat): (t: seq<T>)
    requires i < |s|
    ensures |t| == |s| - 1
    ensures forall j :: 0 <= j < i ==> t[j] == s[j]
    ensures forall j :: i <= j < |t| ==> t[j] == s[j + 1]
  {
    s[..i] + s[i + 1..]
  }

  /** `move_to_front`: the element at `i` taken out and appended, so it is
      drawn last; the others keep their order. */
  function MovedToFront<T>(s: seq<T>, i: nat): (t: seq<T>)
    requires i < |s|
    ensures |t| == |s| && t[|s| - 1] == s[i]
    ensures t[..|s| - 1] == Removed(s, i)
  {
    Removed(s, i) + [s[i]]
  }

  /** `move_to_back`: the element at `i` taken out and put first, so it is
      drawn first; the others keep their order. */
  function MovedToBack<T>(s: seq<T>, i: nat): (t: seq<T>)
    requires i < |s|
    ensures |t| == |s| && t[0] == s[i]
    ensures t[1..] == Removed(s, i)
  {
    [s[i]] + Removed(s, i)
  }

  // Merging lines

  /** The distinct rows of the selected table items. */
  function Selection(selected: seq<nat>): (rows: set<nat>)
    ensures forall k :: k in rows <==> k in selected
  {
    set k | k in selected
  }

  /** The lowest selected row, the first after sorting. */
  function Lowest(selected: seq<nat>): (m: nat)
    requires selected != []
    ensures m in selected
    ensures forall k :: k in selected ==> m <= k
  {
    if |selected| == 1 then selected[0]
    else
      var rest := Lowest(selected[1..]);
      assert forall k :: k in selected ==> k == selected[0] || k in selected[1..];
      if selected[0] <= rest then selected[0] else rest
  }

  /** The stripped, non-blank texts of the selected rows below `n`, in
      ascending row order. */
  function MergedLines(regions: seq<TextRegion>, rows: set<nat>, n: nat): (lines: seq<string>)
    requires n <= |regions|
    ensures |lines| <= n
    ensures forall line :: line in lines ==> line != ""
    ensures lines != [] <==> exists k :: 0 <= k < n && k in rows && !IsBlank(regions[k].text)
  {
    if n == 0 then []
    else
      var init := MergedLines(regions, rows, n - 1);
      var t := regions[n - 1].text;
      if n - 1 in rows && !IsBlank(t) then init + [Strip(t)] else init
  }

  /** The elements at indices `lo` and above that are not deleted, in order. */
  function Kept<T(!new)>(s: seq<T>, deleted: set<nat>, lo: nat): (t: seq<T>)
    requires lo <= |s|
    ensures |t| <= |s| - lo
    ensures forall x :: x in t <==> exists k :: lo <= k < |s| && k !in deleted && s[k] == x
    decreases |s| - lo
  {
    if lo == |s| then []
    else (if lo in deleted then [] else [s[lo]]) + Kept(s, deleted, lo + 1)
  }

  /** The rows deleted by a merge: the selected rows above the lowest. */
  function Doomed(rows: set<nat>, first: nat): (d: set<nat>)
    ensures forall k :: k in d <==> k in rows && k > first
  {
    set k | k in rows && k > first
  }

  /** The list `merge_selected_lines` leaves when it merges: the lowest
      selected row takes the merged text and the other selected rows go. */
  function Merged(regions: seq<TextRegion>, rows: set<nat>, first: nat): seq<TextRegion>
    requires first < |regions|
  {
    var lines := MergedLines(regions, rows, |regions|);
    Kept(regions[first := regions[first].(text := Join(lines, "\n"))], Doomed(rows, first), 0)
  }

  // Stroke settings of the region dialog

  /** `choose_stroke_color`: the chosen colour, and a width of 1 when the
      width was 0. */
  function StrokeColorChosen(r: TextRegion, c: Rgb): (q: TextRegion)
    ensures q.strokeColor == Some(c)
    ensures q.strokeWidth == (if r.strokeWidth == 0 then 1 else r.strokeWidth)
    ensures q == r.(strokeColor := q.strokeColor, strokeWidth := q.strokeWidth)
    ensures r.strokeWidth >= 0 ==> StrokeConsistent(q)
  {
    r.(strokeColor := Some(c), strokeWidth := if r.strokeWidth == 0 then 1 else r.strokeWidth)
  }

  /** `on_stroke_width_changed`: the new width; no colour at width 0, and
      black when a positive width finds no colour. */
  function StrokeWidthChanged(r: TextRegion, v: int): (q: TextRegion)
    ensures q.strokeWidth == v
    ensures q == r.(strokeColor := q.strokeColor, strokeWidth := v)
    ensures v != 0 && r.strokeColor.Some? ==> q.strokeColor == r.strokeColor
    ensures v >= 0 ==> StrokeConsistent(q)
  {
    var q := r.(strokeWidth := v);
    if v == 0 then q.(strokeColor := None)
    else if q.strokeColor.None? then q.(strokeColor := Some(Rgb(0, 0, 0)))
    else q
  }

  /** The explicit stroke normalisation when the region dialog is accepted,
      with the spin box's value. */
  function StrokeApplied(r: TextRegion, spin: int): (q: TextRegion)
    ensures q.strokeWidth == spin
    ensures q == r.(strokeColor := q.strokeColor, strokeWidth := spin)
    ensures spin >= 0 ==> StrokeConsistent(q)
  {
    var q := if r.strokeWidth != spin then r.(strokeWidth := spin) else r;
    if q.strokeWidth == 0 then q.(strokeColor := None)
    else if q.strokeColor.None? && q.strokeWidth > 0 then q.(strokeColor := Some(Rgb(0, 0, 0)))
    else q
  }

  // Lemmas

  /** Moving an element to the back and then moving the new first element
      to the front is moving it to the front directly. */
  lemma BackThenFront<T>(s: seq<T>, i: nat)
    requires i < |s|
    ensures MovedToFront(MovedToBack(s, i), 0) == MovedToFront(s, i)
  {
    assert Removed(MovedToBack(s, i), 0) == Removed(s, i);
  }

  /** A reorder is a permutation: nothing is lost or duplicated. */
  lemma {:induction false} ReorderPermutes<T>(s: seq<T>, i: nat)
    requires i < |s|
    ensures multiset(MovedToFront(s, i)) == multiset(s)
    ensures multiset(MovedToBack(s, i)) == multiset(s)
  {
    assert s == s[..i] + [s[i]] + s[i + 1..];
    calc {
      multiset(s);
      multiset(s[..i]) + multiset([s[i]]) + multiset(s[i + 1..]);
      multiset(Removed(s, i)) + multiset([s[i]]);
    }
  }

  /** The top layer moved to the front, or the bottom one to the back,
      stays where it is. */
  lemma ReorderInPlace<T>(s: seq<T>)
    requires s != []
    ensures MovedToFront(s, |s| - 1) == s
    ensures MovedToBack(s, 0) == s
  {
  }

  /** Nothing below `lo` is deleted by a merge that keeps `lo`: every row up
      to and including the lowest selected one keeps its index. */
  lemma {:induction false} KeptPrefix<T(!new)>(s: seq<T>, deleted: set<nat>, lo: nat, n: nat)
    requires lo <= n < |s|
    requires forall k :: k in deleted ==> k > n
    ensures |Kept(s, deleted, lo)| > n - lo
    ensures Kept(s, deleted, lo)[..n + 1 - lo] == s[lo..n + 1]
    decreases n - lo
  {
    if lo < n {
      KeptPrefix(s, deleted, lo + 1, n);
    }
  }

  /** The length of what a merge keeps: every index not deleted. */
  lemma {:induction false} KeptCount<T(!new)>(s: seq<T>, deleted: set<nat>, lo: nat)
    requires lo <= |s|
    ensures |Kept(s, deleted, lo)| == |set k | lo <= k < |s| && k !in deleted|
    decreases |s| - lo
  {
    if lo < |s| {
      KeptCount(s, deleted, lo + 1);
      var rest := set k | lo + 1 <= k < |s| && k !in deleted;
      var all := set k | lo <= k < |s| && k !in deleted;
      if lo in deleted {
        assert all == rest;
      } else {
        assert all == rest + {lo};
      }
    } else {
      assert (set k | lo <= k < |s| && k !in deleted) == {};
    }
  }

  /** A merge keeps the merged row at the lowest selected index, with the
      '\n'-join of the selected texts, and every row before it. */
  lemma {:induction false} MergeShape(regions: seq<TextRegion>, rows: set<nat>, first: nat)
    requires first < |regions|
    ensures var m := Merged(regions, rows, first);
      |m| > first && m[..first] == regions[..first] &&
      m[first] == regions[first].(text := Join(MergedLines(regions, rows, |regions|), "\n"))
  {
    var lines := MergedLines(regions, rows, |regions|);
    var s := regions[first := regions[first].(text := Join(lines, "\n"))];
    var d := Doomed(rows, first);
    KeptPrefix(s, d, 0, first);
    assert Kept(s, d, 0)[..first] == s[..first + 1][..first];
  }

  /** A merge loses no unselected region. */
  lemma MergeKeepsUnselected(regions: seq<TextRegion>, rows: set<nat>, first: nat, k: nat)
    requires first in rows && first < |regions|
    requires k < |regions| && k !in rows
    ensures regions[k] in Merged(regions, rows, first)
  {
    var s := regions[first := regions[first].(text := Join(MergedLines(regions, rows, |regions|), "\n"))];
    assert s[k] == regions[k] && k !in Doomed(rows, first);
  }

  /** The stroke dialog's final normalisation agrees with the live width
      handler on every width the spin box offers. */
  lemma StrokeAppliedAgrees(r: TextRegion, v: int)
    requires v >= 0
    ensures StrokeApplied(r, v) == StrokeWidthChanged(r, v)
  {
  }

  /** Choosing a colour and then setting the width the choice leaves keeps
      the chosen colour. */
  lemma ChosenColorSurvives(r: TextRegion, c: Rgb)
    requires r.strokeWidth >= 0
    ensures var q := StrokeColorChosen(r, c); StrokeWidthChanged(q, q.strokeWidth) == q
  {
  }
}
