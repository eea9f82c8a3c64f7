/** Python string primitives the layout engine relies on: whitespace
    classification, `strip`, `split('\n')`, `split()` and `join`. */
module Text {

  datatype Option<T> = None | Some(value: T)

  /** The rendered width of a string in one font, as `ImageDraw.textlength`
      reports it; `None` when measuring raises. */
  type Measure = string -> Option<real>

  /** Python's `max` and `min` of two integers. */
  function Max(a: int, b: int): int { if a < b then b else a }
  function Min(a: int, b: int): int { if a < b then a else b }

  /** The character-count estimate `len(s) * size * 0.6 <= max_width`, with the
      0.6 factor written as exact tenths. */
  predicate EstimateFits(s: string, size: int, maxWidth: int) {
    |s| * size * 6 <= 10 * maxWidth
  }

  /** Python's `str.isspace` for one character (bidirectional classes WS, B,
      S and general category Zs). */
  predicate IsSpace(c: char) {
    ('\t' <= c <= '\r') || ('\U{1C}' <= c <= '\U{1F}') || c == ' ' ||
    c == '\U{85}' || c == '\U{A0}' || c == '\U{1680}' ||
    ('\U{2000}' <= c <= '\U{200A}') || c == '\U{2028}' || c == '\U{2029}' ||
    c == '\U{202F}' || c == '\U{205F}' || c == '\U{3000}'
  }

  /** `not s or not s.strip()`: the string is empty or all whitespace. */
  predicate IsBlank(s: string) {
    forall i :: 0 <= i < |s| ==> IsSpace(s[i])
  }

  /** Index of the first non-whitespace character at or after `i`. */
  function SkipSpaces(s: string, i: nat): (j: nat)
    requires i <= |s|
    ensures i <= j <= |s|
    ensures forall k :: i <= k < j ==> IsSpace(s[k])
    ensures j < |s| ==> !IsSpace(s[j])
    decreases |s| - i
  {
    if i == |s| || !IsSpace(s[i]) then i else SkipSpaces(s, i + 1)
  }

  /** One past the last non-whitespace character at or before `j`. */
  function TrimEnd(s: string, j: nat): (k: nat)
    requires j <= |s|
    ensures k <= j
    ensures forall m :: k <= m < j ==> IsSpace(s[m])
    ensures k > 0 ==> !IsSpace(s[k - 1])
  {
    if j == 0 || !IsSpace(s[j - 1]) then j else TrimEnd(s, j - 1)
  }

  /** Python's `s.strip()`. */
  function Strip(s: string): (r: string)
    ensures r == "" <==> IsBlank(s)
    ensures r != "" ==> !IsSpace(r[0]) && !IsSpace(r[|r| - 1])
    ensures exists i, j :: 0 <= i <= j <= |s| && r == s[i..j]
  {
    var i := SkipSpaces(s, 0);
    var j := TrimEnd(s, |s|);
    if i < j then
      assert !IsSpace(s[i]);
      s[i..j]
    else
      assert i == |s|;
      s[0..0]
  }

  /** `sep.join(parts)`. */
  function Join(parts: seq<string>, sep: string): string
  {
    if |parts| == 0 then ""
    else if |parts| == 1 then parts[0]
    else parts[0] + sep + Join(parts[1..], sep)
  }

  /** The concatenation of all lines, `"".join(lines)`. */
  function Concat(lines: seq<string>): string
  {
    if lines == [] then "" else lines[0] + Concat(lines[1..])
  }

  lemma {:induction false} ConcatAppend(lines: seq<string>, s: string)
    ensures Concat(lines + [s]) == Concat(lines) + s
  {
    if lines == [] {
      assert [s][1..] == [];
    } else {
      assert (lines + [s])[1..] == lines[1..] + [s];
      ConcatAppend(lines[1..], s);
    }
  }

  /** `s` with every `c` removed. */
  function Without(s: string, c: char): (r: string)
    ensures c !in r
    ensures |r| <= |s|
  {
    if s == [] then [] else (if s[0] == c then [] else [s[0]]) + Without(s[1..], c)
  }

  lemma {:induction false} WithoutAppend(s: string, t: string, c: char)
    ensures Without(s + t, c) == Without(s, c) + Without(t, c)
  {
    if s == [] {
      assert s + t == t;
    } else {
      assert (s + t)[0] == s[0];
      assert (s + t)[1..] == s[1..] + t;
      WithoutAppend(s[1..], t, c);
    }
  }

  /** The number of occurrences of `c` in `s`. */
  function Count(s: string, c: char): nat
  {
    if s == [] then 0 else (if s[0] == c then 1 else 0) + Count(s[1..], c)
  }

  lemma {:induction false} CountAppend(s: string, t: string, c: char)
    ensures Count(s + t, c) == Count(s, c) + Count(t, c)
  {
    if s == [] {
      assert s + t == t;
    } else {
      assert (s + t)[0] == s[0];
      assert (s + t)[1..] == s[1..] + t;
      CountAppend(s[1..], t, c);
    }
  }

  lemma {:induction false} WithoutAbsent(s: string, c: char)
    requires c !in s
    ensures Without(s, c) == s
  {
    if s != [] {
      assert c !in s[1..];
      WithoutAbsent(s[1..], c);
    }
  }

  lemma {:induction false} CountAbsent(s: string, c: char)
    requires c !in s
    ensures Count(s, c) == 0
  {
    if s != [] {
      assert c !in s[1..];
      CountAbsent(s[1..], c);
    }
  }

  /** Index of the first `sep` at or after `i`, or `|s|`. */
  function FindFrom(s: string, sep: char, i: nat): (j: nat)
    requires i <= |s|
    ensures i <= j <= |s|
    ensures forall k :: i <= k < j ==> s[k] != sep
    ensures j < |s| ==> s[j] == sep
    decreases |s| - i
  {
    if i == |s| || s[i] == sep then i else FindFrom(s, sep, i + 1)
  }

  /** Python's `s.split(sep)` for a one-character separator: never empty,
      and joining the pieces with `sep` gives `s` back. */
  function SplitOn(s: string, sep: char): (parts: seq<string>)
    ensures |parts| >= 1
    ensures forall p :: p in parts ==> sep !in p
    ensures Join(parts, [sep]) == s
    decreases |s|
  {
    var j := FindFrom(s, sep, 0);
    if j == |s| then
      assert sep !in s;
      assert s[..j] == s;
      [s]
    else
      var rest := SplitOn(s[j + 1..], sep);
      assert sep !in s[..j];
      assert s == s[..j] + [sep] + s[j + 1..];
      [s[..j]] + rest
  }

  /** One past the end of the run of non-whitespace characters starting at `i`. */
  function RunEnd(s: string, i: nat): (j: nat)
    requires i <= |s|
    ensures i <= j <= |s|
    ensures forall k :: i <= k < j ==> !IsSpace(s[k])
    ensures j < |s| ==> IsSpace(s[j])
    decreases |s| - i
  {
    if i == |s| || IsSpace(s[i]) then i else RunEnd(s, i + 1)
  }

  /** Python's `s.split()`: the maximal whitespace-free runs, in order. */
  function Words(s: string): (ws: seq<string>)
    ensures forall w :: w in ws ==> w != "" && forall k :: 0 <= k < |w| ==> !IsSpace(w[k])
    ensures ws == [] <==> IsBlank(s)
    decreases |s|
  {
    if |s| == 0 then []
    else if IsSpace(s[0]) then
      var ws := Words(s[1..]);
      assert IsBlank(s[1..]) ==> IsBlank(s) by {
        if IsBlank(s[1..]) {
          forall m | 0 <= m < |s| ensures IsSpace(s[m]) {
            if m > 0 { assert s[m] == s[1..][m - 1]; }
          }
        }
      }
      ws
    else
      var j := RunEnd(s, 0);
      [s[..j]] + Words(s[j..])
  }
}
