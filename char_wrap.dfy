/** The character-count line breaker `wrap_text` of the image canvas: a line
    holds at most `max(1, width // 8)` characters, whatever the font. */
module CharWrap {
  import opened Text

  /** The line capacity: the width is clamped to at least 20, or taken as 100
      when it is not positive, and every character counts as 8 pixels. */
  function CharsPerLine(maxWidth: int): (n: int)
    ensures n >= 2
    ensures maxWidth <= 0 ==> n == 12
    ensures maxWidth > 0 ==> n == (if maxWidth < 20 then 2 else maxWidth / 8)
  {
    var width := if maxWidth > 0 then (if maxWidth < 20 then 20 else maxWidth) else 100;
    if width / 8 < 1 then 1 else width / 8
  }

  /** What the loop keeps after reading `text[..i]`. */
  predicate Inv(text: string, i: nat, lines: seq<string>, current: string, perLine: int)
    requires i <= |text|
  {
    (forall j :: 0 <= j < |lines| ==> |lines[j]| <= perLine && '\n' !in lines[j]) &&
    |current| <= perLine && '\n' !in current &&
    Concat(lines) + current == Without(text[..i], '\n') &&
    |lines| >= Count(text[..i], '\n') &&
    (i > 0 && current == "" ==> lines != [])
  }

  /** The bookkeeping shared by the three branches. */
  lemma ReadOne(text: string, i: nat, lines: seq<string>, current: string)
    requires i < |text|
    ensures Without(text[..i + 1], '\n') == Without(text[..i], '\n') + Without([text[i]], '\n')
    ensures Count(text[..i + 1], '\n') == Count(text[..i], '\n') + Count([text[i]], '\n')
    ensures Concat(lines + [current]) == Concat(lines) + current
  {
    assert text[..i + 1] == text[..i] + [text[i]];
    WithoutAppend(text[..i], [text[i]], '\n');
    CountAppend(text[..i], [text[i]], '\n');
    ConcatAppend(lines, current);
  }

  lemma NewlineStep(text: string, i: nat, lines: seq<string>, current: string, perLine: int)
    requires i < |text| && text[i] == '\n' && Inv(text, i, lines, current, perLine)
    ensures Inv(text, i + 1, lines + [current], "", perLine)
  {
    ReadOne(text, i, lines, current);
  }

  lemma BreakStep(text: string, i: nat, lines: seq<string>, current: string, perLine: int)
    requires i < |text| && text[i] != '\n' && |current| >= perLine >= 1 && Inv(text, i, lines, current, perLine)
    ensures Inv(text, i + 1, lines + [current], [text[i]], perLine)
  {
    ReadOne(text, i, lines, current);
  }

  lemma ExtendStep(text: string, i: nat, lines: seq<string>, current: string, perLine: int)
    requires i < |text| && text[i] != '\n' && |current| < perLine && Inv(text, i, lines, current, perLine)
    ensures Inv(text, i + 1, lines, current + [text[i]], perLine)
  {
    ReadOne(text, i, lines, current);
  }

  /** The source loop. Every line fits the capacity and holds no newline, the
      lines spell the text without its newlines, and every newline ends a line. */
  method WrapText(text: string, maxWidth: int) returns (lines: seq<string>)
    ensures lines != []
    ensures text == "" ==> lines == [""]
    ensures forall l :: l in lines ==> |l| <= CharsPerLine(maxWidth) && '\n' !in l
    ensures text != "" ==> Concat(lines) == Without(text, '\n') && |lines| >= Count(text, '\n')
  {
    if text == "" {
      return [""];
    }
    var perLine := CharsPerLine(maxWidth);
    lines := [];
    var current := "";
    for i := 0 to |text|
      invariant Inv(text, i, lines, current, perLine)
    {
      var c := text[i];
      if c == '\n' {
        NewlineStep(text, i, lines, current, perLine);
        lines := lines + [current];
        current := "";
      } else if |current| >= perLine {
        BreakStep(text, i, lines, current, perLine);
        lines := lines + [current];
        current := [c];
      } else {
        ExtendStep(text, i, lines, current, perLine);
        current := current + [c];
      }
    }
    assert text[..|text|] == text;
    if current != "" {
      ConcatAppend(lines, current);
      lines := lines + [current];
    }
    if lines == [] {
      lines := [text];
    }
  }
}
