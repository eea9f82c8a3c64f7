/** The mixed-script line breaker `wrap_text_for_box`: Hangul syllables and
    whitespace are placed one character at a time, a maximal run of other
    non-space characters (Latin words, digits, punctuation) is placed as one
    unit, and every '\n' ends a line.

    The function as written reuses the variable `word` when the unit that
    overflows is a whitespace character: the line then restarts with the
    previous word, or, when no word has been read yet, the `NameError` is
    caught and the whole text comes back as a single line. `WrapForBoxAsWritten`
    and the method `WrapTextForBox` keep that behaviour, and the layout and
    the exports use it; `WrapForBox` is the evidently intended variant, in
    which the whitespace character itself starts the next line. */
module BoxWrap {
  import opened Text

  /** `_is_korean`: Hangul syllables, Hangul jamo and Hangul compatibility
      jamo. None of them is whitespace, so the three kinds of unit are disjoint. */
  function IsKorean(c: char): (r: bool)
    ensures r <==> ('\U{AC00}' <= c <= '\U{D7AF}') || ('\U{1100}' <= c <= '\U{11FF}') || ('\U{3130}' <= c <= '\U{318F}')
    ensures r ==> !IsSpace(c) && c != '\n'
  {
    ('\U{AC00}' <= c <= '\U{D7AF}') || ('\U{1100}' <= c <= '\U{11FF}') || ('\U{3130}' <= c <= '\U{318F}')
  }

  /** A character that extends a word: neither whitespace nor Hangul. */
  predicate IsWordChar(c: char) {
    !IsSpace(c) && !IsKorean(c)
  }

  /** One past the end of the word that starts at `i` (the inner loop). */
  function WordEnd(text: string, i: nat): (j: nat)
    requires i <= |text|
    ensures i <= j <= |text|
    ensures forall k :: i <= k < j ==> IsWordChar(text[k])
    ensures j < |text| ==> !IsWordChar(text[j])
    decreases |text| - i
  {
    if i == |text| || !IsWordChar(text[i]) then i else WordEnd(text, i + 1)
  }

  /** The end of a word is the first position that does not extend it. */
  lemma {:induction false} WordEndUnique(text: string, i: nat, j: nat)
    requires i <= j <= |text|
    requires forall k :: i <= k < j ==> IsWordChar(text[k])
    requires j == |text| || !IsWordChar(text[j])
    ensures j == WordEnd(text, i)
    decreases j - i
  {
    if i < j {
      WordEndUnique(text, i + 1, j);
    }
  }

  /** The unit read at one position: its characters, the position after it,
      what a new line starts with when it overflows (`alt`, `None` when the
      source would read an unbound `word`), and the value of `word` afterwards. */
  datatype Unit = Unit(piece: string, next: nat, alt: Option<string>, word: Option<string>)

  /** The unit at position `i`. With `stale` set, an overflowing whitespace
      character restarts the line with the last word read, as written; without
      it, with the whitespace character itself. */
  function NextUnit(text: string, i: nat, word: Option<string>, stale: bool): (u: Unit)
    requires i < |text| && text[i] != '\n'
    ensures i < u.next <= |text| && u.piece == text[i..u.next]
    ensures IsWordChar(text[i]) ==>
              (forall k :: i <= k < u.next ==> IsWordChar(text[k])) &&
              (u.next == |text| || !IsWordChar(text[u.next])) &&
              u.alt == u.word == Some(u.piece)
    ensures !IsWordChar(text[i]) ==> u.next == i + 1 && u.word == word
    ensures IsKorean(text[i]) ==> u.alt == Some(u.piece)
    ensures IsSpace(text[i]) ==> u.alt == (if stale then word else Some(u.piece))
  {
    var c := text[i];
    if IsKorean(c) then Unit([c], i + 1, Some([c]), word)
    else if IsSpace(c) then Unit([c], i + 1, if stale then word else Some([c]), word)
    else
      var j := WordEnd(text, i);
      Unit(text[i..j], j, Some(text[i..j]), Some(text[i..j]))
  }

  /** The state of the scan: the lines emitted and the line being built, or
      `Aborted` when a `NameError` escaped to the outer handler. */
  datatype Progress = Aborted | Going(lines: seq<string>, current: string)

  /** The character-count fallback (lines 93-104): `fits` is the estimate test. */
  function EstimatePlace(lines: seq<string>, current: string, test: string, alt: Option<string>, fits: bool): (p: Progress)
    ensures fits ==> p == Going(lines, test)
    ensures !fits && alt.None? ==> p == Aborted
    ensures !fits && alt.Some? && current != "" ==> p == Going(lines + [current], alt.value)
    ensures !fits && alt.Some? && current == "" ==> p == Going(lines + [alt.value], "")
  {
    if fits then Going(lines, test)
    else match alt
      case None => Aborted
      case Some(a) => if current != "" then Going(lines + [current], a) else Going(lines + [a], "")
  }

  /** Lines 78-92: the measured test; a failed measurement, or a `NameError`
      after the current line was already flushed, falls back to the estimate. */
  function MeasuredPlace(lines: seq<string>, current: string, test: string, alt: Option<string>,
                         width: Option<real>, maxWidth: int, estimateFits: bool): Progress
  {
    match width
    case None => EstimatePlace(lines, current, test, alt, estimateFits)
    case Some(w) =>
      if w <= maxWidth as real then Going(lines, test)
      else match alt
        case Some(a) => if current != "" then Going(lines + [current], a) else Going(lines + [a], "")
        case None => EstimatePlace(if current != "" then lines + [current] else lines, current, test, alt, estimateFits)
  }

  /** The main loop from position `i` on. */
  function Run(text: string, i: nat, lines: seq<string>, current: string, word: Option<string>, stale: bool,
               maxWidth: int, size: int, measure: Measure): Progress
    requires i <= |text|
    decreases |text| - i
  {
    if i == |text| then Going(lines, current)
    else if text[i] == '\n' then Run(text, i + 1, lines + [current], "", word, stale, maxWidth, size, measure)
    else
      var u := NextUnit(text, i, word, stale);
      var test := current + u.piece;
      match MeasuredPlace(lines, current, test, u.alt, measure(test), maxWidth, EstimateFits(test, size, maxWidth))
      case Aborted => Aborted
      case Going(ls, cur) => Run(text, u.next, ls, cur, u.word, stale, maxWidth, size, measure)
  }

  /** Lines 107-115: flush the last line; `[text]` when nothing was emitted or
      the scan aborted. */
  function Finish(text: string, p: Progress): (r: seq<string>)
    ensures r != []
  {
    match p
    case Aborted => [text]
    case Going(lines, current) =>
      var ls := if current != "" then lines + [current] else lines;
      if ls == [] then [text] else ls
  }

  /** `wrap_text_for_box` as written. Unless it gives up and returns the
      text whole, its lines hold no newline and there are at least as many
      of them as newlines; the text itself need not be spelled (see
      `StaleWordRepeats`). */
  function WrapForBoxAsWritten(text: string, maxWidth: int, size: int, measure: Measure): (r: seq<string>)
    ensures r != []
    ensures IsBlank(text) ==> r == [""]
    ensures !IsBlank(text) ==> r == [text] || ((forall l :: l in r ==> '\n' !in l) && |r| >= Count(text, '\n'))
  {
    if IsBlank(text) then [""]
    else
      var p := Run(text, 0, [], "", None, true, maxWidth, size, measure);
      StaleRunKeepsLines(text, 0, [], "", None, maxWidth, size, measure);
      assert text[..|text|] == text;
      Finish(text, p)
  }

  /** Invariant of the function as written: no emitted line, current line
      or remembered word holds a newline, and each newline has emitted a line. */
  predicate StaleSafe(text: string, i: nat, lines: seq<string>, current: string, word: Option<string>)
    requires i <= |text|
  {
    (forall l :: l in lines ==> '\n' !in l) && '\n' !in current &&
    (word.Some? ==> '\n' !in word.value) && |lines| >= Count(text[..i], '\n')
  }

  /** One placement of the function as written either aborts or emits only
      newline-free lines, never fewer than before. */
  lemma StalePlaceKeeps(lines: seq<string>, current: string, test: string, alt: Option<string>,
                        width: Option<real>, maxWidth: int, fits: bool)
    requires (forall l :: l in lines ==> '\n' !in l) && '\n' !in current && '\n' !in test
    requires alt.Some? ==> '\n' !in alt.value
    ensures var p := MeasuredPlace(lines, current, test, alt, width, maxWidth, fits);
            p.Aborted? ||
            ((forall l :: l in p.lines ==> '\n' !in l) && '\n' !in p.current && |p.lines| >= |lines|)
  {
  }

  /** The main loop of the function as written keeps `StaleSafe` until it
      aborts. */
  lemma {:induction false} StaleRunKeepsLines(text: string, i: nat, lines: seq<string>, current: string,
                                              word: Option<string>, maxWidth: int, size: int, measure: Measure)
    requires i <= |text| && StaleSafe(text, i, lines, current, word)
    ensures var p := Run(text, i, lines, current, word, true, maxWidth, size, measure);
            p.Aborted? || StaleSafe(text, |text|, p.lines, p.current, None)
    decreases |text| - i
  {
    if i == |text| {
    } else if text[i] == '\n' {
      assert text[..i + 1] == text[..i] + ['\n'];
      CountAppend(text[..i], ['\n'], '\n');
      StaleRunKeepsLines(text, i + 1, lines + [current], "", word, maxWidth, size, measure);
    } else {
      var u := NextUnit(text, i, word, true);
      assert '\n' !in u.piece by {
        forall k | 0 <= k < |u.piece| ensures u.piece[k] != '\n' {
          assert u.piece[k] == text[i + k];
        }
      }
      var test := current + u.piece;
      var fits := EstimateFits(test, size, maxWidth);
      StalePlaceKeeps(lines, current, test, u.alt, measure(test), maxWidth, fits);
      assert text[..u.next] == text[..i] + u.piece;
      CountAppend(text[..i], u.piece, '\n');
      CountAbsent(u.piece, '\n');
      match MeasuredPlace(lines, current, test, u.alt, measure(test), maxWidth, fits)
      case Aborted =>
      case Going(ls, cur) =>
        StaleRunKeepsLines(text, u.next, ls, cur, u.word, maxWidth, size, measure);
    }
  }

  /** `wrap_text_for_box` with an overflowing whitespace character starting
      the next line itself. Every character other than '\n' appears exactly
      once, in order, and there are at least as many lines as newlines. */
  function WrapForBox(text: string, maxWidth: int, size: int, measure: Measure): (r: seq<string>)
    ensures r != []
    ensures IsBlank(text) ==> r == [""]
    ensures !IsBlank(text) ==> Concat(r) == Without(text, '\n') && |r| >= Count(text, '\n')
    ensures forall l :: l in r ==> '\n' !in l
  {
    if IsBlank(text) then [""]
    else
      var p := Run(text, 0, [], "", None, false, maxWidth, size, measure);
      RunPreservesText(text, 0, [], "", None, maxWidth, size, measure);
      NonBlankKeepsSomething(text);
      assert text[..|text|] == text;
      ConcatAppend(p.lines, p.current);
      Finish(text, p)
  }

  /** A text with a non-whitespace character keeps something once newlines
      are removed. */
  lemma NonBlankKeepsSomething(text: string)
    requires !IsBlank(text)
    ensures Without(text, '\n') != ""
  {
    var k :| 0 <= k < |text| && !IsSpace(text[k]);
    assert text == text[..k] + ([text[k]] + text[k + 1..]);
    WithoutAppend(text[..k], [text[k]] + text[k + 1..], '\n');
    WithoutAppend([text[k]], text[k + 1..], '\n');
    assert Without([text[k]], '\n') == [text[k]];
  }

  /** Invariant of the text-preserving variant: the emitted lines and the
      current line always spell the text read so far without its newlines,
      no line holds a newline, and each newline has emitted a line. */
  predicate Spells(text: string, i: nat, lines: seq<string>, current: string)
    requires i <= |text|
  {
    Concat(lines) + current == Without(text[..i], '\n') &&
    (forall l :: l in lines ==> '\n' !in l) && '\n' !in current &&
    |lines| >= Count(text[..i], '\n')
  }

  /** One placement keeps `Spells` when the unit is its own `alt`. */
  lemma PlaceKeepsText(lines: seq<string>, current: string, piece: string,
                       width: Option<real>, maxWidth: int, fits: bool)
    requires '\n' !in piece && '\n' !in current && forall l :: l in lines ==> '\n' !in l
    ensures var p := MeasuredPlace(lines, current, current + piece, Some(piece), width, maxWidth, fits);
            p.Going? && Concat(p.lines) + p.current == Concat(lines) + current + piece &&
            (forall l :: l in p.lines ==> '\n' !in l) && '\n' !in p.current && |p.lines| >= |lines|
  {
    var test := current + piece;
    var p := MeasuredPlace(lines, current, test, Some(piece), width, maxWidth, fits);
    ConcatAppend(lines, current);
    ConcatAppend(lines, piece);
    assert p == Going(lines, test) || (current != "" && p == Going(lines + [current], piece))
        || (current == "" && p == Going(lines + [piece], ""));
  }

  /** One non-newline unit keeps `Spells`. */
  lemma UnitKeepsText(text: string, i: nat, lines: seq<string>, current: string,
                      word: Option<string>, maxWidth: int, size: int, measure: Measure)
    requires i < |text| && text[i] != '\n' && Spells(text, i, lines, current)
    ensures var u := NextUnit(text, i, word, false);
            var test := current + u.piece;
            var p := MeasuredPlace(lines, current, test, u.alt, measure(test), maxWidth, EstimateFits(test, size, maxWidth));
            p.Going? && Spells(text, u.next, p.lines, p.current)
  {
    var u := NextUnit(text, i, word, false);
    assert '\n' !in u.piece by {
      forall k | 0 <= k < |u.piece| ensures u.piece[k] != '\n' {
        assert u.piece[k] == text[i + k];
      }
    }
    var test := current + u.piece;
    PlaceKeepsText(lines, current, u.piece, measure(test), maxWidth, EstimateFits(test, size, maxWidth));
    assert text[..u.next] == text[..i] + u.piece;
    WithoutAppend(text[..i], u.piece, '\n');
    WithoutAbsent(u.piece, '\n');
    CountAppend(text[..i], u.piece, '\n');
    CountAbsent(u.piece, '\n');
  }

  lemma {:induction false} RunPreservesText(text: string, i: nat, lines: seq<string>, current: string,
                                            word: Option<string>, maxWidth: int, size: int, measure: Measure)
    requires i <= |text| && Spells(text, i, lines, current)
    ensures var p := Run(text, i, lines, current, word, false, maxWidth, size, measure);
            p.Going? && Spells(text, |text|, p.lines, p.current)
    decreases |text| - i
  {
    if i == |text| {
    } else if text[i] == '\n' {
      assert text[..i + 1] == text[..i] + ['\n'];
      WithoutAppend(text[..i], ['\n'], '\n');
      CountAppend(text[..i], ['\n'], '\n');
      ConcatAppend(lines, current);
      RunPreservesText(text, i + 1, lines + [current], "", word, maxWidth, size, measure);
    } else {
      var u := NextUnit(text, i, word, false);
      var test := current + u.piece;
      UnitKeepsText(text, i, lines, current, word, maxWidth, size, measure);
      var p := MeasuredPlace(lines, current, test, u.alt, measure(test), maxWidth, EstimateFits(test, size, maxWidth));
      RunPreservesText(text, u.next, p.lines, p.current, u.word, maxWidth, size, measure);
    }
  }

  /** Lines 93-104 make the same decisions as lines 78-92: with a measurer that
      reports exactly the estimate, the result is the one of a measurer that
      always fails. */
  lemma {:induction false} EstimateAgrees(text: string, i: nat, lines: seq<string>, current: string,
                                          word: Option<string>, stale: bool, maxWidth: int, size: int, measure: Measure)
    requires i <= |text|
    requires forall s :: measure(s) == Some((|s| * size) as real * 0.6)
    ensures Run(text, i, lines, current, word, stale, maxWidth, size, measure)
         == Run(text, i, lines, current, word, stale, maxWidth, size, _ => None)
    decreases |text| - i
  {
    if i == |text| {
    } else if text[i] == '\n' {
      EstimateAgrees(text, i + 1, lines + [current], "", word, stale, maxWidth, size, measure);
    } else {
      var u := NextUnit(text, i, word, stale);
      var test := current + u.piece;
      var fits := EstimateFits(test, size, maxWidth);
      assert measure(test) == Some((|test| * size) as real * 0.6);
      assert fits <==> (|test| * size) as real * 0.6 <= maxWidth as real;
      var none: Measure := _ => None;
      assert MeasuredPlace(lines, current, test, u.alt, measure(test), maxWidth, fits)
          == MeasuredPlace(lines, current, test, u.alt, none(test), maxWidth, fits);
      match MeasuredPlace(lines, current, test, u.alt, measure(test), maxWidth, fits)
      case Aborted =>
      case Going(ls, cur) =>
        EstimateAgrees(text, u.next, ls, cur, u.word, stale, maxWidth, size, measure);
    }
  }

  /** The run of the function as written over "ab cd" in a 12-pixel box at
      size 10 with every measurement failing: "ab" fits (12 pixels), the
      space does not (18) and pushes the stale word "ab" instead, then "cd"
      starts a new line. */
  lemma StaleTrace()
    ensures Run("ab cd", 0, [], "", None, true, 12, 10, _ => None) == Going(["ab", "ab"], "cd")
  {
    var none: Measure := _ => None;
    assert WordEnd("ab cd", 0) == 2;
    assert WordEnd("ab cd", 3) == 5;
    assert "ab cd"[0..2] == "ab" && "ab cd"[3..5] == "cd";
    assert "ab cd"[2] == ' ' && "ab cd"[3] == 'c' && !IsSpace('c');
    assert NextUnit("ab cd", 0, None, true) == Unit("ab", 2, Some("ab"), Some("ab"));
    assert NextUnit("ab cd", 2, Some("ab"), true) == Unit(" ", 3, Some("ab"), Some("ab"));
    assert NextUnit("ab cd", 3, Some("ab"), true) == Unit("cd", 5, Some("cd"), Some("cd"));
    assert Run("ab cd", 5, ["ab", "ab"], "cd", Some("cd"), true, 12, 10, none) == Going(["ab", "ab"], "cd");
    assert Run("ab cd", 3, ["ab"], "ab", Some("ab"), true, 12, 10, none) == Going(["ab", "ab"], "cd");
    assert Run("ab cd", 2, [], "ab", Some("ab"), true, 12, 10, none) == Going(["ab", "ab"], "cd");
    assert "" + "ab" == "ab";
    assert MeasuredPlace([], "", "ab", Some("ab"), none("ab"), 12, EstimateFits("ab", 10, 12)) == Going([], "ab");
  }

  /** The function as written duplicates a word: "ab cd" in a 12-pixel box at
      size 10, with every measurement failing, gives "ab", "ab", "cd", which
      no longer spells the text. */
  lemma StaleWordRepeats()
    ensures WrapForBoxAsWritten("ab cd", 12, 10, _ => None) == ["ab", "ab", "cd"]
    ensures Concat(WrapForBoxAsWritten("ab cd", 12, 10, _ => None)) != Without("ab cd", '\n')
  {
    assert "ab cd"[0] == 'a' && !IsSpace('a');
    StaleTrace();
    assert |Concat(["ab", "ab", "cd"])| == 6 by {
      assert Concat(["ab", "ab", "cd"]) == "ab" + Concat(["ab", "cd"]);
      assert Concat(["ab", "cd"]) == "ab" + Concat(["cd"]);
      assert Concat(["cd"]) == "cd" + Concat([]);
    }
    assert |Without("ab cd", '\n')| <= 5;
  }

  /** The run of the intended variant over the same input: the space that
      does not fit starts the next line itself. */
  lemma IntendedTrace()
    ensures Run("ab cd", 0, [], "", None, false, 12, 10, _ => None) == Going(["ab", " "], "cd")
  {
    var none: Measure := _ => None;
    assert WordEnd("ab cd", 0) == 2;
    assert WordEnd("ab cd", 3) == 5;
    assert "ab cd"[0..2] == "ab" && "ab cd"[3..5] == "cd";
    assert "ab cd"[2] == ' ' && "ab cd"[3] == 'c' && !IsSpace('c');
    assert NextUnit("ab cd", 0, None, false) == Unit("ab", 2, Some("ab"), Some("ab"));
    assert NextUnit("ab cd", 2, Some("ab"), false) == Unit(" ", 3, Some(" "), Some("ab"));
    assert NextUnit("ab cd", 3, Some("ab"), false) == Unit("cd", 5, Some("cd"), Some("cd"));
    assert Run("ab cd", 5, ["ab", " "], "cd", Some("cd"), false, 12, 10, none) == Going(["ab", " "], "cd");
    assert Run("ab cd", 3, ["ab"], " ", Some("ab"), false, 12, 10, none) == Going(["ab", " "], "cd");
    assert Run("ab cd", 2, [], "ab", Some("ab"), false, 12, 10, none) == Going(["ab", " "], "cd");
    assert "" + "ab" == "ab";
    assert MeasuredPlace([], "", "ab", Some("ab"), none("ab"), 12, EstimateFits("ab", 10, 12)) == Going([], "ab");
  }

  /** The same input under the intended behaviour keeps the space on a line
      of its own. */
  lemma IntendedKeepsSpace()
    ensures WrapForBox("ab cd", 12, 10, _ => None) == ["ab", " ", "cd"]
  {
    assert "ab cd"[0] == 'a' && !IsSpace('a');
    IntendedTrace();
  }

  /** A leading whitespace character that does not fit finds `word` unbound:
      the function as written gives up and returns the text as one line. */
  lemma UnboundWordGivesUp()
    ensures WrapForBoxAsWritten(" x", 5, 10, _ => None) == [" x"]
    ensures WrapForBox(" x", 5, 10, _ => None) == [" ", "x"]
  {
    var none: Measure := _ => None;
    assert " x"[1] == 'x' && !IsSpace('x');
    assert WordEnd(" x", 1) == 2;
    assert " x"[1..2] == "x";
    assert Run(" x", 0, [], "", None, true, 5, 10, none) == Aborted;
    assert NextUnit(" x", 0, None, true) == Unit(" ", 1, None, None);
    assert NextUnit(" x", 0, None, false) == Unit(" ", 1, Some(" "), None);
    assert NextUnit(" x", 1, None, false) == Unit("x", 2, Some("x"), Some("x"));
    assert Run(" x", 2, [" ", "x"], "", Some("x"), false, 5, 10, none) == Going([" ", "x"], "");
    assert Run(" x", 1, [" "], "", None, false, 5, 10, none) == Going([" ", "x"], "");
  }

  /** When the function as written gives up, a newline stays inside the one
      line it returns. */
  lemma GiveUpKeepsNewline()
    ensures WrapForBoxAsWritten(" \nx", 5, 10, _ => None) == [" \nx"]
    ensures '\n' in WrapForBoxAsWritten(" \nx", 5, 10, _ => None)[0]
  {
    var none: Measure := _ => None;
    assert " \nx"[2] == 'x' && !IsSpace('x');
    assert NextUnit(" \nx", 0, None, true) == Unit(" ", 1, None, None);
    assert Run(" \nx", 0, [], "", None, true, 5, 10, none) == Aborted;
    assert " \nx"[1] == '\n';
  }

  /** The placement of one unit (lines 78-104): the measured test, with the
      estimate as the fallback when measuring raises or the overflow reads
      an unbound `word`. */
  method PlaceUnit(lines: seq<string>, current: string, test: string, alt: Option<string>,
                   width: Option<real>, maxWidth: int, fontSize: int)
    returns (p: Progress)
    ensures p == MeasuredPlace(lines, current, test, alt, width, maxWidth, EstimateFits(test, fontSize, maxWidth))
  {
    var emitted := lines;
    if width.Some? {
      if width.value <= maxWidth as real {
        return Going(lines, test);
      } else if current != "" {
        emitted := lines + [current];
        if alt.Some? { return Going(emitted, alt.value); }
      } else if alt.Some? {
        return Going(lines + [alt.value], "");
      }
    }
    if EstimateFits(test, fontSize, maxWidth) {
      p := Going(emitted, test);
    } else if alt.None? {
      p := Aborted;
    } else if current != "" {
      p := Going(emitted + [current], alt.value);
    } else {
      p := Going(emitted + [alt.value], "");
    }
  }

  /** Reading one unit at `i` (lines 57-76): a Hangul or whitespace
      character alone, otherwise the inner loop collects the word, which
      becomes the new value of `word`. */
  method ReadUnit(text: string, i: nat, word: Option<string>) returns (u: Unit)
    requires i < |text| && text[i] != '\n'
    ensures u == NextUnit(text, i, word, true)
  {
    var c := text[i];
    if IsKorean(c) {
      return Unit([c], i + 1, Some([c]), word);
    } else if IsSpace(c) {
      return Unit([c], i + 1, word, word);
    }
    var j := i;
    var w := "";
    while j < |text| && !IsSpace(text[j]) && !IsKorean(text[j])
      invariant i <= j <= |text|
      invariant w == text[i..j]
      invariant forall k :: i <= k < j ==> IsWordChar(text[k])
      decreases |text| - j
    {
      w := w + [text[j]];
      j := j + 1;
    }
    assert j == WordEnd(text, i) by {
      WordEndUnique(text, i, j);
    }
    u := Unit(w, j, Some(w), Some(w));
  }

  /** The source loop, with its two exception handlers; it computes
      `WrapForBoxAsWritten`. */
  method WrapTextForBox(text: string, maxWidth: int, fontSize: int, measure: Measure) returns (lines: seq<string>)
    ensures lines == WrapForBoxAsWritten(text, maxWidth, fontSize, measure)
  {
    if IsBlank(text) {
      return [""];
    }
    lines := [];
    var current := "";
    var word: Option<string> := None;
    var i := 0;
    while i < |text|
      invariant 0 <= i <= |text|
      invariant Run(text, i, lines, current, word, true, maxWidth, fontSize, measure)
             == Run(text, 0, [], "", None, true, maxWidth, fontSize, measure)
      decreases |text| - i
    {
      if text[i] == '\n' {
        lines := lines + [current];
        current := "";
        i := i + 1;
        continue;
      }
      ghost var step := Run(text, i, lines, current, word, true, maxWidth, fontSize, measure);
      var u := ReadUnit(text, i, word);
      var test := current + u.piece;
      ghost var expected := MeasuredPlace(lines, current, test, u.alt, measure(test), maxWidth, EstimateFits(test, fontSize, maxWidth));
      assert step == match expected
                     case Aborted => Aborted
                     case Going(ls, cur) => Run(text, u.next, ls, cur, u.word, true, maxWidth, fontSize, measure);
      var p := PlaceUnit(lines, current, test, u.alt, measure(test), maxWidth, fontSize);
      if p.Aborted? {
        return [text];
      }
      lines, current, word, i := p.lines, p.current, u.word, u.next;
    }
    if current != "" {
      lines := lines + [current];
    }
    if lines == [] {
      lines := [text];
    }
  }
}
