/** The paragraph and word line breaker `wrap_text_for_overlay_safe_word`:
    the text is cut at '\n' into paragraphs, a blank paragraph becomes one
    empty line, and the words of every other paragraph are packed greedily,
    joined by single spaces, as long as the measured width stays within the
    box. */
module WordWrap {
  import opened Text

  /** The width test of lines 162-171: the measured width, or the
      character-count estimate when measuring raises. */
  predicate Fits(measure: Measure, s: string, size: int, maxWidth: int) {
    match measure(s)
    case Some(w) => w <= maxWidth as real
    case None => EstimateFits(s, size, maxWidth)
  }

  /** The inner loop over the words of one paragraph, from the emitted
      `lines` and the line being built, followed by the final flush. */
  function Group(words: seq<string>, lines: seq<string>, current: string,
                 maxWidth: int, size: int, measure: Measure): seq<string>
    decreases |words|
  {
    if words == [] then (if current != "" then lines + [current] else lines)
    else
      var w := words[0];
      var test := current + (if current != "" then " " else "") + w;
      if Fits(measure, test, size, maxWidth) then Group(words[1..], lines, test, maxWidth, size, measure)
      else if current != "" then Group(words[1..], lines + [current], w, maxWidth, size, measure)
      else Group(words[1..], lines + [w], "", maxWidth, size, measure)
  }

  /** The lines of one paragraph. */
  function ParagraphLines(p: string, maxWidth: int, size: int, measure: Measure): seq<string>
  {
    if IsBlank(p) then [""] else Group(Words(p), [], "", maxWidth, size, measure)
  }

  /** The lines of a sequence of paragraphs, in order. */
  function AllLines(ps: seq<string>, maxWidth: int, size: int, measure: Measure): seq<string>
  {
    if ps == [] then [] else ParagraphLines(ps[0], maxWidth, size, measure) + AllLines(ps[1..], maxWidth, size, measure)
  }

  /** `wrap_text_for_overlay_safe_word`, with the width clamped to at least 20
      and the size to at least 6. */
  function WrapWord(text: string, maxWidth: int, size: int, measure: Measure): (r: seq<string>)
    ensures r != []
    ensures IsBlank(text) ==> r == [""]
    ensures !IsBlank(text) ==> |r| >= |SplitOn(text, '\n')| && forall l :: l in r ==> '\n' !in l
  {
    if IsBlank(text) then [""]
    else
      var ls := AllLines(SplitOn(text, '\n'), Max(20, maxWidth), Max(6, size), measure);
      AllLinesFacts(SplitOn(text, '\n'), Max(20, maxWidth), Max(6, size), measure);
      if ls == [] then [text] else ls
  }

  /** A line is well formed when it is non-empty, holds no newline, and, when
      it holds two or more words, passes the width test. */
  predicate WellFormed(l: string, maxWidth: int, size: int, measure: Measure) {
    l != "" && '\n' !in l && (' ' in l ==> Fits(measure, l, size, maxWidth))
  }

  /** A word as `split()` yields it: non-empty, no whitespace. */
  predicate IsWord(w: string) {
    w != "" && forall k :: 0 <= k < |w| ==> !IsSpace(w[k])
  }

  lemma JoinCons(a: string, rest: seq<string>, sep: string)
    requires rest != []
    ensures Join([a] + rest, sep) == a + sep + Join(rest, sep)
  {
    assert ([a] + rest)[1..] == rest;
  }

  /** Joining `x + sep + y` as one part is joining `x` and `y` as two. */
  lemma {:induction false} JoinMerge(front: seq<string>, x: string, y: string, back: seq<string>, sep: string)
    ensures Join(front + [x + sep + y] + back, sep) == Join(front + [x, y] + back, sep)
  {
    if front == [] {
      assert front + [x + sep + y] + back == [x + sep + y] + back;
      assert front + [x, y] + back == [x] + ([y] + back);
      JoinCons(x, [y] + back, sep);
      if back != [] {
        JoinCons(x + sep + y, back, sep);
        JoinCons(y, back, sep);
      }
    } else {
      assert front + [x + sep + y] + back == [front[0]] + (front[1..] + [x + sep + y] + back);
      assert front + [x, y] + back == [front[0]] + (front[1..] + [x, y] + back);
      JoinCons(front[0], front[1..] + [x + sep + y] + back, sep);
      JoinCons(front[0], front[1..] + [x, y] + back, sep);
      JoinMerge(front[1..], x, y, back, sep);
    }
  }

  /** The greedy packing keeps every line well formed and emits at least one
      line once it has anything to emit. */
  lemma {:induction false} GroupWellFormed(words: seq<string>, lines: seq<string>, current: string,
                                           maxWidth: int, size: int, measure: Measure)
    requires forall w :: w in words ==> IsWord(w)
    requires forall l :: l in lines ==> WellFormed(l, maxWidth, size, measure)
    requires '\n' !in current && (' ' in current ==> Fits(measure, current, size, maxWidth))
    ensures var g := Group(words, lines, current, maxWidth, size, measure);
            (forall l :: l in g ==> WellFormed(l, maxWidth, size, measure)) &&
            |g| >= |lines| + (if current != "" || words != [] then 1 else 0)
    decreases |words|
  {
    if words != [] {
      var w := words[0];
      assert IsWord(w);
      assert '\n' !in w && ' ' !in w by {
        forall k | 0 <= k < |w| ensures w[k] != '\n' && w[k] != ' ' {
          assert !IsSpace(w[k]);
        }
      }
      var test := current + (if current != "" then " " else "") + w;
      if Fits(measure, test, size, maxWidth) {
        GroupWellFormed(words[1..], lines, test, maxWidth, size, measure);
      } else if current != "" {
        GroupWellFormed(words[1..], lines + [current], w, maxWidth, size, measure);
      } else {
        GroupWellFormed(words[1..], lines + [w], "", maxWidth, size, measure);
      }
    }
  }

  /** The emitted lines followed by the line being built, if any. */
  function Pending(lines: seq<string>, current: string): seq<string>
  {
    if current == "" then lines else lines + [current]
  }

  /** The three ways a word moves from the input to the pending lines. */
  lemma PendingShift(lines: seq<string>, current: string, w: string, rest: seq<string>)
    requires w != ""
    ensures current == "" ==> Pending(lines, w) + rest == Pending(lines, current) + ([w] + rest)
    ensures current == "" ==> Pending(lines + [w], "") + rest == Pending(lines, current) + ([w] + rest)
    ensures current != "" ==> Pending(lines + [current], w) + rest == Pending(lines, current) + ([w] + rest)
    ensures current != "" ==> lines + [current, w] + rest == Pending(lines, current) + ([w] + rest)
  {
  }

  /** The greedy packing loses, repeats and reorders no word: joining its lines
      with spaces is joining the words with spaces. */
  lemma {:induction false} GroupKeepsWords(words: seq<string>, lines: seq<string>, current: string,
                                           maxWidth: int, size: int, measure: Measure)
    requires forall k :: 0 <= k < |words| ==> words[k] != ""
    ensures Join(Group(words, lines, current, maxWidth, size, measure), " ")
         == Join(Pending(lines, current) + words, " ")
    decreases |words|
  {
    if words == [] {
      assert Pending(lines, current) + words == Pending(lines, current);
    } else {
      var w, rest := words[0], words[1..];
      assert words == [w] + rest;
      assert forall k :: 0 <= k < |rest| ==> rest[k] == words[k + 1];
      PendingShift(lines, current, w, rest);
      var test := current + (if current != "" then " " else "") + w;
      if Fits(measure, test, size, maxWidth) {
        GroupKeepsWords(rest, lines, test, maxWidth, size, measure);
        if current == "" {
          assert test == w;
        } else {
          JoinMerge(lines, current, w, rest, " ");
        }
      } else if current != "" {
        GroupKeepsWords(rest, lines + [current], w, maxWidth, size, measure);
      } else {
        GroupKeepsWords(rest, lines + [w], "", maxWidth, size, measure);
      }
    }
  }

  /** The packing only appends to the lines it was given. */
  lemma {:induction false} GroupAppends(words: seq<string>, front: seq<string>, lines: seq<string>, current: string,
                                        maxWidth: int, size: int, measure: Measure)
    ensures Group(words, front + lines, current, maxWidth, size, measure)
         == front + Group(words, lines, current, maxWidth, size, measure)
    decreases |words|
  {
    if words == [] {
    } else {
      var w := words[0];
      var test := current + (if current != "" then " " else "") + w;
      if Fits(measure, test, size, maxWidth) {
        GroupAppends(words[1..], front, lines, test, maxWidth, size, measure);
      } else if current != "" {
        assert front + lines + [current] == front + (lines + [current]);
        GroupAppends(words[1..], front, lines + [current], w, maxWidth, size, measure);
      } else {
        assert front + lines + [w] == front + (lines + [w]);
        GroupAppends(words[1..], front, lines + [w], "", maxWidth, size, measure);
      }
    }
  }

  /** Lines 153-156 and 159-185 for one paragraph: a blank paragraph gives
      exactly one empty line; any other gives well-formed lines whose words,
      joined by single spaces, are the paragraph's words in order. */
  lemma ParagraphFacts(p: string, maxWidth: int, size: int, measure: Measure)
    ensures IsBlank(p) ==> ParagraphLines(p, maxWidth, size, measure) == [""]
    ensures !IsBlank(p) ==>
              var ls := ParagraphLines(p, maxWidth, size, measure);
              ls != [] && (forall l :: l in ls ==> WellFormed(l, maxWidth, size, measure)) &&
              Join(ls, " ") == Join(Words(p), " ")
  {
    if !IsBlank(p) {
      GroupWellFormed(Words(p), [], "", maxWidth, size, measure);
      GroupKeepsWords(Words(p), [], "", maxWidth, size, measure);
      assert Pending([], "") + Words(p) == Words(p);
    }
  }

  /** Every paragraph contributes at least one line, and no line holds a
      newline when no paragraph does. */
  lemma {:induction false} AllLinesFacts(ps: seq<string>, maxWidth: int, size: int, measure: Measure)
    requires forall p :: p in ps ==> '\n' !in p
    ensures var ls := AllLines(ps, maxWidth, size, measure);
            |ls| >= |ps| && forall l :: l in ls ==> '\n' !in l
  {
    if ps != [] {
      ParagraphFacts(ps[0], maxWidth, size, measure);
      AllLinesFacts(ps[1..], maxWidth, size, measure);
    }
  }

  /** One more paragraph of the packing loop. */
  lemma AllLinesAt(ps: seq<string>, k: nat, done: seq<string>, maxWidth: int, size: int, measure: Measure)
    requires k < |ps|
    requires done + AllLines(ps[k..], maxWidth, size, measure) == AllLines(ps, maxWidth, size, measure)
    ensures done + ParagraphLines(ps[k], maxWidth, size, measure) + AllLines(ps[k + 1..], maxWidth, size, measure)
         == AllLines(ps, maxWidth, size, measure)
  {
    assert ps[k..][1..] == ps[k + 1..];
    var step := ParagraphLines(ps[k], maxWidth, size, measure);
    var rest := AllLines(ps[k + 1..], maxWidth, size, measure);
    assert AllLines(ps[k..], maxWidth, size, measure) == step + rest;
    assert done + step + rest == done + (step + rest);
  }

  /** The inner loop of the source function (lines 159-185): pack the words
      of one paragraph onto the end of `lines`. */
  method PackWords(words: seq<string>, lines: seq<string>, width: int, size: int, measure: Measure)
    returns (out: seq<string>)
    ensures out == lines + Group(words, [], "", width, size, measure)
  {
    out := lines;
    var current := "";
    for j := 0 to |words|
      invariant Group(words[j..], out, current, width, size, measure)
             == Group(words, lines, "", width, size, measure)
    {
      var word := words[j];
      assert words[j..][1..] == words[j + 1..];
      var test := current + (if current != "" then " " else "") + word;
      if Fits(measure, test, size, width) {
        current := test;
      } else if current != "" {
        out := out + [current];
        current := word;
      } else {
        out := out + [word];
        current := "";
      }
    }
    assert words[|words|..] == [];
    if current != "" {
      out := out + [current];
    }
    GroupAppends(words, lines, [], "", width, size, measure);
    assert lines + [] == lines;
  }

  /** One pass of the outer loop (lines 152-187): a blank paragraph adds an
      empty line, any other has its words packed. */
  method PackParagraph(paragraph: string, lines: seq<string>, width: int, size: int, measure: Measure)
    returns (out: seq<string>)
    ensures out == lines + ParagraphLines(paragraph, width, size, measure)
  {
    if IsBlank(paragraph) {
      out := lines + [""];
    } else {
      out := PackWords(Words(paragraph), lines, width, size, measure);
    }
  }

  /** The loop over the paragraphs (lines 149-187): the lines of every
      paragraph, in order. */
  method PackParagraphs(paragraphs: seq<string>, width: int, size: int, measure: Measure)
    returns (lines: seq<string>)
    ensures lines == AllLines(paragraphs, width, size, measure)
  {
    lines := [];
    assert paragraphs[0..] == paragraphs;
    for k := 0 to |paragraphs|
      invariant lines + AllLines(paragraphs[k..], width, size, measure) == AllLines(paragraphs, width, size, measure)
    {
      AllLinesAt(paragraphs, k, lines, width, size, measure);
      lines := PackParagraph(paragraphs[k], lines, width, size, measure);
    }
    assert paragraphs[|paragraphs|..] == [];
    assert lines + [] == lines;
  }

  /** The source function: it computes `WrapWord`. */
  method WrapTextForOverlaySafeWord(text: string, maxWidth: int, fontSize: int, measure: Measure)
    returns (lines: seq<string>)
    ensures lines == WrapWord(text, maxWidth, fontSize, measure)
  {
    if IsBlank(text) {
      return [""];
    }
    lines := PackParagraphs(SplitOn(text, '\n'), Max(20, maxWidth), Max(6, fontSize), measure);
    if lines == [] {
      lines := [text];
    }
  }
}
