/** The text-colour button: `apply_default_color_to_button` writes the
    default BGR colour into the button's style sheet as `#rrggbb`, and
    `get_current_color` reads it back from the style sheet. */
module ColorHex {
  import opened Text
  import opened Region
  import Numerals

  /** A lower-case hexadecimal digit, as `format(n, "x")` writes it. */
  function HexDigit(d: nat): (c: char)
    requires d < 16
    ensures HexValue(c) == Some(d)
  {
    if d < 10 then (('0' as int) + d) as char else (('a' as int) + d - 10) as char
  }

  /** The value of a hexadecimal digit in either case, as `int(_, 16)` reads it. */
  function HexValue(c: char): (v: Option<nat>)
    ensures v.Some? ==> v.value < 16
  {
    if '0' <= c <= '9' then Some((c as int) - ('0' as int))
    else if 'a' <= c <= 'f' then Some((c as int) - ('a' as int) + 10)
    else if 'A' <= c <= 'F' then Some((c as int) - ('A' as int) + 10)
    else None
  }

  /** The hexadecimal digits of `n`, without leading zeros. */
  function NatToHex(n: nat): (s: string)
    ensures s != []
    ensures n < 16 ==> s == [HexDigit(n)]
  {
    if n < 16 then [HexDigit(n)] else NatToHex(n / 16) + [HexDigit(n % 16)]
  }

  /** `f"{n:02x}"`: at least two characters, zero-padded after the sign. */
  function Hex02(n: int): (s: string)
    ensures 0 <= n < 256 ==> |s| == 2 && HexValue(s[0]) == Some(n / 16) && HexValue(s[1]) == Some(n % 16)
  {
    if n < 0 then "-" + NatToHex(-n)
    else if n < 16 then ['0'] + NatToHex(n)
    else
      assert n / 16 < 16 ==> NatToHex(n) == [HexDigit(n / 16)] + [HexDigit(n % 16)];
      NatToHex(n)
  }

  /** `(r + g + b) // 3`, with Python's floor division. */
  function Lightness(c: Bgr): int
  {
    (c.r + c.g + c.b) / 3
  }

  /** The style sheet `apply_default_color_to_button` sets: the colour as
      `#rrggbb` (RGB order) and white text on dark colours. */
  function ButtonStyle(c: Bgr): string
  {
    StylePrefix() + "#" + (Hex02(c.r) + Hex02(c.g) + Hex02(c.b)) + StyleTail(c)
  }

  /** The declarations after the background colour: white text on dark
      colours, black text otherwise, and the fixed border and size. */
  function StyleTail(c: Bgr): (t: string)
    ensures t != [] && t[0] == ';'
  {
    [';'] + "\n" + Indent(16) + "color: " + (if Lightness(c) < 128 then "white" else "black") + ";\n"
      + Indent(16) + "border: 1px solid #ccc;\n"
      + Indent(16) + "border-radius: 3px;\n"
      + Indent(16) + "width: 30px;\n"
      + Indent(16) + "height: 25px;\n"
      + Indent(12) + "}\n" + Indent(8)
  }

  /** The style sheet up to the colour value. */
  function StylePrefix(): string
  {
    "\n" + Indent(12) + "QPushButton {\n" + Indent(16) + "background-color: "
  }

  /** `n` spaces of indentation inside the style sheet's text. */
  function Indent(n: nat): (t: string)
    ensures |t| == n && forall k :: 0 <= k < n ==> t[k] == ' '
  {
    if n == 0 then "" else " " + Indent(n - 1)
  }

  function Property(): string
  {
    "background-color:"
  }

  /** `pat` occurs in `s` at position `k`. */
  predicate Occurs(s: string, pat: string, k: nat) {
    k + |pat| <= |s| && s[k..k + |pat|] == pat
  }

  /** The first index at or after `i` where `pat` occurs in `s`, or `|s|`. */
  function FindText(s: string, pat: string, i: nat): (j: nat)
    requires i <= |s|
    ensures i <= j <= |s|
    ensures j < |s| ==> Occurs(s, pat, j)
    ensures forall k :: i <= k < j ==> !Occurs(s, pat, k)
    decreases |s| - i
  {
    if i == |s| || Occurs(s, pat, i) then i else FindText(s, pat, i + 1)
  }

  /** `s.lstrip(c)`. */
  function LStrip(s: string, c: char): (r: string)
    ensures |r| <= |s|
  {
    if s != [] && s[0] == c then LStrip(s[1..], c) else s
  }

  /** Python's `s[i:j]` for `0 <= i <= j`, clamped to the string. */
  function Slice(s: string, i: nat, j: nat): string
    requires i <= j
  {
    if j <= |s| then s[i..j] else if i <= |s| then s[i..] else []
  }

  /** `int(s, 16)` for a string of at most two characters: surrounding
      whitespace, an optional sign and one or two hexadecimal digits;
      anything else raises `ValueError`, here `None`. */
  function ParseHex(s: string): (v: Option<int>)
  {
    var t := Strip(s);
    if t == [] then None
    else
      var negative := t[0] == '-';
      var digits := if t[0] == '-' || t[0] == '+' then t[1..] else t;
      if |digits| == 1 && HexValue(digits[0]).Some? then
        var v: int := HexValue(digits[0]).value;
        Some(if negative then -v else v)
      else if |digits| == 2 && HexValue(digits[0]).Some? && HexValue(digits[1]).Some? then
        var v: int := HexValue(digits[0]).value * 16 + HexValue(digits[1]).value;
        Some(if negative then -v else v)
      else None
  }

  /** The colour value of `get_current_color`: the text after the first
      `background-color:` up to the next one, cut at the first ';' and
      stripped. */
  function ColorValue(rest: string): string
  {
    var piece := rest[..FindText(rest, Property(), 0)];
    Strip(piece[..FindFrom(piece, ';', 0)])
  }

  /** `rrggbb` read as three hexadecimal pairs, returned in BGR order. */
  function ReadHex(hex: string): Option<Bgr>
  {
    match (ParseHex(Slice(hex, 0, 2)), ParseHex(Slice(hex, 2, 4)), ParseHex(Slice(hex, 4, 6)))
    case (Some(r), Some(g), Some(b)) => Some(Bgr(b, g, r))
    case _ => None
  }

  /** `get_current_color`: a value starting with '#' is read as `rrggbb`,
      any other value, or a style without `background-color:`, gives black.
      `None` is the `ValueError` of a malformed hexadecimal pair. */
  function CurrentColor(style: string): (c: Option<Bgr>)
    ensures FindText(style, Property(), 0) == |style| ==> c == Some(Bgr(0, 0, 0))
  {
    var a := FindText(style, Property(), 0);
    if a == |style| then Some(Bgr(0, 0, 0))
    else
      var value := ColorValue(style[a + |Property()|..]);
      if value == [] || value[0] != '#' then Some(Bgr(0, 0, 0))
      else ReadHex(LStrip(value, '#'))
  }

  // Lemmas

  /** The two digits `Hex02` writes read back as the component. */
  lemma Hex02RoundTrip(n: int)
    requires 0 <= n < 256
    ensures ParseHex(Hex02(n)) == Some(n)
  {
    var s := Hex02(n);
    assert !IsSpace(s[0]) && !IsSpace(s[1]);
    Numerals.StripUnchanged(s);
    assert s[0] != '-' && s[0] != '+';
  }

  /** A style sheet that never mentions `background-color:` gives black, as
      the initial style does. */
  lemma InitialStyleIsBlack(style: string)
    requires forall k :: 0 <= k < |style| ==> !Occurs(style, Property(), k)
    ensures CurrentColor(style) == Some(Bgr(0, 0, 0))
  {
  }

  /** The property name first occurs after a lead-in without a 'b'. */
  lemma FirstAfter(style: string, lead: string, rest: string)
    requires style == lead + Property() + rest && 'b' !in lead
    ensures FindText(style, Property(), 0) == |lead|
    ensures style[|lead| + |Property()|..] == rest
  {
    assert style[|lead|..|lead| + |Property()|] == Property();
    forall k | 0 <= k < |lead| ensures !Occurs(style, Property(), k) {
      assert style[k] == lead[k];
      if k + |Property()| <= |style| {
        assert style[k..k + |Property()|][0] == style[k];
      }
    }
    FindTextIs(style, Property(), 0, |lead|);
  }

  /** `FindText` stops at the first occurrence. */
  lemma {:induction false} FindTextIs(s: string, pat: string, i: nat, j: nat)
    requires i <= j < |s| && Occurs(s, pat, j)
    requires forall k :: i <= k < j ==> !Occurs(s, pat, k)
    ensures FindText(s, pat, i) == j
    decreases j - i
  {
    if i < j {
      FindTextIs(s, pat, i + 1, j);
    }
  }

  /** A value followed by ';' is cut there, whatever comes after. */
  lemma ValueBeforeSemicolon(rest: string, value: string, tail: string)
    requires rest == value + tail && tail != [] && tail[0] == ';' && ';' !in value
    requires |value| < |Property()|
    ensures ColorValue(rest) == Strip(value)
  {
    var f := FindText(rest, Property(), 0);
    SemicolonBlocks(rest, |value|);
    var piece := rest[..f];
    assert piece[|value|] == ';';
    assert FindFrom(piece, ';', 0) == |value| by {
      forall k | 0 <= k < |value| ensures piece[k] != ';' {
        assert piece[k] == value[k];
      }
    }
    assert piece[..|value|] == value;
  }

  /** The property name has no ';', so it does not occur across one. */
  lemma SemicolonBlocks(s: string, j: nat)
    requires j < |s| && s[j] == ';'
    ensures forall f: nat :: f <= j < f + |Property()| ==> !Occurs(s, Property(), f)
  {
    forall f: nat | f <= j < f + |Property()|
      ensures !Occurs(s, Property(), f)
    {
      if f + |Property()| <= |s| {
        assert s[f..f + |Property()|][j - f] == ';';
      }
    }
  }

  /** A value that does not start with '#', such as a colour name, gives
      black, whatever precedes the property and follows the ';'. */
  lemma NamedColorIsBlack(lead: string, value: string, tail: string)
    requires 'b' !in lead && ';' !in value && |value| < |Property()|
    requires tail != [] && tail[0] == ';'
    requires Strip(value) == [] || Strip(value)[0] != '#'
    ensures CurrentColor(lead + Property() + (value + tail)) == Some(Bgr(0, 0, 0))
  {
    FirstAfter(lead + Property() + (value + tail), lead, value + tail);
    ValueBeforeSemicolon(value + tail, value, tail);
  }

  /** The fixed prefix is a lead-in without 'b', the property name and a space. */
  lemma PrefixSplit()
    ensures StylePrefix() == Lead() + Property() + " "
    ensures 'b' !in Lead()
  {
    var q := "QPushButton {\n";
    assert 'b' !in q;
    assert Lead() == "\n" + Indent(12) + q + Indent(16);
  }

  /** The style sheet's text before the property name. */
  function Lead(): string
  {
    "\n" + Indent(12) + "QPushButton {\n" + Indent(16)
  }

  /** Reading the button style back gives the colour written into it, for
      every component in 0..255. */
  lemma ColorRoundTrip(c: Bgr)
    requires 0 <= c.b < 256 && 0 <= c.g < 256 && 0 <= c.r < 256
    ensures CurrentColor(ButtonStyle(c)) == Some(c)
  {
    var hex := Hex02(c.r) + Hex02(c.g) + Hex02(c.b);
    var tail := StyleTail(c);
    PrefixSplit();
    assert ButtonStyle(c) == Lead() + Property() + ((" #" + hex) + tail);
    SixDigits(c);
    HexValueRead(Lead(), hex, tail);
    ReadSixDigits(c);
  }

  /** A '#' value of six hexadecimal digits followed by ';' is read as those
      digits. */
  lemma HexValueRead(lead: string, hex: string, tail: string)
    requires 'b' !in lead && tail != [] && tail[0] == ';'
    requires |hex| == 6 && forall k :: 0 <= k < 6 ==> HexValue(hex[k]).Some?
    ensures CurrentColor(lead + Property() + ((" #" + hex) + tail)) == ReadHex(hex)
  {
    var value := " #" + hex;
    FirstAfter(lead + Property() + (value + tail), lead, value + tail);
    assert ';' !in value by {
      forall k | 2 <= k < 8 ensures value[k] != ';' {
        assert value[k] == hex[k - 2];
      }
    }
    ValueBeforeSemicolon(value + tail, value, tail);
    HexAfterSpace(hex);
  }

  /** The six digits of a colour are hexadecimal and split into the three
      pairs. */
  lemma SixDigits(c: Bgr)
    requires 0 <= c.b < 256 && 0 <= c.g < 256 && 0 <= c.r < 256
    ensures var hex := Hex02(c.r) + Hex02(c.g) + Hex02(c.b);
      |hex| == 6 && (forall k :: 0 <= k < 6 ==> HexValue(hex[k]).Some?) &&
      hex[0..2] == Hex02(c.r) && hex[2..4] == Hex02(c.g) && hex[4..6] == Hex02(c.b)
  {
    var hex := Hex02(c.r) + Hex02(c.g) + Hex02(c.b);
    assert hex[0..2] == Hex02(c.r) && hex[2..4] == Hex02(c.g) && hex[4..6] == Hex02(c.b);
    forall k | 0 <= k < 6 ensures HexValue(hex[k]).Some? {
      if k < 2 { assert hex[k] == Hex02(c.r)[k]; }
      else if k < 4 { assert hex[k] == Hex02(c.g)[k - 2]; }
      else { assert hex[k] == Hex02(c.b)[k - 4]; }
    }
  }

  /** The six digits read back, pair by pair, as the colour's components. */
  lemma ReadSixDigits(c: Bgr)
    requires 0 <= c.b < 256 && 0 <= c.g < 256 && 0 <= c.r < 256
    ensures ReadHex(Hex02(c.r) + Hex02(c.g) + Hex02(c.b)) == Some(c)
  {
    var hex := Hex02(c.r) + Hex02(c.g) + Hex02(c.b);
    SixDigits(c);
    assert Slice(hex, 0, 2) == Hex02(c.r);
    assert Slice(hex, 2, 4) == Hex02(c.g);
    assert Slice(hex, 4, 6) == Hex02(c.b);
    Hex02RoundTrip(c.r);
    Hex02RoundTrip(c.g);
    Hex02RoundTrip(c.b);
  }

  /** The stripped value is `#` and the six digits; `lstrip` then leaves the
      digits. */
  lemma HexAfterSpace(hex: string)
    requires |hex| == 6 && forall k :: 0 <= k < 6 ==> HexValue(hex[k]).Some?
    ensures Strip(" #" + hex) == "#" + hex
    ensures LStrip("#" + hex, '#') == hex
  {
    var value := " #" + hex;
    assert SkipSpaces(value, 0) == 1;
    assert value[7] == hex[5];
    assert TrimEnd(value, 8) == 8;
    assert value[1..8] == "#" + hex;
    assert ("#" + hex)[1..] == hex;
    assert HexValue(hex[0]).Some?;
  }
}
