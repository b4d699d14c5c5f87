/** The closed table of ANSI Select Graphic Rendition codes shared by all three ports
    (section 8.3.117 of ECMA-48): reset, six attributes, eight colours, eight bright colours
    and eight backgrounds, each an escape `ESC [ <parameter> m`. */
module Ansi {
  import opened Wrappers
  import opened Strings

  datatype Hue = Black | Red | Green | Yellow | Blue | Magenta | Cyan | White

  datatype Code =
    | Reset | Bold | Dim | Italic | Underline | Blink | Invert
    | Fg(hue: Hue) | BrightFg(hue: Hue) | Bg(hue: Hue)

  const Hues: seq<Hue> := [Black, Red, Green, Yellow, Blue, Magenta, Cyan, White]

  /** The table in the order the sources declare it. */
  const AllCodes: seq<Code> :=
    [Reset, Bold, Dim, Italic, Underline, Blink, Invert]
    + [Fg(Black), Fg(Red), Fg(Green), Fg(Yellow), Fg(Blue), Fg(Magenta), Fg(Cyan), Fg(White)]
    + [BrightFg(Black), BrightFg(Red), BrightFg(Green), BrightFg(Yellow),
       BrightFg(Blue), BrightFg(Magenta), BrightFg(Cyan), BrightFg(White)]
    + [Bg(Black), Bg(Red), Bg(Green), Bg(Yellow), Bg(Blue), Bg(Magenta), Bg(Cyan), Bg(White)]

  function HueDigit(h: Hue): char
  {
    match h
    case Black => '0' case Red => '1' case Green => '2' case Yellow => '3'
    case Blue => '4' case Magenta => '5' case Cyan => '6' case White => '7'
  }

  /** The SGR parameter: 0-7 for reset and attributes, 30-37, 90-97 and 40-47 for colours. */
  function Parameter(c: Code): string
  {
    match c
    case Reset => "0"
    case Bold => "1"
    case Dim => "2"
    case Italic => "3"
    case Underline => "4"
    case Blink => "5"
    case Invert => "7"
    case Fg(h) => ['3', HueDigit(h)]
    case BrightFg(h) => ['9', HueDigit(h)]
    case Bg(h) => ['4', HueDigit(h)]
  }

  const Esc: char := 27 as char

  function Escape(c: Code): string
  {
    [Esc, '['] + Parameter(c) + "m"
  }

  const ResetEscape: string := Escape(Reset)

  /** The codes' escapes concatenated in order (`codes.join('')`, `codes.concat()`). */
  function Concat(codes: seq<Code>): string
  {
    if codes == [] then "" else Concat(codes[..|codes| - 1]) + Escape(codes[|codes| - 1])
  }

  lemma ConcatAppend(codes: seq<Code>, c: Code)
    ensures Concat(codes + [c]) == Concat(codes) + Escape(c)
  {
    assert (codes + [c])[..|codes|] == codes;
  }

  /** The table is closed and has exactly 31 distinct entries. */
  lemma TableClosed(c: Code)
    ensures c in AllCodes
    ensures |AllCodes| == 31
  {
    match c
    case Fg(h) => assert AllCodes[7 + HueIndex(h)] == c;
    case BrightFg(h) => assert AllCodes[15 + HueIndex(h)] == c;
    case Bg(h) => assert AllCodes[23 + HueIndex(h)] == c;
    case _ =>
  }

  function HueIndex(h: Hue): (i: nat)
    ensures i < 8 && Hues[i] == h
  {
    match h
    case Black => 0 case Red => 1 case Green => 2 case Yellow => 3
    case Blue => 4 case Magenta => 5 case Cyan => 6 case White => 7
  }

  /** Distinct codes have distinct escapes, so an escape names its code. */
  lemma EscapeInjective(a: Code, b: Code)
    requires Escape(a) == Escape(b)
    ensures a == b
  {
    assert Parameter(a) == Escape(a)[2..|Escape(a)| - 1];
    assert Parameter(b) == Escape(b)[2..|Escape(b)| - 1];
    if a.Fg? || a.BrightFg? || a.Bg? {
      assert Parameter(a)[1] == Parameter(b)[1];
      HueDigitInjective(a.hue, b.hue);
    }
  }

  lemma HueDigitInjective(h: Hue, k: Hue)
    requires HueDigit(h) == HueDigit(k)
    ensures h == k
  {
  }

  lemma AllCodesDistinct()
    ensures forall i, j :: 0 <= i < j < |AllCodes| ==> AllCodes[i] != AllCodes[j]
  {
  }

  /** Removing SGR escapes: an ESC starts a sequence that runs through the next `m`. */
  function StripSgr(s: string): (r: string)
    decreases |s|
  {
    if s == [] then ""
    else if s[0] == Esc then StripSgr(AfterFinal(s[1..]))
    else [s[0]] + StripSgr(s[1..])
  }

  /** What follows the first `m` (the final byte of an SGR sequence). */
  function AfterFinal(s: string): (r: string)
    ensures |r| < |s| || s == r == []
  {
    if s == [] then [] else if s[0] == 'm' then s[1..] else AfterFinal(s[1..])
  }

  lemma {:induction false} AfterFinalDigits(digits: string, rest: string)
    requires forall i :: 0 <= i < |digits| ==> IsAsciiDigit(digits[i])
    ensures AfterFinal(digits + "m" + rest) == rest
  {
    if digits != [] {
      assert (digits + "m" + rest)[1..] == digits[1..] + "m" + rest;
      AfterFinalDigits(digits[1..], rest);
    }
  }

  lemma StripEscape(c: Code, rest: string)
    ensures StripSgr(Escape(c) + rest) == StripSgr(rest)
  {
    var s := Escape(c) + rest;
    var tail := Parameter(c) + "m" + rest;
    assert s[0] == Esc && s[1..] == ['['] + tail;
    assert (['['] + tail)[1..] == tail;
    AfterFinalDigits(Parameter(c), rest);
  }

  lemma {:induction false} StripCodes(codes: seq<Code>, rest: string)
    ensures StripSgr(Concat(codes) + rest) == StripSgr(rest)
  {
    if codes != [] {
      var init, last := codes[..|codes| - 1], codes[|codes| - 1];
      assert Concat(codes) == Concat(init) + Escape(last);
      assert Concat(codes) + rest == Concat(init) + (Escape(last) + rest);
      StripCodes(init, Escape(last) + rest);
      StripEscape(last, rest);
    } else {
      assert Concat(codes) + rest == rest;
    }
  }

  lemma {:induction false} StripPlain(text: string, rest: string)
    requires Esc !in text
    ensures StripSgr(text + rest) == text + StripSgr(rest)
  {
    if text != [] {
      assert text[0] in text;
      assert (text + rest)[0] == text[0] && (text + rest)[1..] == text[1..] + rest;
      assert Esc !in text[1..] by { assert forall x :: x in text[1..] ==> x in text; }
      StripPlain(text[1..], rest);
    } else {
      assert text + rest == rest;
    }
  }

  /** Styling text with any codes and a closing reset leaves the visible text intact. */
  lemma StyledTextVisible(codes: seq<Code>, text: string)
    requires Esc !in text
    ensures StripSgr(Concat(codes) + text + ResetEscape) == text
  {
    assert Concat(codes) + text + ResetEscape == Concat(codes) + (text + ResetEscape);
    StripCodes(codes, text + ResetEscape);
    StripPlain(text, ResetEscape);
    StripEscape(Reset, "");
    assert ResetEscape + "" == ResetEscape;
  }

  /** The lower-camel accessor name under which the TypeScript proxy and the C++ `Color`
      expose a code (`bold`, `red`, `brightRed`, `bgRed`, and `reset` on the proxy). */
  function AccessorName(c: Code): string
  {
    match c
    case Reset => "reset"
    case Bold => "bold"
    case Dim => "dim"
    case Italic => "italic"
    case Underline => "underline"
    case Blink => "blink"
    case Invert => "invert"
    case Fg(h) => HueName(h)
    case BrightFg(h) => "bright" + HueTitle(h)
    case Bg(h) => "bg" + HueTitle(h)
  }

  function HueName(h: Hue): string
  {
    match h
    case Black => "black" case Red => "red" case Green => "green" case Yellow => "yellow"
    case Blue => "blue" case Magenta => "magenta" case Cyan => "cyan" case White => "white"
  }

  function HueTitle(h: Hue): string
  {
    match h
    case Black => "Black" case Red => "Red" case Green => "Green" case Yellow => "Yellow"
    case Blue => "Blue" case Magenta => "Magenta" case Cyan => "Cyan" case White => "White"
  }

  /** The key of the TypeScript `ANSI` object (`RESET`, `RED`, `BRIGHT_RED`, `BG_RED`). */
  function ConstName(c: Code): string
  {
    match c
    case Reset => "RESET"
    case Bold => "BOLD"
    case Dim => "DIM"
    case Italic => "ITALIC"
    case Underline => "UNDERLINE"
    case Blink => "BLINK"
    case Invert => "INVERT"
    case Fg(h) => HueConst(h)
    case BrightFg(h) => "BRIGHT_" + HueConst(h)
    case Bg(h) => "BG_" + HueConst(h)
  }

  function HueConst(h: Hue): string
  {
    match h
    case Black => "BLACK" case Red => "RED" case Green => "GREEN" case Yellow => "YELLOW"
    case Blue => "BLUE" case Magenta => "MAGENTA" case Cyan => "CYAN" case White => "WHITE"
  }

  /** The snake-case style name of the Rust `color!` macro (`red`, `bright_red`, `bg_red`). */
  function SnakeName(c: Code): string
  {
    match c
    case Reset => "reset"
    case Bold => "bold"
    case Dim => "dim"
    case Italic => "italic"
    case Underline => "underline"
    case Blink => "blink"
    case Invert => "invert"
    case Fg(h) => HueName(h)
    case BrightFg(h) => "bright_" + HueName(h)
    case Bg(h) => "bg_" + HueName(h)
  }

  /** Hue names are lower-case ASCII words of three letters or more; the two that start with
      `b` continue with `l`. */
  lemma HueNameLetters(h: Hue)
    ensures |HueName(h)| >= 3
    ensures forall i :: 0 <= i < |HueName(h)| ==> 'a' <= HueName(h)[i] <= 'z'
    ensures HueName(h)[0] == 'b' ==> HueName(h)[1] == 'l'
  {
  }

  /** The hue whose name (`red`) is s. */
  function HueOfName(s: string): (r: Option<Hue>)
    ensures r.Some? ==> HueName(r.value) == s
  {
    if s == "black" then Some(Black) else if s == "red" then Some(Red)
    else if s == "green" then Some(Green) else if s == "yellow" then Some(Yellow)
    else if s == "blue" then Some(Blue) else if s == "magenta" then Some(Magenta)
    else if s == "cyan" then Some(Cyan) else if s == "white" then Some(White)
    else None
  }

  /** The hue whose title-case name (`Red`) is s. */
  function HueOfTitle(s: string): (r: Option<Hue>)
    ensures r.Some? ==> HueTitle(r.value) == s
  {
    if s == "Black" then Some(Black) else if s == "Red" then Some(Red)
    else if s == "Green" then Some(Green) else if s == "Yellow" then Some(Yellow)
    else if s == "Blue" then Some(Blue) else if s == "Magenta" then Some(Magenta)
    else if s == "Cyan" then Some(Cyan) else if s == "White" then Some(White)
    else None
  }

  /** The hue whose constant name (`RED`) is s. */
  function HueOfConst(s: string): (r: Option<Hue>)
    ensures r.Some? ==> HueConst(r.value) == s
  {
    if s == "BLACK" then Some(Black) else if s == "RED" then Some(Red)
    else if s == "GREEN" then Some(Green) else if s == "YELLOW" then Some(Yellow)
    else if s == "BLUE" then Some(Blue) else if s == "MAGENTA" then Some(Magenta)
    else if s == "CYAN" then Some(Cyan) else if s == "WHITE" then Some(White)
    else None
  }

  lemma HueOfNames(h: Hue)
    ensures HueOfName(HueName(h)) == Some(h)
    ensures HueOfTitle(HueTitle(h)) == Some(h)
    ensures HueOfConst(HueConst(h)) == Some(h)
  {
  }
}
