/** The `Color` builder and the `color!` macro of the Rust port
    (other_languages/rust/src/lib.rs). */
module RustColor {
  import opened Wrappers
  import opened Strings
  import opened Ansi

  /** A `Color`: the codes pushed so far, in order. */
  datatype Color = Color(codes: seq<Code>)

  /** `Color::new()`. */
  const New: Color := Color([])

  /** `apply` (and `paint`): the text alone when there are no codes, otherwise the codes, the
      text and a reset. */
  function Apply(color: Color, text: string): string
  {
    if color.codes == [] then text else Concat(color.codes) + text + ResetEscape
  }

  /** `add_style`: a copy with one more code. */
  function AddStyle(color: Color, code: Code): Color
  {
    Color(color.codes + [code])
  }

  /** The codes reachable through a builder method (`bold` ... `invert`, `fg_*`, `bg_*`). */
  predicate BuilderCode(code: Code)
  {
    !(code.Reset? || code.BrightFg?)
  }

  /** The codes reachable through a painting method (`black(text)` ... `bright_white(text)`). */
  predicate PainterCode(code: Code)
  {
    code.Fg? || code.BrightFg?
  }

  /** A builder method: `bold()`, `fg_red()`, `bg_red()` and the rest. */
  function Builder(color: Color, code: Code): Color
    requires BuilderCode(code)
  {
    AddStyle(color, code)
  }

  /** A painting method: `red(text)`, `bright_red(text)` and the rest add the colour and apply. */
  function Painter(color: Color, code: Code, text: string): string
    requires PainterCode(code)
  {
    Apply(AddStyle(color, code), text)
  }

  /** One style name of the `color!` macro: the codes it knows, under their snake-case names
      (`bright_red`, `bg_red`); reset is not among them. */
  function MacroEntry(name: string): Option<Code>
  {
    if name == "bold" then Some(Bold)
    else if name == "dim" then Some(Dim)
    else if name == "italic" then Some(Italic)
    else if name == "underline" then Some(Underline)
    else if name == "blink" then Some(Blink)
    else if name == "invert" then Some(Invert)
    else if |name| > 7 && name[..7] == "bright_" then
      var h := HueOfName(name[7..]);
      if h.Some? then Some(BrightFg(h.value)) else None
    else if |name| > 3 && name[..3] == "bg_" then
      var h := HueOfName(name[3..]);
      if h.Some? then Some(Bg(h.value)) else None
    else
      var h := HueOfName(name);
      if h.Some? then Some(Fg(h.value)) else None
  }

  /** The escape a style name pushes: the code's, or "" for a name the macro does not know. */
  function MacroPiece(name: string): string
  {
    var code := MacroEntry(name);
    if code.Some? then Escape(code.value) else ""
  }

  /** The concatenated pieces of the style names. */
  function MacroPieces(styles: seq<string>): string
    decreases |styles|
  {
    if styles == [] then "" else MacroPieces(styles[..|styles| - 1]) + MacroPiece(styles[|styles| - 1])
  }

  /** `color!(s1, ..., sn text)`: the pieces, the text and a reset, always. */
  function Macro(styles: seq<string>, text: string): string
  {
    MacroPieces(styles) + text + ResetEscape
  }

  lemma EntryOfHue(h: Hue)
    ensures MacroEntry(HueName(h)) == Some(Fg(h))
  {
    var name := HueName(h);
    HueNameLetters(h);
    HueOfNames(h);
    assert name[..3][2] == name[2];
    match h
    case Black => case Red => case Green => case Yellow =>
    case Blue => case Magenta => case Cyan => case White =>
  }

  lemma EntryOfBright(h: Hue)
    ensures MacroEntry("bright_" + HueName(h)) == Some(BrightFg(h))
  {
    var name := "bright_" + HueName(h);
    HueNameLetters(h);
    assert name[..7] == "bright_" && name[7..] == HueName(h);
    HueOfNames(h);
  }

  lemma EntryOfBackground(h: Hue)
    ensures MacroEntry("bg_" + HueName(h)) == Some(Bg(h))
  {
    var name := "bg_" + HueName(h);
    HueNameLetters(h);
    if |name| > 7 { assert name[..7][1] == 'g'; }
    assert name[..3] == "bg_" && name[3..] == HueName(h);
    HueOfNames(h);
  }

  /** Every code but reset is known to the macro under its snake-case name. */
  lemma MacroEntryOfName(c: Code)
    requires c != Reset
    ensures MacroEntry(SnakeName(c)) == Some(c)
  {
    match c
    case Fg(h) => EntryOfHue(h);
    case BrightFg(h) => EntryOfBright(h);
    case Bg(h) => EntryOfBackground(h);
    case _ =>
  }

  /** Every name the macro knows is the snake-case name of its code. */
  lemma MacroEntryName(name: string)
    requires MacroEntry(name).Some?
    ensures MacroEntry(name).value != Reset && SnakeName(MacroEntry(name).value) == name
  {
    if |name| > 7 && name[..7] == "bright_" {
      assert name == "bright_" + name[7..];
    } else if |name| > 3 && name[..3] == "bg_" {
      assert name == "bg_" + name[3..];
    }
  }

  /** The macro knows exactly the 30 codes other than reset, each under its snake-case name. */
  lemma MacroEntryIff(name: string, c: Code)
    ensures MacroEntry(name) == Some(c) <==> c != Reset && name == SnakeName(c)
  {
    if c != Reset {
      MacroEntryOfName(c);
    }
    if MacroEntry(name).Some? {
      MacroEntryName(name);
    }
  }

  /** The codes of the style names the macro knows, in order. */
  function Known(styles: seq<string>): (codes: seq<Code>)
    ensures |codes| <= |styles|
    ensures Reset !in codes
    decreases |styles|
  {
    if styles == [] then []
    else
      var code := MacroEntry(styles[|styles| - 1]);
      if code.Some? then
        MacroEntryName(styles[|styles| - 1]);
        Known(styles[..|styles| - 1]) + [code.value]
      else Known(styles[..|styles| - 1])
  }

  /** The macro's codes are those of the names it knows: unknown names add nothing. */
  lemma {:induction false} MacroPiecesKnown(styles: seq<string>)
    ensures MacroPieces(styles) == Concat(Known(styles))
    decreases |styles|
  {
    if styles != [] {
      var init := styles[..|styles| - 1];
      MacroPiecesKnown(init);
      var code := MacroEntry(styles[|styles| - 1]);
      if code.Some? {
        ConcatAppend(Known(init), code.value);
      }
    }
  }

  /** The snake-case names of the codes. */
  function SnakeNames(codes: seq<Code>): (names: seq<string>)
    ensures |names| == |codes|
    ensures forall i :: 0 <= i < |codes| ==> names[i] == SnakeName(codes[i])
  {
    seq(|codes|, i requires 0 <= i < |codes| => SnakeName(codes[i]))
  }

  /** Naming codes other than reset selects exactly those codes. */
  lemma {:induction false} KnownNames(codes: seq<Code>)
    requires Reset !in codes
    ensures Known(SnakeNames(codes)) == codes
    decreases |codes|
  {
    if codes != [] {
      var init := codes[..|codes| - 1];
      var last := codes[|codes| - 1];
      assert SnakeNames(codes)[..|codes| - 1] == SnakeNames(init);
      assert last in codes;
      MacroEntryOfName(last);
      KnownNames(init);
      assert codes == init + [last];
    }
  }

  /** `color!` over the names of some codes styles the text with exactly those codes. */
  lemma MacroOfNames(codes: seq<Code>, text: string)
    requires Reset !in codes
    ensures Macro(SnakeNames(codes), text) == Concat(codes) + text + ResetEscape
  {
    MacroPiecesKnown(SnakeNames(codes));
    KnownNames(codes);
  }

  /** Stripping the escapes from the macro's output gives back the text. */
  lemma MacroVisible(styles: seq<string>, text: string)
    requires Esc !in text
    ensures StripSgr(Macro(styles, text)) == text
  {
    MacroPiecesKnown(styles);
    StyledTextVisible(Known(styles), text);
  }

  /** The same for `apply` and `paint`, with or without codes. */
  lemma ApplyVisible(color: Color, text: string)
    requires Esc !in text
    ensures StripSgr(Apply(color, text)) == text
  {
    if color.codes == [] {
      StripPlain(text, "");
      assert text + "" == text;
    } else {
      StyledTextVisible(color.codes, text);
    }
  }

  /** Adding a style appends its escape before the text; the reset stays at the end. */
  lemma AddStyleAppends(color: Color, code: Code, text: string)
    ensures Apply(AddStyle(color, code), text) == Concat(color.codes) + Escape(code) + text + ResetEscape
  {
    ConcatAppend(color.codes, code);
  }

  /** The two entry points disagree on no styles: `paint` on a new `Color` returns the bare
      text, while `color!` with no known name still appends a reset. */
  lemma EmptyStyles(text: string)
    ensures Apply(New, text) == text
    ensures Macro([], text) == text + ResetEscape
    ensures Macro(["reset"], text) == text + ResetEscape
  {
    assert MacroEntry("reset") == None by {
      assert "reset"[..3][0] == 'r';
    }
    assert MacroPieces(["reset"]) == MacroPieces([]) + MacroPiece("reset");
  }
}
