/** The style composer of src/index.ts: a proxy over the accumulated escape codes whose
    property names resolve against the `ANSI` object, and which applies the codes when called. */
module TsStyle {
  import opened Wrappers
  import opened Strings
  import opened Ansi

  /** A property lookup on the `ANSI` object: the seven attribute names, then `BRIGHT_` and
      `BG_` followed by a hue, then a bare hue. */
  function AnsiEntry(key: string): Option<Code>
  {
    if key == "RESET" then Some(Reset)
    else if key == "BOLD" then Some(Bold)
    else if key == "DIM" then Some(Dim)
    else if key == "ITALIC" then Some(Italic)
    else if key == "UNDERLINE" then Some(Underline)
    else if key == "BLINK" then Some(Blink)
    else if key == "INVERT" then Some(Invert)
    else if StartsWith(key, "BRIGHT_") then
      var h := HueOfConst(key[7..]);
      if h.Some? then Some(BrightFg(h.value)) else None
    else if StartsWith(key, "BG_") then
      var h := HueOfConst(key[3..]);
      if h.Some? then Some(Bg(h.value)) else None
    else
      var h := HueOfConst(key);
      if h.Some? then Some(Fg(h.value)) else None
  }

  /** Every code is in the object under its constant name. */
  lemma AnsiEntryOfName(c: Code)
    ensures AnsiEntry(ConstName(c)) == Some(c)
  {
    match c
    case Fg(h) => EntryOfHue(h);
    case BrightFg(h) => EntryOfBright(h);
    case Bg(h) => EntryOfBackground(h);
    case _ =>
  }

  lemma EntryOfHue(h: Hue)
    ensures AnsiEntry(HueConst(h)) == Some(Fg(h))
  {
    var key := HueConst(h);
    HueOfNames(h);
    HueConstLetters(h);
    assert key[2] != '_';
    assert !StartsWith(key, "BRIGHT_") && !StartsWith(key, "BG_");
    match h
    case Black => case Red => case Green => case Yellow =>
    case Blue => case Magenta => case Cyan => case White =>
  }

  lemma EntryOfBright(h: Hue)
    ensures AnsiEntry("BRIGHT_" + HueConst(h)) == Some(BrightFg(h))
  {
    var key := "BRIGHT_" + HueConst(h);
    assert key[1] == 'R' && key[2] == 'I' && |key| >= 10;
    assert key[..7] == "BRIGHT_" && key[7..] == HueConst(h);
    HueOfNames(h);
  }

  lemma EntryOfBackground(h: Hue)
    ensures AnsiEntry("BG_" + HueConst(h)) == Some(Bg(h))
  {
    var key := "BG_" + HueConst(h);
    HueConstLetters(h);
    assert key[1] == 'G' && |key| >= 6;
    assert key[..3] == "BG_" && key[3..] == HueConst(h);
    HueOfNames(h);
  }

  lemma HueConstLetters(h: Hue)
    ensures |HueConst(h)| >= 3
    ensures forall i :: 0 <= i < |HueConst(h)| ==> 'A' <= HueConst(h)[i] <= 'Z'
  {
  }

  /** Every key the object holds is the constant name of its code. */
  lemma AnsiEntryName(key: string)
    requires AnsiEntry(key).Some?
    ensures ConstName(AnsiEntry(key).value) == key
  {
    if StartsWith(key, "BRIGHT_") {
      assert key == "BRIGHT_" + key[7..];
    } else if StartsWith(key, "BG_") {
      assert key == "BG_" + key[3..];
    }
  }

  /** The object holds exactly the 31 codes, each under its constant name. */
  lemma AnsiEntryIff(key: string, c: Code)
    ensures AnsiEntry(key) == Some(c) <==> key == ConstName(c)
  {
    AnsiEntryOfName(c);
    if AnsiEntry(key).Some? {
      AnsiEntryName(key);
    }
  }

  /** The key the `get` traps compute from a property name: `prop.toUpperCase()`, replaced
      by `BRIGHT_<rest>` after a lower-case `bright` prefix and by `BG_<rest>` after a
      lower-case `bg` prefix, the rest upper-cased. */
  function AnsiKey(prop: string): string
  {
    var upperProp := Upper(prop);
    var key := if StartsWith(prop, "bright") && |prop| > 6 then "BRIGHT_" + Upper(prop[6..]) else upperProp;
    if StartsWith(prop, "bg") && |prop| > 2 then "BG_" + Upper(prop[2..]) else key
  }

  /** The code a property name selects, if any (`ANSI[ansiKey]`). */
  function Resolve(prop: string): Option<Code>
  {
    AnsiEntry(AnsiKey(prop))
  }

  /** A property selects a code exactly when its computed key is that code's constant name. */
  lemma ResolveIff(prop: string, c: Code)
    ensures Resolve(prop) == Some(c) <==> AnsiKey(prop) == ConstName(c)
  {
    AnsiEntryIff(AnsiKey(prop), c);
  }

  lemma UpperHueName(h: Hue)
    ensures Upper(HueName(h)) == HueConst(h)
  {
    match h
    case Black => case Red => case Green => case Yellow =>
    case Blue => case Magenta => case Cyan => case White =>
  }

  lemma UpperHueTitle(h: Hue)
    ensures Upper(HueTitle(h)) == HueConst(h)
  {
    match h
    case Black => case Red => case Green => case Yellow =>
    case Blue => case Magenta => case Cyan => case White =>
  }

  lemma UpperHueConst(h: Hue)
    ensures Upper(HueConst(h)) == HueConst(h)
  {
    match h
    case Black => case Red => case Green => case Yellow =>
    case Blue => case Magenta => case Cyan => case White =>
  }

  /** A name with neither prefix is upper-cased whole. */
  lemma UnprefixedKey(prop: string)
    requires !StartsWith(prop, "bright") && !StartsWith(prop, "bg")
    ensures AnsiKey(prop) == Upper(prop)
  {
  }

  /** The seven attribute names upper-case to their constant names. */
  lemma AttributeKeys(c: Code)
    requires !(c.Fg? || c.BrightFg? || c.Bg?)
    ensures AnsiKey(AccessorName(c)) == ConstName(c)
  {
    match c
    case Reset => PlainKey("reset"); assert Upper("reset") == "RESET";
    case Bold => SecondLetterKey("bold"); assert Upper("bold") == "BOLD";
    case Dim => PlainKey("dim"); assert Upper("dim") == "DIM";
    case Italic => PlainKey("italic"); assert Upper("italic") == "ITALIC";
    case Underline => PlainKey("underline"); assert Upper("underline") == "UNDERLINE";
    case Blink => SecondLetterKey("blink"); assert Upper("blink") == "BLINK";
    case Invert => PlainKey("invert"); assert Upper("invert") == "INVERT";
  }

  /** The lower-camel accessor names (`bold`, `red`, `brightRed`, `bgRed`, `reset`) select
      their codes. */
  lemma AccessorNamesResolve(c: Code)
    ensures Resolve(AccessorName(c)) == Some(c)
  {
    AccessorKey(c);
    AnsiEntryOfName(c);
  }

  lemma AccessorKey(c: Code)
    ensures AnsiKey(AccessorName(c)) == ConstName(c)
  {
    match c
    case Fg(h) => HueNameKey(h);
    case BrightFg(h) => BrightNameKey(h);
    case Bg(h) => BackgroundNameKey(h);
    case _ => AttributeKeys(c);
  }

  lemma HueNameKey(h: Hue)
    ensures AnsiKey(HueName(h)) == HueConst(h)
  {
    var prop := HueName(h);
    UpperHueName(h);
    if prop[0] != 'b' {
      PlainKey(prop);
    } else {
      assert prop[1] == 'l' by {
        match h
        case Black => case Red => case Green => case Yellow =>
        case Blue => case Magenta => case Cyan => case White =>
      }
      SecondLetterKey(prop);
    }
  }

  lemma BrightNameKey(h: Hue)
    ensures AnsiKey("bright" + HueTitle(h)) == "BRIGHT_" + HueConst(h)
  {
    var prop := "bright" + HueTitle(h);
    UpperHueTitle(h);
    assert prop[..6] == "bright" && prop[6..] == HueTitle(h) && |prop| > 6;
    assert !StartsWith(prop, "bg") by { assert prop[..2] == "br"; }
  }

  lemma BackgroundNameKey(h: Hue)
    ensures AnsiKey("bg" + HueTitle(h)) == "BG_" + HueConst(h)
  {
    var prop := "bg" + HueTitle(h);
    UpperHueTitle(h);
    assert prop[..2] == "bg" && prop[2..] == HueTitle(h) && |prop| > 2;
  }

  /** A name that does not start with a lower-case `b` is upper-cased whole. */
  lemma PlainKey(prop: string)
    requires prop != [] && prop[0] != 'b'
    ensures AnsiKey(prop) == Upper(prop)
  {
    assert !StartsWith(prop, "bright") by {
      if |prop| >= 6 {
        assert prop[..6][0] == prop[0];
      }
    }
    assert !StartsWith(prop, "bg") by {
      if |prop| >= 2 {
        assert prop[..2][0] == prop[0];
      }
    }
    UnprefixedKey(prop);
  }

  /** Nor does a name whose second letter is neither `r` nor `g`. */
  lemma SecondLetterKey(prop: string)
    requires |prop| >= 2 && prop[1] != 'r' && prop[1] != 'g'
    ensures AnsiKey(prop) == Upper(prop)
  {
    assert !StartsWith(prop, "bright") by {
      if |prop| >= 6 {
        assert prop[..6][1] == prop[1];
      }
    }
    assert !StartsWith(prop, "bg") by {
      assert prop[..2][1] == prop[1];
    }
    UnprefixedKey(prop);
  }

  /** The constant names themselves (`BOLD`, `BRIGHT_RED`) also select their codes. */
  lemma ConstNamesResolve(c: Code)
    ensures Resolve(ConstName(c)) == Some(c)
  {
    ConstNameKey(c);
    AnsiEntryOfName(c);
  }

  lemma ConstNameKey(c: Code)
    ensures AnsiKey(ConstName(c)) == ConstName(c)
  {
    var prop := ConstName(c);
    match c
    case Fg(h) =>
      UpperHueConst(h);
      HueConstLetters(h);
      PlainKey(prop);
    case BrightFg(h) =>
      UpperHueConst(h);
      UpperConcat("BRIGHT_", HueConst(h));
      PlainKey(prop);
    case Bg(h) =>
      UpperHueConst(h);
      UpperConcat("BG_", HueConst(h));
      PlainKey(prop);
    case _ =>
      PlainKey(prop);
      AttributeUpper(c);
  }

  lemma AttributeUpper(c: Code)
    requires !(c.Fg? || c.BrightFg? || c.Bg?)
    ensures Upper(ConstName(c)) == ConstName(c)
  {
    match c
    case Reset => case Bold => case Dim => case Italic =>
    case Underline => case Blink => case Invert =>
  }

  /** The snake-case names of the Rust macro select nothing: `bright_red` gives the key
      `BRIGHT__RED`. */
  lemma SnakeNameMisses()
    ensures AnsiKey("bright_red") == "BRIGHT__RED"
    ensures Resolve("bright_red") == None
  {
    var prop := "bright_red";
    assert prop[..6] == "bright" && prop[6..] == "_red" && prop[1] == 'r';
    assert prop[..2][1] == prop[1];
    assert Upper("_red") == "_RED";
    var key := "BRIGHT__RED";
    assert key[..7] == "BRIGHT_" && key[7..] == "_RED";
  }

  /** `BrightRed` starts with an upper-case `B`, so it is only upper-cased. */
  lemma TitleCaseKey()
    ensures AnsiKey("BrightRed") == "BRIGHTRED"
  {
    PlainKey("BrightRed");
    assert Upper("BrightRed") == "BRIGHTRED";
  }

  /** `red` and `RED` both give the key `RED`. */
  lemma RedKeys()
    ensures AnsiKey("red") == "RED" && AnsiKey("RED") == "RED"
  {
    PlainKey("red");
    PlainKey("RED");
    assert Upper("red") == "RED" && Upper("RED") == "RED";
  }

  /** The prefix test is case-sensitive: `BrightRed` gives the key `BRIGHTRED`, which is not
      in the object, while `red` and `RED` both select red. */
  lemma TitleCaseMisses()
    ensures AnsiKey("BrightRed") == "BRIGHTRED"
    ensures Resolve("BrightRed") == None
    ensures Resolve("red") == Some(Fg(Red)) && Resolve("RED") == Some(Fg(Red))
  {
    TitleCaseKey();
    RedKeys();
    var key := "BRIGHTRED";
    assert key[..7][6] == 'R' && key[..3][1] == 'R';
    assert "RED"[..3] == "RED";
  }

  /** A style proxy: the escape codes accumulated so far. */
  datatype Style = Style(codes: seq<Code>)

  /** What reading a property of a style proxy yields: a proxy over more codes, or, for a
      name that selects nothing, the proxy's plain function `target`, which can only be
      called. */
  datatype Property = Proxy(style: Style) | Target(style: Style)

  /** The `get` trap of a style proxy. */
  function Get(style: Style, prop: string): Property
  {
    var code := Resolve(prop);
    if code.Some? then Proxy(Style(style.codes + [code.value])) else Target(style)
  }

  /** The `apply` trap and the function `fn` alike: the codes, the text, one reset. */
  function Call(style: Style, text: string): string
  {
    Concat(style.codes) + text + ResetEscape
  }

  /** The `get` trap of the exported `color` object: a proxy over the selected code, or over
      no code at all. */
  function ColorGet(prop: string): Style
  {
    var code := Resolve(prop);
    if code.Some? then Style([code.value]) else Style([])
  }

  /** Reading properties in order, starting from a proxy; None once a property is read from
      the plain function (it has no style properties). */
  function Walk(style: Style, props: seq<string>): Option<Property>
    decreases |props|
  {
    if props == [] then Some(Proxy(style))
    else match Get(style, props[0])
      case Proxy(next) => Walk(next, props[1..])
      case Target(same) => if |props| == 1 then Some(Target(same)) else None
  }

  /** An expression `color.p0.p1...pn`. */
  function Compose(props: seq<string>): Option<Property>
    requires props != []
  {
    Walk(ColorGet(props[0]), props[1..])
  }

  function Names(codes: seq<Code>): (r: seq<string>)
    ensures |r| == |codes|
    ensures forall i :: 0 <= i < |codes| ==> r[i] == AccessorName(codes[i])
  {
    seq(|codes|, i requires 0 <= i < |codes| => AccessorName(codes[i]))
  }

  /** A selected code is appended after the proxy's codes; the call then wraps the text in
      the old codes, the new one and a single reset. */
  lemma GetAppends(style: Style, prop: string, c: Code, text: string)
    requires Resolve(prop) == Some(c)
    ensures Get(style, prop) == Proxy(Style(style.codes + [c]))
    ensures Call(Get(style, prop).style, text) == Concat(style.codes) + Escape(c) + text + ResetEscape
  {
    ConcatAppend(style.codes, c);
  }

  /** An unknown name on a proxy yields the plain function over the same codes: calling it
      prints what the proxy would. */
  lemma UnknownKeepsOutput(style: Style, prop: string, text: string)
    requires Resolve(prop) == None
    ensures Get(style, prop).Target? && Call(Get(style, prop).style, text) == Call(style, text)
  {
  }

  /** Reading accessor names one after another accumulates their codes in access order. */
  lemma {:induction false} WalkNames(style: Style, codes: seq<Code>)
    ensures Walk(style, Names(codes)) == Some(Proxy(Style(style.codes + codes)))
    decreases |codes|
  {
    if codes == [] {
      assert style.codes + codes == style.codes;
    } else {
      AccessorNamesResolve(codes[0]);
      assert Names(codes)[1..] == Names(codes[1..]);
      WalkNames(Style(style.codes + [codes[0]]), codes[1..]);
      assert style.codes + [codes[0]] + codes[1..] == style.codes + codes;
    }
  }

  /** `color.bold.red(text)` and its kin: the codes in access order, the text, one reset. */
  lemma ComposeNames(codes: seq<Code>, text: string)
    requires codes != []
    ensures Compose(Names(codes)) == Some(Proxy(Style(codes)))
    ensures Call(Compose(Names(codes)).value.style, text) == Concat(codes) + text + ResetEscape
  {
    AccessorNamesResolve(codes[0]);
    assert Names(codes)[1..] == Names(codes[1..]);
    WalkNames(Style([codes[0]]), codes[1..]);
    assert [codes[0]] + codes[1..] == codes;
  }

  /** Whatever the codes, the visible text of a call is the text itself. */
  lemma CallVisible(style: Style, text: string)
    requires Esc !in text
    ensures StripSgr(Call(style, text)) == text
  {
    StyledTextVisible(style.codes, text);
  }

  /** Reading a name that selects nothing from `color` gives a proxy with no codes, whose call
      still appends the reset. */
  lemma ColorUnknown(prop: string, text: string)
    requires Resolve(prop) == None
    ensures ColorGet(prop) == Style([])
    ensures Call(ColorGet(prop), text) == text + ResetEscape
  {
  }
}
