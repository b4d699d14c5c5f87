/** The `Color` class of the C++ port: an immutable string of accumulated escapes, extended by
    the named style methods and by `operator[]`, and applied by `operator()`. */
module CppColor {
  import opened Wrappers
  import opened Strings
  import opened Ansi

  /** A `Color`: the escapes accumulated so far, as one string. */
  datatype Color = Color(codes: string)

  /** `operator()(text)`: the codes, the text and a reset, even with no codes. */
  function Call(color: Color, text: string): string
  {
    color.codes + text + ResetEscape
  }

  /** `bold()` ... `bgWhite()`: a new `Color` with the code's escape appended. The class has
      no method for the reset code. */
  function With(color: Color, code: Code): Color
    requires code != Reset
  {
    Color(color.codes + Escape(code))
  }

  /** A lookup in the static `colorMap` of `operator[]`: the six attribute names, then
      `bright` and `bg` followed by a title-case hue, then a bare hue. */
  function MapEntry(key: string): Option<Code>
  {
    if key == "bold" then Some(Bold)
    else if key == "dim" then Some(Dim)
    else if key == "italic" then Some(Italic)
    else if key == "underline" then Some(Underline)
    else if key == "blink" then Some(Blink)
    else if key == "invert" then Some(Invert)
    else if StartsWith(key, "bright") then
      var h := HueOfTitle(key[6..]);
      if h.Some? then Some(BrightFg(h.value)) else None
    else if StartsWith(key, "bg") then
      var h := HueOfTitle(key[2..]);
      if h.Some? then Some(Bg(h.value)) else None
    else
      var h := HueOfName(key);
      if h.Some? then Some(Fg(h.value)) else None
  }

  lemma EntryOfHue(h: Hue)
    ensures MapEntry(HueName(h)) == Some(Fg(h))
  {
    var key := HueName(h);
    HueOfNames(h);
    HueNameLetters(h);
    if key[0] == 'b' {
      assert key[..2][1] == 'l';
    } else if |key| >= 6 {
      assert key[..6][0] == key[0];
    }
    assert !StartsWith(key, "bright") && !StartsWith(key, "bg") by {
      if |key| >= 6 { assert key[..6][0] == key[0] && key[..6][1] == key[1]; }
      assert key[..2][0] == key[0] && key[..2][1] == key[1];
    }
    match h
    case Black => case Red => case Green => case Yellow =>
    case Blue => case Magenta => case Cyan => case White =>
  }

  lemma EntryOfBright(h: Hue)
    ensures MapEntry("bright" + HueTitle(h)) == Some(BrightFg(h))
  {
    var key := "bright" + HueTitle(h);
    assert key[1] == 'r' && |key| >= 9;
    assert key[..6] == "bright" && key[6..] == HueTitle(h);
    HueOfNames(h);
  }

  lemma EntryOfBackground(h: Hue)
    ensures MapEntry("bg" + HueTitle(h)) == Some(Bg(h))
  {
    var key := "bg" + HueTitle(h);
    assert key[1] == 'g' && |key| >= 5;
    assert key[..2] == "bg" && key[2..] == HueTitle(h);
    assert !StartsWith(key, "bright") by {
      if |key| >= 6 { assert key[..6][1] == 'g'; }
    }
    HueOfNames(h);
  }

  /** Every code but reset is in the map under its accessor name. */
  lemma MapEntryOfName(c: Code)
    requires c != Reset
    ensures MapEntry(AccessorName(c)) == Some(c)
  {
    match c
    case Fg(h) => EntryOfHue(h);
    case BrightFg(h) => EntryOfBright(h);
    case Bg(h) => EntryOfBackground(h);
    case _ =>
  }

  /** Every key the map holds is the accessor name of its code. */
  lemma MapEntryName(key: string)
    requires MapEntry(key).Some?
    ensures MapEntry(key).value != Reset && AccessorName(MapEntry(key).value) == key
  {
    if StartsWith(key, "bright") {
      assert key == "bright" + key[6..];
    } else if StartsWith(key, "bg") {
      assert key == "bg" + key[2..];
    }
  }

  /** The map holds exactly the 30 codes other than reset, each under its accessor name. */
  lemma MapEntryIff(key: string, c: Code)
    ensures MapEntry(key) == Some(c) <==> c != Reset && key == AccessorName(c)
  {
    if c != Reset {
      MapEntryOfName(c);
    }
    if MapEntry(key).Some? {
      MapEntryName(key);
    }
  }

  /** The key `operator[]` computes from a lower-cased name: the letter after a `bright` or
      `bg` prefix is capitalised. */
  function KeyOf(key: string): string
  {
    if StartsWith(key, "bright") && |key| > 6 then "bright" + [UpperChar(key[6])] + key[7..]
    else if StartsWith(key, "bg") && |key| > 2 then "bg" + [UpperChar(key[2])] + key[3..]
    else key
  }

  /** `operator[](name)`: the looked-up code appended, or the same codes for an unknown name. */
  function Subscript(color: Color, name: string): Color
  {
    var code := MapEntry(KeyOf(Lower(name)));
    if code.Some? then Color(color.codes + Escape(code.value)) else color
  }

  /** The capitalisation changes only the case of one letter. */
  lemma LowerKeyOf(key: string)
    ensures Lower(KeyOf(key)) == Lower(key)
  {
    var k := KeyOf(key);
    assert |k| == |key|;
    forall i | 0 <= i < |key|
      ensures LowerChar(k[i]) == LowerChar(key[i])
    {
      if StartsWith(key, "bright") && |key| > 6 {
        if i < 6 { assert k[i] == key[..6][i]; }
      } else if StartsWith(key, "bg") && |key| > 2 {
        if i < 2 { assert k[i] == key[..2][i]; }
      }
    }
  }

  /** A title-case hue is its lower-case name with the first letter capitalised. */
  lemma TitleFromName(h: Hue)
    ensures |HueName(h)| >= 3
    ensures HueTitle(h) == [UpperChar(HueName(h)[0])] + HueName(h)[1..]
  {
    match h
    case Black => case Red => case Green => case Yellow =>
    case Blue => case Magenta => case Cyan => case White =>
  }

  lemma LowerTitle(h: Hue)
    ensures Lower(HueTitle(h)) == HueName(h)
  {
    TitleFromName(h);
    HueNameLetters(h);
    assert forall i :: 0 <= i < |HueName(h)| ==> Lower(HueTitle(h))[i] == HueName(h)[i];
  }

  lemma LowerHueName(h: Hue)
    ensures Lower(HueName(h)) == HueName(h)
  {
    HueNameLetters(h);
  }

  /** A key whose second letter is neither `r` nor `g` has neither prefix. */
  lemma Unprefixed(key: string)
    requires |key| >= 2 && key[1] != 'r' && key[1] != 'g'
    ensures !StartsWith(key, "bright") && !StartsWith(key, "bg")
  {
    if |key| >= 6 { assert key[..6][1] == key[1]; }
    assert key[..2][1] == key[1];
  }

  /** A key whose first letter is not `b` has neither prefix. */
  lemma NotB(key: string)
    requires |key| >= 1 && key[0] != 'b'
    ensures !StartsWith(key, "bright") && !StartsWith(key, "bg")
  {
    if |key| >= 6 { assert key[..6][0] == key[0]; }
    if |key| >= 2 { assert key[..2][0] == key[0]; }
  }

  lemma KeyOfHue(h: Hue)
    ensures KeyOf(Lower(HueName(h))) == HueName(h)
  {
    LowerHueName(h);
    HueNameLetters(h);
    if HueName(h)[1] == 'r' || HueName(h)[1] == 'g' {
      NotB(HueName(h));
    } else {
      Unprefixed(HueName(h));
    }
  }

  lemma KeyOfBright(h: Hue)
    ensures KeyOf(Lower("bright" + HueTitle(h))) == "bright" + HueTitle(h)
  {
    LowerTitle(h);
    LowerConcat("bright", HueTitle(h));
    assert Lower("bright") == "bright";
    TitleFromName(h);
    var key := "bright" + HueName(h);
    assert key[..6] == "bright" && key[6] == HueName(h)[0] && key[7..] == HueName(h)[1..];
    assert "bright" + HueTitle(h) == "bright" + [UpperChar(HueName(h)[0])] + HueName(h)[1..];
  }

  lemma KeyOfBackground(h: Hue)
    ensures KeyOf(Lower("bg" + HueTitle(h))) == "bg" + HueTitle(h)
  {
    LowerTitle(h);
    LowerConcat("bg", HueTitle(h));
    assert Lower("bg") == "bg";
    TitleFromName(h);
    var key := "bg" + HueName(h);
    assert !StartsWith(key, "bright") by {
      if |key| >= 6 { assert key[..6][1] == 'g'; }
    }
    assert key[..2] == "bg" && key[2] == HueName(h)[0] && key[3..] == HueName(h)[1..];
    assert "bg" + HueTitle(h) == "bg" + [UpperChar(HueName(h)[0])] + HueName(h)[1..];
  }

  lemma KeyOfAttribute(c: Code)
    requires !(c.Fg? || c.BrightFg? || c.Bg?) && c != Reset
    ensures KeyOf(Lower(AccessorName(c))) == AccessorName(c)
  {
    var key := AccessorName(c);
    assert |key| >= 3 && key[1] != 'r' && key[1] != 'g';
    assert Lower(key) == key;
    Unprefixed(key);
  }

  /** A lower-cased accessor name leads back to the accessor name. */
  lemma KeyOfLowered(c: Code)
    requires c != Reset
    ensures KeyOf(Lower(AccessorName(c))) == AccessorName(c)
  {
    match c
    case Fg(h) => KeyOfHue(h);
    case BrightFg(h) => KeyOfBright(h);
    case Bg(h) => KeyOfBackground(h);
    case _ => KeyOfAttribute(c);
  }

  /** `operator[]` selects a code exactly when the name equals the code's accessor name up to
      case; reset is never selected. */
  lemma SubscriptIff(name: string, c: Code)
    ensures MapEntry(KeyOf(Lower(name))) == Some(c) <==> c != Reset && Lower(name) == Lower(AccessorName(c))
  {
    MapEntryIff(KeyOf(Lower(name)), c);
    if MapEntry(KeyOf(Lower(name))) == Some(c) {
      LowerKeyOf(Lower(name));
      LowerIdempotent(name);
    }
    if c != Reset && Lower(name) == Lower(AccessorName(c)) {
      KeyOfLowered(c);
    }
  }

  /** `operator[]` on a name equal, up to case, to a code's accessor name appends that code,
      just as the named method does. */
  lemma SubscriptSelects(color: Color, name: string, c: Code)
    requires c != Reset && Lower(name) == Lower(AccessorName(c))
    ensures Subscript(color, name) == With(color, c)
  {
    SubscriptIff(name, c);
  }

  /** `operator[]` on any other name keeps the codes unchanged. */
  lemma SubscriptUnknown(color: Color, name: string)
    requires forall c :: c != Reset ==> Lower(name) != Lower(AccessorName(c))
    ensures Subscript(color, name) == color
  {
    var code := MapEntry(KeyOf(Lower(name)));
    if code.Some? {
      SubscriptIff(name, code.value);
      assert false;
    }
  }

  /** The C++ lookup ignores case: `BRIGHTRED` selects bright red. */
  lemma SubscriptIgnoresCase(color: Color)
    ensures Subscript(color, "BRIGHTRED") == With(color, BrightFg(Red))
  {
    assert Lower("BRIGHTRED") == "brightred";
    assert Lower("brightRed") == "brightred";
    SubscriptSelects(color, "BRIGHTRED", BrightFg(Red));
  }

  /** The map has no entry for reset: `color["reset"]` adds nothing. */
  lemma SubscriptReset(color: Color)
    ensures Subscript(color, "reset") == color
  {
    assert Lower("reset") == "reset";
    assert "reset"[..2] == "re";
  }

  /** The `Color` reached from the default one by calling the style methods for `codes` in
      order. */
  function Chain(codes: seq<Code>): (r: Color)
    requires Reset !in codes
    ensures r.codes == Concat(codes)
    decreases |codes|
  {
    if codes == [] then Color("") else With(Chain(codes[..|codes| - 1]), codes[|codes| - 1])
  }

  /** Stripping the escapes from a chained call gives back the text. */
  lemma CallVisible(codes: seq<Code>, text: string)
    requires Reset !in codes && Esc !in text
    ensures StripSgr(Call(Chain(codes), text)) == text
  {
    StyledTextVisible(codes, text);
  }
}
