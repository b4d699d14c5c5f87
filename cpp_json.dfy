/** `escapeJSON` and `toJSON` of the C++ port. The partner of the escaper is a decoder for
    the string escapes of section 7 of RFC 8259: every escaped text decodes to the original. */
module CppJson {
  import opened Wrappers
  import opened Strings
  import opened CppValues
  import opened CppParser

  function HexDigit(d: nat): char
    requires d < 16
  {
    "0123456789abcdef"[d]
  }

  /** A hexadecimal digit of either case, as RFC 8259 allows. */
  function HexDigitValue(ch: char): (r: Option<nat>)
    ensures r.Some? ==> r.value < 16
  {
    if '0' <= ch <= '9' then Some(ch as int - '0' as int)
    else if 'a' <= ch <= 'f' then Some(ch as int - 'a' as int + 10)
    else if 'A' <= ch <= 'F' then Some(ch as int - 'A' as int + 10)
    else None
  }

  /** `%04x`: four lower-case hexadecimal digits. */
  function Hex4(n: nat): (r: string)
    requires n < 0x10000
    ensures |r| == 4
  {
    [HexDigit(n / 0x1000), HexDigit(n / 0x100 % 16), HexDigit(n / 16 % 16), HexDigit(n % 16)]
  }

  function Hex4Value(t: string): (r: Option<nat>)
    requires |t| == 4
    ensures r.Some? ==> r.value < 0x10000
  {
    var d0, d1, d2, d3 := HexDigitValue(t[0]), HexDigitValue(t[1]), HexDigitValue(t[2]), HexDigitValue(t[3]);
    if d0.None? || d1.None? || d2.None? || d3.None? then None
    else Some(((d0.value * 16 + d1.value) * 16 + d2.value) * 16 + d3.value)
  }

  lemma HexDigitRoundTrip(d: nat)
    requires d < 16
    ensures HexDigitValue(HexDigit(d)) == Some(d)
  {
  }

  /** Reading back the four digits of a byte value gives the value. */
  lemma Hex4RoundTrip(n: nat)
    requires n < 0x100
    ensures Hex4Value(Hex4(n)) == Some(n)
  {
    var hi, lo := n / 16, n % 16;
    assert n == hi * 16 + lo;
    assert n / 0x1000 == 0 && n / 0x100 % 16 == 0;
    assert n / 16 % 16 == hi;
    HexDigitRoundTrip(0);
    HexDigitRoundTrip(hi);
    HexDigitRoundTrip(lo);
    assert Hex4(n) == [HexDigit(0), HexDigit(0), HexDigit(hi), HexDigit(lo)];
  }

  /** The escape of one character: the two-character escapes for `"`, `\`, backspace, form
      feed, newline, carriage return and tab; `\u00XX` for the other control characters;
      everything else unchanged. */
  function EscapeChar(c: char): (r: string)
    ensures |r| >= 1
    ensures forall i :: 0 <= i < |r| ==> r[i] >= ' '
  {
    if c == '"' then "\\\""
    else if c == '\\' then "\\\\"
    else if c == 8 as char then "\\b"
    else if c == 12 as char then "\\f"
    else if c == '\n' then "\\n"
    else if c == '\r' then "\\r"
    else if c == '\t' then "\\t"
    else if c < ' ' then "\\u" + Hex4(c as nat)
    else [c]
  }

  /** The escaped text: no control character survives. */
  function Escaped(s: string): (r: string)
    ensures |r| >= |s|
    ensures forall i :: 0 <= i < |r| ==> r[i] >= ' '
  {
    if s == [] then "" else EscapeChar(s[0]) + Escaped(s[1..])
  }

  lemma {:induction false} EscapedAppend(s: string, c: char)
    ensures Escaped(s + [c]) == Escaped(s) + EscapeChar(c)
  {
    if s != [] {
      assert (s + [c])[1..] == s[1..] + [c];
      EscapedAppend(s[1..], c);
    } else {
      assert Escaped([c]) == EscapeChar(c) + Escaped([]);
    }
  }

  /** The `switch` of `escapeJSON` on one character. */
  method EscapePiece(c: char) returns (piece: string)
    ensures piece == EscapeChar(c)
  {
    if c == '"' {
      piece := "\\\"";
    } else if c == '\\' {
      piece := "\\\\";
    } else if c == 8 as char {
      piece := "\\b";
    } else if c == 12 as char {
      piece := "\\f";
    } else if c == '\n' {
      piece := "\\n";
    } else if c == '\r' {
      piece := "\\r";
    } else if c == '\t' {
      piece := "\\t";
    } else if c < ' ' {
      piece := "\\u" + Hex4(c as nat);
    } else {
      piece := [c];
    }
  }

  /** `escapeJSON(str)`. */
  method EscapeJson(str: string) returns (result: string)
    ensures result == Escaped(str)
  {
    result := "";
    var i := 0;
    while i < |str|
      invariant i <= |str|
      invariant result == Escaped(str[..i])
    {
      var c := str[i];
      var piece := EscapePiece(c);
      result := result + piece;
      EscapedAppend(str[..i], c);
      assert str[..i + 1] == str[..i] + [c];
      i := i + 1;
    }
    assert str[..i] == str;
  }

  /** The character a two-character escape `\x` stands for. */
  function ShortEscape(x: char): Option<char>
  {
    match x
    case '"' => Some('"')
    case '\\' => Some('\\')
    case '/' => Some('/')
    case 'b' => Some(8 as char)
    case 'f' => Some(12 as char)
    case 'n' => Some('\n')
    case 'r' => Some('\r')
    case 't' => Some('\t')
    case _ => None
  }

  function Cons(c: char, rest: Option<string>): Option<string>
  {
    if rest.None? then None else Some([c] + rest.value)
  }

  /** The contents of a JSON string: None when it holds an unescaped quote or control
      character, a bad escape, or a `\u` escape of a surrogate. */
  function Unescape(t: string): Option<string>
    decreases |t|
  {
    if t == [] then Some("")
    else if t[0] == '\\' then
      if |t| < 2 then None
      else if t[1] == 'u' then
        if |t| < 6 then None
        else
          var n := Hex4Value(t[2..6]);
          if n.None? || 0xD800 <= n.value < 0xE000 then None
          else Cons(n.value as char, Unescape(t[6..]))
      else
        var x := ShortEscape(t[1]);
        if x.None? then None else Cons(x.value, Unescape(t[2..]))
    else if t[0] == '"' || t[0] < ' ' then None
    else Cons(t[0], Unescape(t[1..]))
  }

  lemma UnescapeEscapeChar(c: char, rest: string)
    ensures Unescape(EscapeChar(c) + rest) == Cons(c, Unescape(rest))
  {
    var t := EscapeChar(c) + rest;
    if c == '"' || c == '\\' || c == 8 as char || c == 12 as char || c == '\n' || c == '\r' || c == '\t' {
      assert t[2..] == rest;
    } else if c < ' ' {
      assert t[2..6] == Hex4(c as nat);
      assert t[6..] == rest;
      Hex4RoundTrip(c as nat);
    } else {
      assert t[1..] == rest;
    }
  }

  /** Decoding an escaped text gives the text back. */
  lemma {:induction false} UnescapeEscaped(s: string)
    ensures Unescape(Escaped(s)) == Some(s)
  {
    if s != [] {
      UnescapeEscaped(s[1..]);
      UnescapeEscapeChar(s[0], Escaped(s[1..]));
      assert [s[0]] + s[1..] == s;
    }
  }

  /** A JSON string literal. */
  function Quoted(s: string): string
  {
    "\"" + Escaped(s) + "\""
  }

  /** The text of a JSON string literal. */
  function StringLiteral(t: string): Option<string>
  {
    if |t| >= 2 && t[0] == '"' && t[|t| - 1] == '"' then Unescape(t[1..|t| - 1]) else None
  }

  /** Every quoted text reads back as itself. */
  lemma QuotedRoundTrip(s: string)
    ensures StringLiteral(Quoted(s)) == Some(s)
  {
    assert Quoted(s)[1..|Quoted(s)| - 1] == Escaped(s);
    UnescapeEscaped(s);
  }

  /** A value: a boolean bare, anything else as a string literal. */
  function ValueText(v: JSValue): string
  {
    if IsBool(v) then (if ToString(v) == "true" then "true" else "false") else Quoted(ToString(v))
  }

  /** `"key": value`. */
  function Member(key: string, v: JSValue): string
  {
    Quoted(key) + ": " + ValueText(v)
  }

  function Members(m: map<string, JSValue>, keys: seq<string>): (r: seq<string>)
    ensures |r| == |keys|
    ensures forall j :: 0 <= j < |keys| ==> r[j] == Member(keys[j], At(m, keys[j]))
  {
    seq(|keys|, j requires 0 <= j < |keys| => Member(keys[j], At(m, keys[j])))
  }

  /** `keys()` of a JSMap: every key of the map exactly once, in the hash map's order. */
  predicate KeyOrder(m: map<string, JSValue>, keys: seq<string>)
  {
    && (forall i, j :: 0 <= i < j < |keys| ==> keys[i] != keys[j])
    && (forall k :: k in keys ==> k in m)
    && (forall k :: k in m ==> k in keys)
  }

  /** A sequence without repetitions has as many distinct elements as entries. */
  lemma {:induction false} DistinctCount(keys: seq<string>)
    requires forall i, j :: 0 <= i < j < |keys| ==> keys[i] != keys[j]
    ensures |set k | k in keys| == |keys|
  {
    if keys != [] {
      var init := keys[..|keys| - 1];
      var last := keys[|keys| - 1];
      DistinctCount(init);
      assert (set k | k in keys) == (set k | k in init) + {last};
      assert last !in (set k | k in init);
    }
  }

  /** Listed in `keys()` order, the members of a map are one per key: as many as the map has
      keys, each key's member carrying the value stored under it, and every key listed. */
  lemma MembersEachKeyOnce(m: map<string, JSValue>, keys: seq<string>)
    requires KeyOrder(m, keys)
    ensures |Members(m, keys)| == |m|
    ensures forall j :: 0 <= j < |keys| ==> keys[j] in m && Members(m, keys)[j] == Member(keys[j], m[keys[j]])
    ensures forall k :: k in m ==> exists j :: 0 <= j < |keys| && keys[j] == k && Members(m, keys)[j] == Member(k, m[k])
  {
    DistinctCount(keys);
    assert (set k | k in keys) == m.Keys;
    forall k | k in m
      ensures exists j :: 0 <= j < |keys| && keys[j] == k && Members(m, keys)[j] == Member(k, m[k])
    {
      var j :| 0 <= j < |keys| && keys[j] == k;
    }
  }

  /** `["token", position]`. */
  function OtherItems(o: seq<(string, int)>): (r: seq<string>)
    ensures |r| == |o|
    ensures forall j :: 0 <= j < |o| ==> r[j] == "[" + Quoted(o[j].0) + ", " + IntText(o[j].1) + "]"
  {
    seq(|o|, j requires 0 <= j < |o| => "[" + Quoted(o[j].0) + ", " + IntText(o[j].1) + "]")
  }

  function PositionItems(e: seq<int>): (r: seq<string>)
    ensures |r| == |e|
    ensures forall j :: 0 <= j < |e| ==> r[j] == IntText(e[j])
  {
    seq(|e|, j requires 0 <= j < |e| => IntText(e[j]))
  }

  /** The piped input: `false` when empty, else a string literal. */
  function PipedText(p: string): string
  {
    if p == "" then "false" else Quoted(p)
  }

  function Spaces(n: nat): (r: string)
    ensures |r| == n && forall i :: 0 <= i < n ==> r[i] == ' '
  {
    seq(n, _ => ' ')
  }

  /** The document `toJSON` prints, with the keys of `s` and `c` in the order given (the
      iteration order of the hash maps). */
  function Document(cli: Cli, sKeys: seq<string>, cKeys: seq<string>, indent: nat): string
  {
    var sp := Spaces(indent);
    "{\n"
    + sp + "\"s\": {" + Join(Members(cli.s, sKeys), ", ") + "},\n"
    + sp + "\"c\": {" + Join(Members(cli.c, cKeys), ", ") + "},\n"
    + sp + "\"o\": [" + Join(OtherItems(cli.o), ", ") + "],\n"
    + sp + "\"p\": " + PipedText(cli.p) + ",\n"
    + sp + "\"e\": [" + Join(PositionItems(cli.e), ", ") + "],\n"
    + sp + "\"noArgs\": " + (if cli.noArgs then "true" else "false") + ",\n"
    + sp + "\"argc\": " + IntText(cli.argc) + "\n"
    + "}"
  }

  /** One step of a `", "`-separated list. */
  lemma JoinStep(items: seq<string>, i: nat)
    requires i < |items|
    ensures Join(items[..i + 1], ", ") == if i == 0 then items[0] else Join(items[..i], ", ") + ", " + items[i]
  {
    assert items[..i + 1] == items[..i] + [items[i]];
    if i > 0 {
      JoinAppend(items[..i], items[i], ", ");
    }
  }

  /** The members of `s` or `c`, separated by `", "`. */
  method WriteMembers(m: map<string, JSValue>, keys: seq<string>) returns (text: string)
    ensures text == Join(Members(m, keys), ", ")
  {
    text := "";
    var i := 0;
    while i < |keys|
      invariant i <= |keys|
      invariant text == Join(Members(m, keys)[..i], ", ")
    {
      if i > 0 {
        text := text + ", ";
      }
      var key := keys[i];
      var value := ToString(At(m, key));
      var k := EscapeJson(key);
      var valueText := if value == "true" then "true" else "false";
      if !IsBool(At(m, key)) {
        var v := EscapeJson(value);
        valueText := "\"" + v + "\"";
      }
      var entry := ("\"" + k + "\"") + ": " + valueText;
      assert entry == Members(m, keys)[i];
      text := text + entry;
      JoinStep(Members(m, keys), i);
      i := i + 1;
    }
    assert Members(m, keys)[..i] == Members(m, keys);
  }

  /** The entries of `o`. */
  method WriteOthers(o: seq<(string, int)>) returns (text: string)
    ensures text == Join(OtherItems(o), ", ")
  {
    text := "";
    var i := 0;
    while i < |o|
      invariant i <= |o|
      invariant text == Join(OtherItems(o)[..i], ", ")
    {
      if i > 0 {
        text := text + ", ";
      }
      var token := EscapeJson(o[i].0);
      var entry := "[" + ("\"" + token + "\"") + ", " + IntText(o[i].1) + "]";
      assert entry == OtherItems(o)[i];
      text := text + entry;
      JoinStep(OtherItems(o), i);
      i := i + 1;
    }
    assert OtherItems(o)[..i] == OtherItems(o);
  }

  /** The entries of `e`. */
  method WritePositions(e: seq<int>) returns (text: string)
    ensures text == Join(PositionItems(e), ", ")
  {
    text := "";
    var i := 0;
    while i < |e|
      invariant i <= |e|
      invariant text == Join(PositionItems(e)[..i], ", ")
    {
      if i > 0 {
        text := text + ", ";
      }
      text := text + IntText(e[i]);
      JoinStep(PositionItems(e), i);
      i := i + 1;
    }
    assert PositionItems(e)[..i] == PositionItems(e);
  }

  /** `toJSON(indent)` without `jq`: the keys of `s` and `c` come in their `keys()` order. A
      negative indent makes `std::string spaces(indent, ' ')` throw, which is `None` here. */
  method ToJson(cli: Cli, sKeys: seq<string>, cKeys: seq<string>, indent: int) returns (json: Option<string>)
    requires KeyOrder(cli.s, sKeys) && KeyOrder(cli.c, cKeys)
    ensures json == if indent < 0 then None else Some(Document(cli, sKeys, cKeys, indent))
  {
    if indent < 0 {
      return None;
    }
    var spaces := Spaces(indent);
    var s := WriteMembers(cli.s, sKeys);
    var c := WriteMembers(cli.c, cKeys);
    var o := WriteOthers(cli.o);
    var p := "false";
    if cli.p != "" {
      var escaped := EscapeJson(cli.p);
      p := "\"" + escaped + "\"";
    }
    var e := WritePositions(cli.e);
    json := Some("{\n"
      + spaces + "\"s\": {" + s + "},\n"
      + spaces + "\"c\": {" + c + "},\n"
      + spaces + "\"o\": [" + o + "],\n"
      + spaces + "\"p\": " + p + ",\n"
      + spaces + "\"e\": [" + e + "],\n"
      + spaces + "\"noArgs\": " + (if cli.noArgs then "true" else "false") + ",\n"
      + spaces + "\"argc\": " + IntText(cli.argc) + "\n"
      + "}");
  }

  /** `p` prints as `false` exactly when it is empty; otherwise it reads back as itself. */
  lemma PipedTextFaithful(p: string)
    ensures PipedText(p) == "false" <==> p == ""
    ensures p != "" ==> StringLiteral(PipedText(p)) == Some(p)
  {
    if p != "" {
      QuotedRoundTrip(p);
      assert PipedText(p)[0] == '"';
    }
  }

  /** A string value reads back as itself, and a boolean prints bare as its text. */
  lemma ValueTextFaithful(v: JSValue)
    ensures IsBool(v) ==> ValueText(v) == ToString(v)
    ensures !IsBool(v) ==> StringLiteral(ValueText(v)) == Some(ToString(v))
  {
    if !IsBool(v) {
      QuotedRoundTrip(ToString(v));
    }
  }
}
