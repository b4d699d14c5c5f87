/** `CLI::parse`, `getPippedInput` and the lookup accessors of the C++ port
    (other_languages/cpp/simpleargumentsparser.hpp). */
module CppParser {
  import opened Wrappers
  import opened Strings
  import opened Classifier
  import opened CppValues

  /** The C++ lookahead on `next`, which is "" when there is no next token:
      `!next.empty() && (next[0] == '-' || (next.size() > 1 && next[0] == '-' && next[1] == '-'))`. */
  predicate Lookahead(next: string)
  {
    next != "" && (next[0] == '-' || DoubleDash(next))
  }

  /** `next.size() > 1 && next[0] == '-' && next[1] == '-'`, implied by the first test. */
  predicate DoubleDash(next: string)
  {
    |next| > 1 && next[0] == '-' && next[1] == '-'
  }

  /** `std::string next = (i + 1 < argc) ? argv[i + 1] : ""`. */
  function NextText(next: Option<string>): string
  {
    if next.Some? then next.value else ""
  }

  /** `if (next.empty()) true else next`. */
  function ValueOf(next: string): Val
  {
    if next == "" then True else Str(next)
  }

  /** The loop body on a token that is not skipped. An empty next token is not consumed, and a
      short name that is not all letters (`-3`) is pushed onto `o`. */
  function Decide(current: string, following: Option<string>): (r: Decision)
    ensures r.action.Separator? <==> current == "--"
    ensures r.action.Drop? <==> current == "-"
    ensures r.action.LongFlag? ==> current == "--" + r.action.name && LongName(r.action.name)
    ensures r.consumesNext ==> following.Some? && following.value != "" && !FlagLike(following)
    ensures r.consumesNext ==> r.action.LongFlag? || (r.action.ShortFlags? && |r.action.keys| == 1)
  {
    var next := NextText(following);
    if current != "" && current[0] == '-' then
      if |current| > 1 && current[1] == '-' then
        if |current| > 2 then
          var name := current[2..];
          if LongName(name) then
            if Lookahead(next) then Decision(LongFlag(name, True), false)
            else Decision(LongFlag(name, ValueOf(next)), next != "")
          else Decision(Other, false)
        else Decision(Separator, false)
      else if |current| > 1 then
        var name := current[1..];
        if ShortName(name) then
          if Lookahead(next) then Decision(ShortFlags([name], True), false)
          else if |name| > 1 then Decision(ShortFlags(Letters(name), True), false)
          else Decision(ShortFlags([name], ValueOf(next)), next != "")
        else Decision(Other, false)
      else Decision(Drop, false)
    else Decision(Other, false)
  }

  /** The lookahead test is "the next token exists, is non-empty and starts with `-`". */
  lemma LookaheadIsFlagLike(next: Option<string>)
    ensures Lookahead(NextText(next)) <==> FlagLike(next)
  {
  }

  function ToJs(v: Val): (r: JSValue)
    ensures r.present
    ensures v.True? ==> IsBool(r) && ToString(r) == "true"
    ensures v.Str? ==> IsString(r) && ToString(r) == v.text
  {
    match v
    case True => FromBool(true)
    case Str(t) => FromString(t)
  }

  /** A flag map as the JSMap holds it. */
  function ToJsMap(m: map<string, Val>): (r: map<string, JSValue>)
    ensures r.Keys == m.Keys
    ensures forall k :: k in m ==> r[k] == ToJs(m[k])
  {
    map k | k in m :: ToJs(m[k])
  }

  /** Entries of `o` with their positions raised by one. */
  function ShiftOthers(o: seq<(string, nat)>): (r: seq<(string, int)>)
    ensures |r| == |o|
    ensures forall j :: 0 <= j < |o| ==> r[j] == (o[j].0, o[j].1 + 1)
  {
    seq(|o|, j requires 0 <= j < |o| => (o[j].0, o[j].1 + 1))
  }

  /** Positions of `e` raised by one. */
  function ShiftSeparators(e: seq<nat>): (r: seq<int>)
    ensures |r| == |e|
    ensures forall j :: 0 <= j < |e| ==> r[j] == e[j] + 1
  {
    seq(|e|, j requires 0 <= j < |e| => e[j] + 1)
  }

  /** The public members of `CLI` other than `color`. */
  datatype Cli = Cli(
    s: map<string, JSValue>, c: map<string, JSValue>, o: seq<(string, int)>,
    p: string, e: seq<int>, noArgs: bool, argc: int)

  /** `getPippedInput`: "" for a terminal, otherwise every line followed by a newline, with
      the last newline removed. */
  method GetPipedInput(stdin: Stdin) returns (input: string)
    ensures input == if stdin.Terminal? then "" else Join(stdin.lines, "\n")
  {
    input := "";
    if stdin.Pipe? {
      var lines := stdin.lines;
      var k := 0;
      while k < |lines|
        invariant k <= |lines|
        invariant input == Terminated(lines[..k], "\n")
      {
        assert lines[..k + 1][..k] == lines[..k];
        input := input + lines[k] + "\n";
        k := k + 1;
      }
      assert lines[..k] == lines;
      if input != "" && input[|input| - 1] == '\n' {
        TerminatedIsJoin(lines, "\n");
        input := input[..|input| - 1];
      }
    }
  }

  /** The containers of the C++ scan: JSValue maps and positions of type `int`. */
  predicate Holds(b: Buckets, s: map<string, JSValue>, c: map<string, JSValue>, o: seq<(string, int)>, e: seq<int>)
  {
    s == ToJsMap(b.s) && c == ToJsMap(b.c) && o == ShiftOthers(b.o) && e == ShiftSeparators(b.e)
  }

  lemma ToJsMapUpdate(m: map<string, Val>, k: string, v: Val)
    ensures ToJsMap(m[k := v]) == ToJsMap(m)[k := ToJs(v)]
  {
  }

  /** The loop body on `argv[i]` when it is not skipped; returns the new `previousIsArg`. */
  method Visit(ghost b: Buckets, ghost following: Option<string>, current: string, next: string, i: int,
               s0: map<string, JSValue>, c0: map<string, JSValue>, o0: seq<(string, int)>, e0: seq<int>)
    returns (s: map<string, JSValue>, c: map<string, JSValue>, o: seq<(string, int)>, e: seq<int>, previousIsArg: bool)
    requires i >= 1 && next == NextText(following) && Holds(b, s0, c0, o0, e0)
    ensures Holds(Record(b, Decide(current, following).action, current, i - 1), s, c, o, e)
    ensures previousIsArg == Decide(current, following).consumesNext
  {
    s, c, o, e, previousIsArg := s0, c0, o0, e0, false;
    if current != "" && current[0] == '-' {
      if |current| > 1 && current[1] == '-' {
        if |current| > 2 {
          c, o, previousIsArg := VisitLong(b, following, current, next, i, c0, o0);
        } else {
          e := e + [i + 1];
        }
      } else {
        if |current| > 1 {
          s, o, previousIsArg := VisitShort(b, following, current, next, i, s0, o0);
        }
      }
    } else {
      o := o + [(current, i + 1)];
    }
  }

  /** The `--name` branch. */
  method VisitLong(ghost b: Buckets, ghost following: Option<string>, current: string, next: string, i: int,
                   c0: map<string, JSValue>, o0: seq<(string, int)>)
    returns (c: map<string, JSValue>, o: seq<(string, int)>, previousIsArg: bool)
    requires i >= 1 && next == NextText(following) && c0 == ToJsMap(b.c) && o0 == ShiftOthers(b.o)
    requires |current| > 2 && current[..2] == "--"
    ensures var r := Record(b, Decide(current, following).action, current, i - 1);
      c == ToJsMap(r.c) && o == ShiftOthers(r.o) && r.s == b.s && r.e == b.e
    ensures previousIsArg == Decide(current, following).consumesNext
  {
    c, o, previousIsArg := c0, o0, false;
    var name := current[2..];
    if LongName(name) {
      if Lookahead(next) {
        ToJsMapUpdate(b.c, name, True);
        c := c[name := FromBool(true)];
      } else {
        if next == "" {
          ToJsMapUpdate(b.c, name, True);
          c := c[name := FromBool(true)];
        } else {
          ToJsMapUpdate(b.c, name, Str(next));
          c := c[name := FromString(next)];
        }
        previousIsArg := next != "";
      }
    } else {
      o := o + [(current, i + 1)];
    }
  }

  /** `for (char flag : name) cli.s[std::string(1, flag)] = true;` */
  method SetEach(ghost m: map<string, Val>, s0: map<string, JSValue>, name: string) returns (s: map<string, JSValue>)
    requires s0 == ToJsMap(m)
    ensures s == ToJsMap(SetAll(m, Letters(name), True))
  {
    s := s0;
    var j := 0;
    while j < |name|
      invariant j <= |name|
      invariant s == ToJsMap(SetAll(m, Letters(name)[..j], True))
    {
      assert Letters(name)[..j + 1] == Letters(name)[..j] + [[name[j]]];
      ToJsMapUpdate(SetAll(m, Letters(name)[..j], True), [name[j]], True);
      s := s[[name[j]] := FromBool(true)];
      j := j + 1;
    }
    assert Letters(name)[..j] == Letters(name);
  }

  /** The `-name` branch. */
  method VisitShort(ghost b: Buckets, ghost following: Option<string>, current: string, next: string, i: int,
                    s0: map<string, JSValue>, o0: seq<(string, int)>)
    returns (s: map<string, JSValue>, o: seq<(string, int)>, previousIsArg: bool)
    requires i >= 1 && next == NextText(following) && s0 == ToJsMap(b.s) && o0 == ShiftOthers(b.o)
    requires |current| > 1 && current[0] == '-' && current[1] != '-'
    ensures var r := Record(b, Decide(current, following).action, current, i - 1);
      s == ToJsMap(r.s) && o == ShiftOthers(r.o) && r.c == b.c && r.e == b.e
    ensures previousIsArg == Decide(current, following).consumesNext
  {
    s, o, previousIsArg := s0, o0, false;
    var name := current[1..];
    if ShortName(name) {
      if Lookahead(next) {
        assert Decide(current, following) == Decision(ShortFlags([name], True), false);
        assert SetAll(b.s, [name], True) == b.s[name := True];
        ToJsMapUpdate(b.s, name, True);
        s := s[name := FromBool(true)];
      } else {
        if |name| > 1 {
          assert Decide(current, following) == Decision(ShortFlags(Letters(name), True), false);
          s := SetEach(b.s, s, name);
        } else {
          assert Decide(current, following) == Decision(ShortFlags([name], ValueOf(next)), next != "");
          assert SetAll(b.s, [name], ValueOf(next)) == b.s[name := ValueOf(next)];
          if next == "" {
            ToJsMapUpdate(b.s, name, True);
            s := s[name := FromBool(true)];
          } else {
            ToJsMapUpdate(b.s, name, Str(next));
            s := s[name := FromString(next)];
          }
          previousIsArg := next != "";
        }
      }
    } else {
      assert Decide(current, following) == Decision(Other, false);
      o := o + [(current, i + 1)];
    }
  }

  /** One pass of the scan loop at `argv[i]`: skip it after a taken value, otherwise visit it
      with the next argument ("" past the end). */
  method Step(argv: seq<string>, ghost tokens: seq<string>, i: int, skip: bool,
              s0: map<string, JSValue>, c0: map<string, JSValue>, o0: seq<(string, int)>, e0: seq<int>)
    returns (s: map<string, JSValue>, c: map<string, JSValue>, o: seq<(string, int)>, e: seq<int>, previousIsArg: bool)
    requires tokens == Tokens(argv) && 1 <= i < |argv|
    requires Holds(Prefix(Decide, tokens, i - 1), s0, c0, o0, e0) && skip == Skipped(Decide, tokens, i - 1)
    ensures Holds(Prefix(Decide, tokens, i), s, c, o, e) && previousIsArg == Skipped(Decide, tokens, i)
  {
    assert argv[i] == tokens[i - 1];
    if skip {
      s, c, o, e, previousIsArg := s0, c0, o0, e0, false;
    } else {
      var current := argv[i];
      var next := if i + 1 < |argv| then argv[i + 1] else "";
      assert next == NextText(NextOf(tokens, i - 1));
      s, c, o, e, previousIsArg := Visit(Prefix(Decide, tokens, i - 1), NextOf(tokens, i - 1), current, next, i, s0, c0, o0, e0);
    }
  }

  /** The scan loop `for (int i = 1; i < argc; i++)` over the whole `argv`, program name at
      index 0. It pushes `i + 1`, one more than the token's 1-based position. */
  method Scan(argv: seq<string>) returns (s: map<string, JSValue>, c: map<string, JSValue>, o: seq<(string, int)>, e: seq<int>)
    ensures Holds(Classify(Decide, Tokens(argv)), s, c, o, e)
  {
    s, c, o, e := map[], map[], [], [];
    var argc := |argv|;
    ghost var tokens := Tokens(argv);
    assert ToJsMap(map[]) == map[];
    var previousIsArg := false;
    var i := 1;
    while i < argc
      invariant 1 <= i <= |tokens| + 1
      invariant |tokens| == if argc == 0 then 0 else argc - 1
      invariant Holds(Prefix(Decide, tokens, i - 1), s, c, o, e)
      invariant previousIsArg == Skipped(Decide, tokens, i - 1)
    {
      s, c, o, e, previousIsArg := Step(argv, tokens, i, previousIsArg, s, c, o, e);
      i := i + 1;
    }
    assert i - 1 == |tokens|;
  }

  /** `CLI::parse(argc, argv)` with the standard input as a parameter. */
  method Parse(argv: seq<string>, stdin: Stdin) returns (cli: Cli)
    ensures Holds(Classify(Decide, Tokens(argv)), cli.s, cli.c, cli.o, cli.e)
    ensures cli.p == if stdin.Terminal? then "" else Join(stdin.lines, "\n")
    ensures cli.argc == |argv| - 1
    ensures cli.noArgs <==> |argv| == 1 && (stdin.Terminal? || stdin.lines == [] || stdin.lines == [""])
  {
    var argc := |argv| - 1;
    var p := GetPipedInput(stdin);
    var s, c, o, e := Scan(argv);
    if stdin.Pipe? {
      JoinEmpty(stdin.lines);
    }
    cli := Cli(s, c, o, p, e, p == "" && argc == 0, argc);
  }

  /** `has(shortName)`. */
  predicate Has(cli: Cli, shortName: string)
  {
    shortName in cli.s
  }

  /** `hasLong(longName)`. */
  predicate HasLong(cli: Cli, longName: string)
  {
    longName in cli.c
  }

  /** `get(shortName, defaultValue)`: the default when the value does not exist. */
  function Get(cli: Cli, shortName: string, defaultValue: string): string
  {
    var val := At(cli.s, shortName);
    if !val.present then defaultValue else ToString(val)
  }

  /** `getLong(longName, defaultValue)`. */
  function GetLong(cli: Cli, longName: string, defaultValue: string): string
  {
    var val := At(cli.c, longName);
    if !val.present then defaultValue else ToString(val)
  }

  /** `isTrue(shortName)`: false when the value does not exist, else its truthiness. */
  predicate IsTrue(cli: Cli, shortName: string)
  {
    var val := At(cli.s, shortName);
    val.present && Truthy(val)
  }

  /** `isLongTrue(longName)`. */
  predicate IsLongTrue(cli: Cli, longName: string)
  {
    var val := At(cli.c, longName);
    val.present && Truthy(val)
  }

  /** On a parsed `CLI`, the accessors read the scan's flag maps: `get` gives the flag's text
      or the default, and `isTrue` holds for `true` and for every value except "false" and
      "0" (the scan never stores ""). */
  lemma ShortAccessors(argv: seq<string>, cli: Cli, key: string, default: string)
    requires Holds(Classify(Decide, Tokens(argv)), cli.s, cli.c, cli.o, cli.e)
    ensures var b := Classify(Decide, Tokens(argv));
      && (Has(cli, key) <==> key in b.s)
      && Get(cli, key, default) == (if key in b.s then Text(b.s[key]) else default)
      && (IsTrue(cli, key) <==> key in b.s && b.s[key] != Str("false") && b.s[key] != Str("0"))
  {
    var b := Classify(Decide, Tokens(argv));
    NoEmptyValues(Tokens(argv), |Tokens(argv)|);
  }

  /** The same for `hasLong`, `getLong` and `isLongTrue`. */
  lemma LongAccessors(argv: seq<string>, cli: Cli, key: string, default: string)
    requires Holds(Classify(Decide, Tokens(argv)), cli.s, cli.c, cli.o, cli.e)
    ensures var b := Classify(Decide, Tokens(argv));
      && (HasLong(cli, key) <==> key in b.c)
      && GetLong(cli, key, default) == (if key in b.c then Text(b.c[key]) else default)
      && (IsLongTrue(cli, key) <==> key in b.c && b.c[key] != Str("false") && b.c[key] != Str("0"))
  {
    var b := Classify(Decide, Tokens(argv));
    NoEmptyValues(Tokens(argv), |Tokens(argv)|);
  }

  predicate NoEmptyValue(b: Buckets)
  {
    (forall key :: key in b.s ==> b.s[key] != Str("")) && (forall key :: key in b.c ==> b.c[key] != Str(""))
  }

  /** A value is either `true` or the text of a non-empty next token. */
  lemma {:induction false} NoEmptyValues(tokens: seq<string>, k: nat)
    requires k <= |tokens|
    ensures NoEmptyValue(Prefix(Decide, tokens, k))
  {
    if k > 0 {
      NoEmptyValues(tokens, k - 1);
      var prev := Prefix(Decide, tokens, k - 1);
      if Skipped(Decide, tokens, k - 1) {
        assert Prefix(Decide, tokens, k) == prev;
      } else {
        var d := DecisionAt(Decide, tokens, k - 1);
        assert Prefix(Decide, tokens, k) == Record(prev, d.action, tokens[k - 1], k - 1);
        match d.action
        case ShortFlags(keys, v) =>
          assert v != Str("");
        case LongFlag(name, v) =>
          assert v != Str("");
        case _ =>
      }
    }
  }

  // The positions pushed onto `o` and `e`.

  /** As written, the scan pushes `i + 1` for `argv[i]`: every position is one more than the
      token's place among the arguments, so none is 1 and the last argument gets argc + 1. */
  lemma AsWrittenPositions(argv: seq<string>, s: map<string, JSValue>, c: map<string, JSValue>, o: seq<(string, int)>, e: seq<int>)
    requires Holds(Classify(Decide, Tokens(argv)), s, c, o, e)
    ensures forall j :: 0 <= j < |o| ==> 2 <= o[j].1 <= |argv| && argv[o[j].1 - 1] == o[j].0
    ensures forall j :: 0 <= j < |e| ==> 2 <= e[j] <= |argv| && argv[e[j] - 1] == "--"
  {
    var tokens := Tokens(argv);
    var b := Classify(Decide, tokens);
    PositionsSound(Decide, tokens, |tokens|);
    forall j | 0 <= j < |e|
      ensures argv[e[j] - 1] == "--"
    {
      SeparatorOnlyFromDashes(tokens[b.e[j] - 1], NextOf(tokens, b.e[j] - 1));
    }
  }

  /** With `argv = {"prog", "--"}` the count `argc` is 1 but `e` holds position 2, which
      names no argument. */
  lemma SeparatorPositionPastArgc()
    ensures var argv := ["prog", "--"];
      |argv| - 1 == 1 && ShiftSeparators(Classify(Decide, Tokens(argv)).e) == [2]
  {
    var argv := ["prog", "--"];
    assert Tokens(argv) == ["--"];
    assert Decide("--", None) == Decision(Separator, false);
    assert Classify(Decide, ["--"]).e == [1];
  }

  /** With positions as the other ports count them (the common scan's), every entry names
      its own argument: `o` and `e` positions lie in 1..argc, increase strictly, and the token
      at an `e` position is `--`. */
  lemma CorrectedPositions(argv: seq<string>)
    ensures var tokens := Tokens(argv);
      var b := Classify(Decide, tokens);
      && (forall j :: 0 <= j < |b.o| ==> 1 <= b.o[j].1 <= |tokens| && tokens[b.o[j].1 - 1] == b.o[j].0)
      && (forall j :: 0 <= j < |b.e| ==> 1 <= b.e[j] <= |tokens| && tokens[b.e[j] - 1] == "--")
      && (forall j1, j2 :: 0 <= j1 < j2 < |b.o| ==> b.o[j1].1 < b.o[j2].1)
      && (forall j1, j2 :: 0 <= j1 < j2 < |b.e| ==> b.e[j1] < b.e[j2])
  {
    var tokens := Tokens(argv);
    var b := Classify(Decide, tokens);
    PositionsSound(Decide, tokens, |tokens|);
    forall j | 0 <= j < |b.e|
      ensures tokens[b.e[j] - 1] == "--"
    {
      SeparatorOnlyFromDashes(tokens[b.e[j] - 1], NextOf(tokens, b.e[j] - 1));
    }
  }

  lemma SeparatorOnlyFromDashes(current: string, next: Option<string>)
    requires Decide(current, next).action == Separator
    ensures current == "--"
  {
  }
}
