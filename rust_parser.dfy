/** `parse_cli` and `get_piped_input` of the Rust port (other_languages/rust/src/lib.rs). */
module RustParser {
  import opened Wrappers
  import opened Strings
  import opened Classifier

  /** The `is_valid` test on a long name: every character an ASCII alphanumeric or `-`, no
      leading or trailing `-`, and no `--` inside. */
  predicate ValidLong(name: string)
  {
    && (forall i :: 0 <= i < |name| ==> IsAsciiAlnum(name[i]) || name[i] == '-')
    && (name != "" ==> name[0] != '-' && name[|name| - 1] != '-')
    && NoDoubleDash(name)
  }

  /** `!name.contains("--")`. */
  predicate NoDoubleDash(t: string)
  {
    forall i :: 0 <= i < |t| - 1 ==> !(t[i] == '-' && t[i + 1] == '-')
  }

  /** What may follow the first character of a long name: alphanumerics and single dashes,
      never a dash at the end. */
  predicate TailShape(t: string)
  {
    && (forall i :: 0 <= i < |t| ==> IsAsciiAlnum(t[i]) || t[i] == '-')
    && (t != "" ==> t[|t| - 1] != '-')
    && NoDoubleDash(t)
  }

  /** `name.chars().all(|c| c.is_ascii_alphabetic())`. */
  predicate AllLetters(name: string)
  {
    forall i :: 0 <= i < |name| ==> IsAsciiLetter(name[i])
  }

  /** `next_val.starts_with('-')`. */
  predicate DashFirst(next: string)
  {
    next != "" && next[0] == '-'
  }

  /** Whether a single flag takes the next token as its value: there is one and it does not
      start with `-`. */
  predicate Takes(following: Option<string>)
  {
    following.Some? && !DashFirst(following.value)
  }

  /** The value of a single flag: the next token when it is taken, else the string `"true"`. */
  function Value(following: Option<string>): Val
  {
    if Takes(following) then Str(following.value) else Str("true")
  }

  /** The loop body of `parse_cli` on a token that is not skipped. A lone `-` and `-3` are
      pushed onto `o`, a bundle is split whatever follows it, and values are strings. */
  function Decide(current: string, following: Option<string>): (r: Decision)
    ensures r.action.Separator? <==> current == "--"
    ensures !r.action.Drop?
    ensures r.action.LongFlag? ==> current == "--" + r.action.name && ValidLong(r.action.name)
    ensures r.consumesNext ==> Takes(following) && (r.action.LongFlag? || (r.action.ShortFlags? && |r.action.keys| == 1))
  {
    if |current| >= 2 && current[0] == '-' then
      if current[1] == '-' then
        if |current| >= 3 then
          var name := current[2..];
          if ValidLong(name) then Decision(LongFlag(name, Value(following)), Takes(following))
          else Decision(Other, false)
        else Decision(Separator, false)
      else
        var name := current[1..];
        if AllLetters(name) then
          if |name| > 1 then Decision(ShortFlags(Letters(name), Str("true")), false)
          else Decision(ShortFlags([name], Value(following)), Takes(following))
        else Decision(Other, false)
    else Decision(Other, false)
  }

  /** Peeling the first character off a tail. */
  lemma TailStep(t: string)
    requires t != ""
    ensures TailShape(t) <==>
      (IsAsciiAlnum(t[0]) || (t[0] == '-' && |t| > 1 && t[1] != '-')) && TailShape(t[1..])
  {
    var u := t[1..];
    assert forall i :: 0 <= i < |u| ==> u[i] == t[i + 1];
    if TailShape(u) && (IsAsciiAlnum(t[0]) || (t[0] == '-' && |t| > 1 && t[1] != '-')) {
      forall i | 0 <= i < |t| - 1
        ensures !(t[i] == '-' && t[i + 1] == '-')
      {
        if i > 0 { assert t[i] == u[i - 1] && t[i + 1] == u[i]; }
      }
      forall i | 0 <= i < |t|
        ensures IsAsciiAlnum(t[i]) || t[i] == '-'
      {
        if i > 0 { assert t[i] == u[i - 1]; }
      }
    }
    if TailShape(t) {
      forall i | 0 <= i < |u| - 1
        ensures !(u[i] == '-' && u[i + 1] == '-')
      {
        assert u[i] == t[i + 1] && u[i + 1] == t[i + 2];
      }
    }
  }

  /** The grammar's tail and the character tests describe the same strings. */
  lemma {:induction false} TailIff(t: string)
    ensures LongNameTail(t) <==> TailShape(t)
    decreases |t|
  {
    if t != "" {
      TailStep(t);
      if IsAsciiAlnum(t[0]) {
        TailIff(t[1..]);
      } else if t[0] == '-' {
        var u := t[1..];
        if |u| > 0 {
          TailIff(u[1..]);
          TailStep(u);
        }
      }
    }
  }

  /** On the names the scan tests (never empty), the Rust character tests accept exactly the
      names the reference's pattern `^[a-zA-Z0-9]+(?:-[a-zA-Z0-9]+)*$` accepts. */
  lemma ValidLongIff(name: string)
    requires name != ""
    ensures ValidLong(name) <==> LongName(name)
  {
    TailIff(name[1..]);
    TailStep(name);
  }

  /** A flag map with its values as the Rust `HashMap<String, String>` holds them. */
  function Texts(m: map<string, Val>): (r: map<string, string>)
    ensures r.Keys == m.Keys
    ensures forall k :: k in m ==> r[k] == Text(m[k])
  {
    map k | k in m :: Text(m[k])
  }

  lemma TextsUpdate(m: map<string, Val>, k: string, v: Val)
    ensures Texts(m[k := v]) == Texts(m)[k := Text(v)]
  {
  }

  /** The public members of `CLI` other than `color`. */
  datatype Cli = Cli(
    s: map<string, string>, c: map<string, string>, o: seq<(string, nat)>,
    p: Option<string>, e: seq<nat>, noArgs: bool, argc: nat)

  /** The containers of the Rust scan: string maps and `usize` positions. */
  predicate Holds(b: Buckets, s: map<string, string>, c: map<string, string>, o: seq<(string, nat)>, e: seq<nat>)
  {
    s == Texts(b.s) && c == Texts(b.c) && o == b.o && e == b.e
  }

  /** What `get_piped_input` returns: nothing for a terminal or an empty pipe, else the lines
      joined with newlines. One empty line is `Some("")`. */
  function PipedInput(stdin: Stdin): Option<string>
  {
    if stdin.Terminal? || stdin.lines == [] then None else Some(Join(stdin.lines, "\n"))
  }

  /** `get_piped_input`: the lines are collected one by one, then joined. */
  method GetPipedInput(stdin: Stdin) returns (input: Option<string>)
    ensures input == PipedInput(stdin)
  {
    if stdin.Terminal? {
      return None;
    }
    var lines: seq<string> := [];
    var k := 0;
    while k < |stdin.lines|
      invariant k <= |stdin.lines|
      invariant lines == stdin.lines[..k]
    {
      lines := lines + [stdin.lines[k]];
      k := k + 1;
    }
    assert lines == stdin.lines;
    if lines == [] {
      input := None;
    } else {
      input := Some(Join(lines, "\n"));
    }
  }

  /** The `--` branch of the loop body. */
  method VisitLong(ghost b: Buckets, current: string, next: Option<string>, index: nat,
                   c0: map<string, string>, o0: seq<(string, nat)>, e0: seq<nat>)
    returns (c: map<string, string>, o: seq<(string, nat)>, e: seq<nat>, previousIsArg: bool)
    requires c0 == Texts(b.c) && o0 == b.o && e0 == b.e
    requires |current| >= 2 && current[0] == '-' && current[1] == '-'
    ensures var r := Record(b, Decide(current, next).action, current, index);
      c == Texts(r.c) && o == r.o && e == r.e && r.s == b.s
    ensures previousIsArg == Decide(current, next).consumesNext
  {
    c, o, e, previousIsArg := c0, o0, e0, false;
    if |current| >= 3 {
      var nameOfArg := current[2..];
      var isValid := ValidLong(nameOfArg);
      if isValid {
        if next.Some? {
          if DashFirst(next.value) {
            TextsUpdate(b.c, nameOfArg, Str("true"));
            c := c[nameOfArg := "true"];
          } else {
            TextsUpdate(b.c, nameOfArg, Str(next.value));
            c := c[nameOfArg := next.value];
            previousIsArg := true;
          }
        } else {
          TextsUpdate(b.c, nameOfArg, Str("true"));
          c := c[nameOfArg := "true"];
        }
      } else {
        o := o + [(current, index + 1)];
      }
    } else {
      e := e + [index + 1];
    }
  }

  /** `for c in name_of_arg.chars() { short_opts.insert(c.to_string(), "true".to_string()); }` */
  method SetEach(ghost m: map<string, Val>, s0: map<string, string>, name: string) returns (s: map<string, string>)
    requires s0 == Texts(m)
    ensures s == Texts(SetAll(m, Letters(name), Str("true")))
  {
    s := s0;
    var j := 0;
    while j < |name|
      invariant j <= |name|
      invariant s == Texts(SetAll(m, Letters(name)[..j], Str("true")))
    {
      assert Letters(name)[..j + 1] == Letters(name)[..j] + [[name[j]]];
      TextsUpdate(SetAll(m, Letters(name)[..j], Str("true")), [name[j]], Str("true"));
      s := s[[name[j]] := "true"];
      j := j + 1;
    }
    assert Letters(name)[..j] == Letters(name);
  }

  /** The single-dash branch of the loop body. */
  method VisitShort(ghost b: Buckets, current: string, next: Option<string>, index: nat,
                    s0: map<string, string>, o0: seq<(string, nat)>)
    returns (s: map<string, string>, o: seq<(string, nat)>, previousIsArg: bool)
    requires s0 == Texts(b.s) && o0 == b.o
    requires |current| >= 2 && current[0] == '-' && current[1] != '-'
    ensures var r := Record(b, Decide(current, next).action, current, index);
      s == Texts(r.s) && o == r.o && r.c == b.c && r.e == b.e
    ensures previousIsArg == Decide(current, next).consumesNext
  {
    s, o, previousIsArg := s0, o0, false;
    var nameOfArg := current[1..];
    var isValid := AllLetters(nameOfArg);
    if isValid {
      if |nameOfArg| > 1 {
        assert Decide(current, next) == Decision(ShortFlags(Letters(nameOfArg), Str("true")), false);
        s := SetEach(b.s, s, nameOfArg);
      } else {
        assert Decide(current, next) == Decision(ShortFlags([nameOfArg], Value(next)), Takes(next));
        assert SetAll(b.s, [nameOfArg], Value(next)) == b.s[nameOfArg := Value(next)];
        TextsUpdate(b.s, nameOfArg, Value(next));
        if next.Some? {
          if DashFirst(next.value) {
            s := s[nameOfArg := "true"];
          } else {
            s := s[nameOfArg := next.value];
            previousIsArg := true;
          }
        } else {
          s := s[nameOfArg := "true"];
        }
      }
    } else {
      assert Decide(current, next) == Decision(Other, false);
      o := o + [(current, index + 1)];
    }
  }

  /** The loop body of `parse_cli` on a token that is not skipped. */
  method Visit(ghost b: Buckets, current: string, next: Option<string>, index: nat,
               s0: map<string, string>, c0: map<string, string>, o0: seq<(string, nat)>, e0: seq<nat>)
    returns (s: map<string, string>, c: map<string, string>, o: seq<(string, nat)>, e: seq<nat>, previousIsArg: bool)
    requires Holds(b, s0, c0, o0, e0)
    ensures Holds(Record(b, Decide(current, next).action, current, index), s, c, o, e)
    ensures previousIsArg == Decide(current, next).consumesNext
  {
    s, c, o, e, previousIsArg := s0, c0, o0, e0, false;
    if |current| >= 2 && current[0] == '-' {
      if current[1] == '-' {
        c, o, e, previousIsArg := VisitLong(b, current, next, index, c0, o0, e0);
      } else {
        s, o, previousIsArg := VisitShort(b, current, next, index, s0, o0);
      }
    } else {
      o := o + [(current, index + 1)];
    }
  }

  /** `parse_cli` with the process arguments and the standard input as parameters. */
  method ParseCli(argv: seq<string>, stdin: Stdin) returns (cli: Cli)
    ensures Holds(Classify(Decide, Tokens(argv)), cli.s, cli.c, cli.o, cli.e)
    ensures cli.p == PipedInput(stdin)
    ensures cli.argc == |Tokens(argv)|
    ensures cli.noArgs <==> |Tokens(argv)| == 0 && (stdin.Terminal? || stdin.lines == [])
  {
    var args := Tokens(argv);
    var argc := |args|;
    var pipedInput := GetPipedInput(stdin);
    var shortOpts: map<string, string> := map[];
    var longOpts: map<string, string> := map[];
    var positional: seq<(string, nat)> := [];
    var errors: seq<nat> := [];
    assert Texts(map[]) == map[];
    var previousIsArg := false;
    var index := 0;
    while index < |args|
      invariant index <= |args|
      invariant Holds(Prefix(Decide, args, index), shortOpts, longOpts, positional, errors)
      invariant previousIsArg == Skipped(Decide, args, index)
    {
      if previousIsArg {
        previousIsArg := false;
      } else {
        var next := if index + 1 < |args| then Some(args[index + 1]) else None;
        shortOpts, longOpts, positional, errors, previousIsArg :=
          Visit(Prefix(Decide, args, index), args[index], next, index, shortOpts, longOpts, positional, errors);
      }
      index := index + 1;
    }
    cli := Cli(shortOpts, longOpts, positional, pipedInput, errors, pipedInput.None? && argc == 0, argc);
  }

  // Properties of the Rust scan.

  /** `--name` sets a long flag exactly when the name matches the reference's pattern, and
      otherwise lands in `o`. */
  lemma LongRule(name: string, next: Option<string>)
    requires name != ""
    ensures var d := Decide("--" + name, next);
      && (d.action.LongFlag? <==> LongName(name))
      && (d.action.LongFlag? ==> d.action.name == name && d.action.v == Value(next) && d.consumesNext == Takes(next))
      && (!d.action.LongFlag? ==> d == Decision(Other, false))
  {
    var current := "--" + name;
    assert current[2..] == name;
    ValidLongIff(name);
  }

  /** A bundle of two or more letters is always split into `"true"` flags, whatever follows,
      and takes no value. */
  lemma BundleRule(name: string, next: Option<string>)
    requires |name| > 1 && AllLetters(name)
    ensures Decide("-" + name, next) == Decision(ShortFlags(Letters(name), Str("true")), false)
  {
    var current := "-" + name;
    assert current[1..] == name;
  }

  /** Every token shorter than two characters (a lone `-` among them) and every `-name` whose
      name is not all letters (`-3`, `-a-b`) is positional, whatever follows it. */
  lemma DashTokensPositional(current: string, next: Option<string>)
    requires |current| < 2 || (current[0] == '-' && current[1] != '-' && !AllLetters(current[1..]))
    ensures Decide(current, next) == Decision(Other, false)
  {
  }

  /** An empty next token is taken as the value: it does not start with `-`. */
  lemma EmptyNextTaken(name: string)
    requires LongName(name)
    ensures Decide("--" + name, Some("")) == Decision(LongFlag(name, Str("")), true)
  {
    LongRule(name, Some(""));
  }

  /** Every stored value is a string: `"true"`, or a token that does not start with `-`. */
  predicate ValuesFromTokens(tokens: seq<string>, b: Buckets)
  {
    && (forall key :: key in b.s ==> b.s[key].Str? && (b.s[key].text == "true" || TakenValue(tokens, b.s[key].text)))
    && (forall key :: key in b.c ==> b.c[key].Str? && (b.c[key].text == "true" || TakenValue(tokens, b.c[key].text)))
  }

  /** t is one of the tokens and does not start with `-`. */
  predicate TakenValue(tokens: seq<string>, t: string)
  {
    t in tokens && !DashFirst(t)
  }

  lemma {:induction false} ValuesAreStrings(tokens: seq<string>, k: nat)
    requires k <= |tokens|
    ensures ValuesFromTokens(tokens, Prefix(Decide, tokens, k))
  {
    if k > 0 {
      ValuesAreStrings(tokens, k - 1);
      var prev := Prefix(Decide, tokens, k - 1);
      if !Skipped(Decide, tokens, k - 1) {
        var next := NextOf(tokens, k - 1);
        var d := DecisionAt(Decide, tokens, k - 1);
        assert Prefix(Decide, tokens, k) == Record(prev, d.action, tokens[k - 1], k - 1);
        if Takes(next) {
          assert next.value == tokens[k];
          assert TakenValue(tokens, next.value);
        }
        match d.action
        case ShortFlags(keys, v) =>
          assert v.Str? && (v.text == "true" || TakenValue(tokens, v.text));
        case LongFlag(name, v) =>
          assert v.Str? && (v.text == "true" || TakenValue(tokens, v.text));
        case _ =>
      }
    }
  }

  /** Positions in `o` and `e` are 1-based places among the arguments, at most `argc`, in
      increasing order; `o` entries carry their own token and `e` entries are `--`. */
  lemma PositionsInRange(argv: seq<string>)
    ensures var tokens := Tokens(argv);
      var b := Classify(Decide, tokens);
      && (forall j :: 0 <= j < |b.o| ==> 1 <= b.o[j].1 <= |tokens| && tokens[b.o[j].1 - 1] == b.o[j].0)
      && (forall j :: 0 <= j < |b.e| ==> 1 <= b.e[j] <= |tokens| && tokens[b.e[j] - 1] == "--")
      && (forall j1, j2 :: 0 <= j1 < j2 < |b.o| ==> b.o[j1].1 < b.o[j2].1)
      && (forall j1, j2 :: 0 <= j1 < j2 < |b.e| ==> b.e[j1] < b.e[j2])
  {
    var tokens := Tokens(argv);
    var b := Classify(Decide, tokens);
    PositionsSound(Decide, tokens, |tokens|);
    forall j | 0 <= j < |b.e|
      ensures tokens[b.e[j] - 1] == "--"
    {
      SeparatorOnlyFromDashes(tokens[b.e[j] - 1], NextOf(tokens, b.e[j] - 1));
    }
  }

  lemma SeparatorOnlyFromDashes(current: string, next: Option<string>)
    requires Decide(current, next).action == Separator
    ensures current == "--"
  {
  }
}
