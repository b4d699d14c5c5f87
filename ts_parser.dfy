/** The reference classifier, `parseCLI` and `getPippedInput` of src/index.ts. */
module TsParser {
  import opened Wrappers
  import opened Strings
  import opened Classifier

  /** JavaScript truthiness of a string that may be `undefined`. */
  predicate Truthy(x: Option<string>)
  {
    x.Some? && x.value != ""
  }

  /** `String.prototype.substring(start, end)`, which clamps both ends to the length. */
  function Substring(s: string, start: nat, end: nat): string
  {
    var hi := if end <= |s| then end else |s|;
    var lo := if start <= hi then start else hi;
    s[lo..hi]
  }

  /** `next && (next[0] === "-" || next.substring(0, 2) === "--")`. */
  predicate Lookahead(next: Option<string>)
  {
    Truthy(next) && (next.value[0] == '-' || Substring(next.value, 0, 2) == "--")
  }

  /** `next ? next : true`. */
  function ValueOf(next: Option<string>): Val
  {
    if Truthy(next) then Str(next.value) else True
  }

  /** The `forEach` callback on a token that is not skipped. */
  function Decide(current: string, next: Option<string>): (r: Decision)
    ensures r.action.Separator? <==> current == "--"
    ensures r.action.LongFlag? ==> current == "--" + r.action.name && LongName(r.action.name)
    ensures r.consumesNext ==> !FlagLike(next) && (r.action.LongFlag? || (r.action.ShortFlags? && |r.action.keys| == 1))
  {
    if |current| >= 1 && current[0] == '-' then
      if |current| >= 2 && current[1] == '-' then
        if |current| >= 3 then
          var name := current[2..];
          if LongName(name) then
            if Lookahead(next) then Decision(LongFlag(name, True), false)
            else Decision(LongFlag(name, ValueOf(next)), true)
          else Decision(Other, false)
        else Decision(Separator, false)
      else if |current| >= 2 then
        var name := current[1..];
        if ShortName(name) then
          if Lookahead(next) then Decision(ShortFlags([name], True), false)
          else if |name| > 1 then Decision(ShortFlags(Letters(name), True), false)
          else Decision(ShortFlags([name], ValueOf(next)), true)
        else Decision(Drop, false)
      else Decision(Drop, false)
    else Decision(Other, false)
  }

  /** The lookahead test is "the next token exists, is non-empty and starts with `-`". */
  lemma LookaheadIsFlagLike(next: Option<string>)
    ensures Lookahead(next) <==> FlagLike(next)
  {
  }

  /** `nameOfArg.split("").forEach(arg => CLI.s[arg] = true)`. */
  method SetEach(s0: map<string, Val>, name: string) returns (s: map<string, Val>)
    ensures s == SetAll(s0, Letters(name), True)
  {
    s := s0;
    var letters := Letters(name);
    var j := 0;
    while j < |letters|
      invariant j <= |letters|
      invariant s == SetAll(s0, letters[..j], True)
    {
      assert letters[..j + 1][..j] == letters[..j];
      s := s[letters[j] := True];
      j := j + 1;
    }
    assert letters[..j] == letters;
  }

  /** The scan over `process.argv.slice(2)`, filling `s`, `c`, `o` and `e` in place. */
  method ParseTokens(args: seq<string>) returns (b: Buckets)
    ensures b == Classify(Decide, args)
  {
    var s: map<string, Val>, c: map<string, Val> := map[], map[];
    var o: seq<(string, nat)>, e: seq<nat> := [], [];
    var previousIsArg := false;
    var index := 0;
    while index < |args|
      invariant index <= |args|
      invariant Buckets(s, c, o, e) == Prefix(Decide, args, index)
      invariant previousIsArg == Skipped(Decide, args, index)
    {
      if previousIsArg {
        previousIsArg := false;
      } else {
        var current := args[index];
        var next := if index + 1 < |args| then Some(args[index + 1]) else None;
        if |current| >= 1 && current[0] == '-' {
          if |current| >= 2 && current[1] == '-' {
            if |current| >= 3 {
              var nameOfArg := current[2..];
              if LongName(nameOfArg) {
                if Lookahead(next) {
                  c := c[nameOfArg := True];
                } else {
                  c := c[nameOfArg := ValueOf(next)];
                  previousIsArg := true;
                }
              } else {
                o := o + [(current, index + 1)];
              }
            } else {
              e := e + [index + 1];
            }
          } else if |current| >= 2 {
            var nameOfArg := current[1..];
            if ShortName(nameOfArg) {
              if Lookahead(next) {
                s := s[nameOfArg := True];
              } else if |nameOfArg| > 1 {
                s := SetEach(s, nameOfArg);
              } else {
                s := s[nameOfArg := ValueOf(next)];
                previousIsArg := true;
              }
            }
          }
        } else {
          o := o + [(current, index + 1)];
        }
      }
      index := index + 1;
    }
    b := Buckets(s, c, o, e);
  }

  /** The `close` handler: one trailing newline goes once at least one line was read. */
  function CloseLines(lines: string, linesCounter: nat): string
  {
    if linesCounter >= 1 && |lines| > 0 && lines[|lines| - 1] == '\n' then lines[..|lines| - 1] else lines
  }

  /** `getPippedInput` with the rejection caught by `parseCLI`: `false` (None) for a
      terminal, otherwise the lines joined by newlines ("" for no line). */
  method GetPipedInput(stdin: Stdin) returns (p: Option<string>)
    ensures p == if stdin.Terminal? then None else Some(Join(stdin.lines, "\n"))
  {
    match stdin
    case Terminal =>
      p := None;
    case Pipe(input) =>
      var lines := "";
      var linesCounter := 0;
      while linesCounter < |input|
        invariant linesCounter <= |input|
        invariant lines == Terminated(input[..linesCounter], "\n")
      {
        assert input[..linesCounter + 1][..linesCounter] == input[..linesCounter];
        lines := lines + input[linesCounter] + "\n";
        linesCounter := linesCounter + 1;
      }
      assert input[..linesCounter] == input;
      if linesCounter >= 1 {
        TerminatedIsJoin(input, "\n");
      }
      p := Some(CloseLines(lines, linesCounter));
  }

  /** `!CLI.p && !numberOfArgs`: no tokens and piped input that is `false` or "". */
  predicate NoArgs(p: Option<string>, argc: int)
  {
    !Truthy(p) && argc == 0
  }

  /** The frozen result, without its `color` entry (the style composer lives in TsStyle). */
  datatype Cli = Cli(
    s: map<string, Val>, c: map<string, Val>, o: seq<(string, nat)>,
    p: Option<string>, e: seq<nat>, noArgs: bool, argc: int)

  /** `process.argv.slice(2)`: the user tokens, none when `argv` has fewer than two entries. */
  function UserTokens(argv: seq<string>): seq<string>
  {
    if |argv| >= 2 then argv[2..] else []
  }

  /** `parseCLI` over `process.argv`. `numberOfArgs` is `argv.length - 2`, which is -1 when
      Node.js runs without a script path (`node -e`, `node -p`, the REPL); it is then truthy,
      so `noArgs` stays false although there are no tokens. */
  method ParseCli(argv: seq<string>, stdin: Stdin) returns (cli: Cli)
    ensures var b := Classify(Decide, UserTokens(argv));
      cli.s == b.s && cli.c == b.c && cli.o == b.o && cli.e == b.e
    ensures cli.p == if stdin.Terminal? then None else Some(Join(stdin.lines, "\n"))
    ensures cli.argc == |argv| - 2
    ensures cli.argc >= 0 ==> cli.argc == |UserTokens(argv)|
    ensures cli.noArgs <==> |argv| == 2 && (stdin.Terminal? || stdin.lines == [] || stdin.lines == [""])
  {
    var numberOfArgs := |argv| - 2;
    var p := GetPipedInput(stdin);
    var b := ParseTokens(if |argv| >= 2 then argv[2..] else []);
    if stdin.Pipe? {
      JoinEmpty(stdin.lines);
    }
    cli := Cli(b.s, b.c, b.o, p, b.e, NoArgs(p, numberOfArgs), numberOfArgs);
  }

  /** With piped input present, `noArgs` still holds when the lines join to "". */
  lemma NoArgsIff(stdin: Stdin, argc: int)
    ensures var p := if stdin.Terminal? then None else Some(Join(stdin.lines, "\n"));
      NoArgs(p, argc) <==> argc == 0 && (stdin.Terminal? || stdin.lines == [] || stdin.lines == [""])
  {
    if stdin.Pipe? {
      JoinEmpty(stdin.lines);
    }
  }

  // Token rules, stated on the scan at a token i that is not skipped.

  /** `--` appends its position to `e` and changes nothing else. */
  lemma SeparatorRule(args: seq<string>, i: nat)
    requires i < |args| && !Skipped(Decide, args, i) && args[i] == "--"
    ensures var before := Prefix(Decide, args, i);
      Prefix(Decide, args, i + 1) == before.(e := before.e + [i + 1])
    ensures !Skipped(Decide, args, i + 1)
  {
  }

  /** A valid long name before a flag-like token is set to `true`; the next token is scanned. */
  lemma LongBeforeFlagRule(args: seq<string>, i: nat, name: string)
    requires i < |args| && !Skipped(Decide, args, i) && args[i] == "--" + name
    requires LongName(name) && FlagLike(NextOf(args, i))
    ensures var before := Prefix(Decide, args, i);
      Prefix(Decide, args, i + 1) == before.(c := before.c[name := True])
    ensures !Skipped(Decide, args, i + 1)
  {
    assert args[i][2..] == name;
  }

  /** Otherwise a valid long name takes the next token if it is non-empty, else `true`, and the
      next token, even "", is skipped and lands in no container. */
  lemma LongValueRule(args: seq<string>, i: nat, name: string)
    requires i < |args| && !Skipped(Decide, args, i) && args[i] == "--" + name
    requires LongName(name) && !FlagLike(NextOf(args, i))
    ensures var before := Prefix(Decide, args, i);
      var v := if i + 1 < |args| && args[i + 1] != "" then Str(args[i + 1]) else True;
      Prefix(Decide, args, i + 1) == before.(c := before.c[name := v])
    ensures i + 1 < |args| ==> Skipped(Decide, args, i + 1) && Prefix(Decide, args, i + 2) == Prefix(Decide, args, i + 1)
  {
    assert args[i][2..] == name;
  }

  /** A `--name` whose name fails the pattern, and any token not starting with `-`, is pushed
      whole onto `o` with its position. */
  lemma OtherRule(args: seq<string>, i: nat)
    requires i < |args| && !Skipped(Decide, args, i)
    requires (|args[i]| >= 3 && args[i][..2] == "--" && !LongName(args[i][2..])) || args[i] == "" || args[i][0] != '-'
    ensures var before := Prefix(Decide, args, i);
      Prefix(Decide, args, i + 1) == before.(o := before.o + [(args[i], i + 1)])
    ensures !Skipped(Decide, args, i + 1)
  {
  }

  /** A letter-only short name before a flag-like token becomes one key set to `true`,
      even a bundle such as `lvk`. */
  lemma ShortBeforeFlagRule(args: seq<string>, i: nat, name: string)
    requires i < |args| && !Skipped(Decide, args, i) && args[i] == "-" + name
    requires ShortName(name) && FlagLike(NextOf(args, i))
    ensures var before := Prefix(Decide, args, i);
      Prefix(Decide, args, i + 1) == before.(s := before.s[name := True])
    ensures !Skipped(Decide, args, i + 1)
  {
    assert args[i][1..] == name;
  }

  /** Otherwise a bundle sets each of its letters to `true` and leaves the next token alone. */
  lemma BundleRule(args: seq<string>, i: nat, name: string)
    requires i < |args| && !Skipped(Decide, args, i) && args[i] == "-" + name
    requires ShortName(name) && |name| > 1 && !FlagLike(NextOf(args, i))
    ensures var before := Prefix(Decide, args, i);
      Prefix(Decide, args, i + 1) == before.(s := SetAll(before.s, Letters(name), True))
    ensures !Skipped(Decide, args, i + 1)
  {
    assert args[i][1..] == name;
    LookaheadIsFlagLike(NextOf(args, i));
    assert DecisionAt(Decide, args, i) == Decision(ShortFlags(Letters(name), True), false);
  }

  /** Otherwise a single letter takes the next token as its value and skips it. */
  lemma ShortValueRule(args: seq<string>, i: nat, letter: char)
    requires i < |args| && !Skipped(Decide, args, i) && args[i] == ['-', letter]
    requires IsAsciiLetter(letter) && !FlagLike(NextOf(args, i))
    ensures var before := Prefix(Decide, args, i);
      var v := if i + 1 < |args| && args[i + 1] != "" then Str(args[i + 1]) else True;
      Prefix(Decide, args, i + 1) == before.(s := before.s[[letter] := v])
    ensures i + 1 < |args| ==> Skipped(Decide, args, i + 1)
  {
    assert args[i][1..] == [letter];
  }

  /** A lone `-`, and a short token whose name is not all letters (`-3`, `-a-b`), are
      recorded nowhere. */
  lemma DroppedRule(args: seq<string>, i: nat)
    requires i < |args| && !Skipped(Decide, args, i)
    requires args[i] == "-" || (|args[i]| >= 2 && args[i][0] == '-' && args[i][1] != '-' && !ShortName(args[i][1..]))
    ensures Prefix(Decide, args, i + 1) == Prefix(Decide, args, i)
    ensures !Skipped(Decide, args, i + 1)
  {
  }

  /** Positions in `o` and `e` are index + 1 within 1..argc, strictly increasing, and disjoint
      from each other and from every position skipped as a value. */
  lemma PositionsInRange(args: seq<string>)
    ensures var b := Classify(Decide, args);
      && (forall j :: 0 <= j < |b.o| ==> 1 <= b.o[j].1 <= |args| && args[b.o[j].1 - 1] == b.o[j].0)
      && (forall j :: 0 <= j < |b.e| ==> 1 <= b.e[j] <= |args| && args[b.e[j] - 1] == "--")
      && (forall j1, j2 :: 0 <= j1 < j2 < |b.o| ==> b.o[j1].1 < b.o[j2].1)
      && (forall j1, j2 :: 0 <= j1 < j2 < |b.e| ==> b.e[j1] < b.e[j2])
      && (forall j1, j2 :: 0 <= j1 < |b.o| && 0 <= j2 < |b.e| ==> b.o[j1].1 != b.e[j2])
      && (forall i: nat :: i < |args| && Skipped(Decide, args, i) ==>
            (forall j :: 0 <= j < |b.o| ==> b.o[j].1 != i + 1) && i + 1 !in b.e)
  {
    var b := Classify(Decide, args);
    PositionsSound(Decide, args, |args|);
    BucketsDisjoint(Decide, args, |args|);
    forall j | 0 <= j < |b.e|
      ensures args[b.e[j] - 1] == "--"
    {
      SeparatorOnlyFromDashes(args[b.e[j] - 1], NextOf(args, b.e[j] - 1));
    }
  }

  lemma SeparatorOnlyFromDashes(current: string, next: Option<string>)
    requires Decide(current, next).action == Separator
    ensures current == "--"
  {
  }
}
