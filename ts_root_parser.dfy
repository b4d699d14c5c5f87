/** The classifier of index.ts: the same scan as src/index.ts written with a different
    lookahead expression, a two-branch `close` handler, and `process.argv.splice(2)`, which
    empties the argument list it reads. */
module TsRootParser {
  import opened Wrappers
  import opened Strings
  import opened Classifier
  import TsParser

  /** `next && next[0] === "-" || next?.substring(0, 2) === "--"` (`&&` binds tighter). */
  predicate Lookahead(next: Option<string>)
  {
    (TsParser.Truthy(next) && next.value[0] == '-')
    || (next.Some? && TsParser.Substring(next.value, 0, 2) == "--")
  }

  /** The `forEach` callback; `[fc, sc, tc]` are the first three characters of the token. */
  function Decide(current: string, next: Option<string>): (r: Decision)
    ensures r.action.Separator? <==> current == "--"
    ensures r.action.LongFlag? ==> current == "--" + r.action.name && LongName(r.action.name)
    ensures r.consumesNext ==> !FlagLike(next) && (r.action.LongFlag? || (r.action.ShortFlags? && |r.action.keys| == 1))
  {
    if |current| >= 1 && current[0] == '-' then
      if |current| >= 2 && current[1] == '-' then
        if |current| >= 3 then
          var name := current[2..];
          if LongName(name) then
            if Lookahead(next) then Decision(LongFlag(name, True), false)
            else Decision(LongFlag(name, TsParser.ValueOf(next)), true)
          else Decision(Other, false)
        else Decision(Separator, false)
      else if |current| >= 2 then
        var name := current[1..];
        if ShortName(name) then
          if Lookahead(next) then Decision(ShortFlags([name], True), false)
          else if |name| > 1 then Decision(ShortFlags(Letters(name), True), false)
          else Decision(ShortFlags([name], TsParser.ValueOf(next)), true)
        else Decision(Drop, false)
      else Decision(Drop, false)
    else Decision(Other, false)
  }

  /** Without the parentheses the lookahead still means "non-empty and starts with `-`":
      a `--` prefix already starts with `-`, and `undefined?.substring` is never "--". */
  lemma LookaheadIsFlagLike(next: Option<string>)
    ensures Lookahead(next) <==> FlagLike(next)
    ensures Lookahead(next) <==> TsParser.Lookahead(next)
  {
    if next.Some? && |next.value| >= 2 && TsParser.Substring(next.value, 0, 2) == "--" {
      assert next.value[0] == TsParser.Substring(next.value, 0, 2)[0];
    }
  }

  /** So index.ts classifies every command line exactly as src/index.ts does. */
  lemma SameAsReference(args: seq<string>)
    ensures Classify(Decide, args) == Classify(TsParser.Decide, args)
  {
    forall i | 0 <= i < |args|
      ensures DecisionAt(Decide, args, i) == DecisionAt(TsParser.Decide, args, i)
    {
      LookaheadIsFlagLike(NextOf(args, i));
    }
    SameDecisions(Decide, TsParser.Decide, args, |args|);
  }

  /** The `close` handler with its `> 1` and `=== 1` branches. */
  function CloseLines(lines: string, linesCounter: nat): string
  {
    if linesCounter > 1 then
      if |lines| > 0 && lines[|lines| - 1] == '\n' then lines[..|lines| - 1] else lines
    else if linesCounter == 1 then
      if |lines| > 0 && lines[|lines| - 1] == '\n' then lines[..|lines| - 1] else lines
    else lines
  }

  /** The two branches strip the same newline, so together they are the `>= 1` rule. */
  lemma CloseLinesSameAsReference(lines: string, linesCounter: nat)
    ensures CloseLines(lines, linesCounter) == TsParser.CloseLines(lines, linesCounter)
  {
  }

  method GetPipedInput(stdin: Stdin) returns (p: Option<string>)
    ensures p == if stdin.Terminal? then None else Some(Join(stdin.lines, "\n"))
  {
    match stdin
    case Terminal =>
      p := None;
    case Pipe(input) =>
      var lines := "";
      var linesCounter := 0;
      while linesCounter < |input|
        invariant linesCounter <= |input|
        invariant lines == Terminated(input[..linesCounter], "\n")
      {
        assert input[..linesCounter + 1][..linesCounter] == input[..linesCounter];
        lines := lines + input[linesCounter] + "\n";
        linesCounter := linesCounter + 1;
      }
      assert input[..linesCounter] == input;
      if linesCounter >= 1 {
        TerminatedIsJoin(input, "\n");
      }
      p := Some(CloseLines(lines, linesCounter));
  }

  /** `process.argv`, which this port changes in place. */
  class ProcessArgv {
    var argv: seq<string>

    constructor (argv: seq<string>)
      ensures this.argv == argv
    {
      this.argv := argv;
    }

    /** `Array.prototype.splice(start)`: removes everything from `start` on and returns it. */
    method Splice(start: nat) returns (removed: seq<string>)
      modifies this
      ensures old(argv) == argv + removed
      ensures |argv| == if start <= |old(argv)| then start else |old(argv)|
    {
      if start <= |argv| {
        removed := argv[start..];
        argv := argv[..start];
      } else {
        removed := [];
      }
    }
  }

  /** The `forEach` over the spliced-out tokens. */
  method ScanTokens(arr: seq<string>) returns (b: Buckets)
    ensures b == Classify(Decide, arr)
  {
    var s: map<string, Val>, c: map<string, Val> := map[], map[];
    var o: seq<(string, nat)>, e: seq<nat> := [], [];
    var previousIsArg := false;
    var index := 0;
    while index < |arr|
      invariant index <= |arr|
      invariant Buckets(s, c, o, e) == Prefix(Decide, arr, index)
      invariant previousIsArg == Skipped(Decide, arr, index)
    {
      if previousIsArg {
        previousIsArg := false;
      } else {
        var current := arr[index];
        var next := if index + 1 < |arr| then Some(arr[index + 1]) else None;
        if |current| >= 1 && current[0] == '-' {
          if |current| >= 2 && current[1] == '-' {
            if |current| >= 3 {
              var nameOfArg := current[2..];
              if LongName(nameOfArg) {
                if Lookahead(next) {
                  c := c[nameOfArg := True];
                } else {
                  c := c[nameOfArg := TsParser.ValueOf(next)];
                  previousIsArg := true;
                }
              } else {
                o := o + [(current, index + 1)];
              }
            } else {
              e := e + [index + 1];
            }
          } else if |current| >= 2 {
            var nameOfArg := current[1..];
            if ShortName(nameOfArg) {
              if Lookahead(next) {
                s := s[nameOfArg := True];
              } else if |nameOfArg| > 1 {
                s := TsParser.SetEach(s, nameOfArg);
              } else {
                s := s[nameOfArg := TsParser.ValueOf(next)];
                previousIsArg := true;
              }
            }
          }
        } else {
          o := o + [(current, index + 1)];
        }
      }
      index := index + 1;
    }
    b := Buckets(s, c, o, e);
  }

  /** `parseCLI`: `numberOfArgs` was read from `process.argv` when the module loaded; the
      scan then splices the user tokens out of `process.argv`, leaving the interpreter and
      script paths. Without a script path (`node -e`, `node -p`, the REPL) `argv` has one
      entry: `splice(2)` removes nothing, `numberOfArgs` and `argc` are -1, and `noArgs`
      stays false. */
  method ParseCli(process: ProcessArgv, stdin: Stdin) returns (cli: TsParser.Cli)
    modifies process
    ensures process.argv == if |old(process.argv)| >= 2 then old(process.argv)[..2] else old(process.argv)
    ensures var b := Classify(Decide, TsParser.UserTokens(old(process.argv)));
      cli.s == b.s && cli.c == b.c && cli.o == b.o && cli.e == b.e
    ensures cli.argc == |old(process.argv)| - 2
    ensures cli.argc >= 0 ==> cli.argc == |TsParser.UserTokens(old(process.argv))|
    ensures cli.p == if stdin.Terminal? then None else Some(Join(stdin.lines, "\n"))
    ensures cli.noArgs <==> |old(process.argv)| == 2 && (stdin.Terminal? || stdin.lines == [] || stdin.lines == [""])
  {
    var numberOfArgs := |process.argv| - 2;
    var p := GetPipedInput(stdin);
    var arr := process.Splice(2);
    var b := ScanTokens(arr);
    if stdin.Pipe? {
      JoinEmpty(stdin.lines);
    }
    cli := TsParser.Cli(b.s, b.c, b.o, p, b.e, !TsParser.Truthy(p) && numberOfArgs == 0, numberOfArgs);
  }
}
