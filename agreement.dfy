/** Where the four classifiers agree and where they part: the reference (src/index.ts), the
    C++ port and the Rust port. (index.ts agrees with the reference on every command line:
    TsRootParser.SameAsReference.) */
module Agreement {
  import opened Wrappers
  import opened Strings
  import opened Classifier
  import TsParser
  import CppParser
  import RustParser

  /** A token that is non-empty and, when it starts with a single `-` and has more, is followed
      by a valid short name (so not `-3`). */
  predicate CppPlain(t: string)
  {
    t != "" && (|t| >= 2 && t[0] == '-' && t[1] != '-' ==> ShortName(t[1..]))
  }

  /** The lookahead tests of all three agree: the next token exists, is non-empty and starts
      with `-`. */
  lemma LookaheadsAgree(next: Option<string>)
    ensures TsParser.Lookahead(next) <==> FlagLike(next)
    ensures CppParser.Lookahead(CppParser.NextText(next)) <==> FlagLike(next)
    ensures next.Some? ==> (RustParser.DashFirst(next.value) <==> FlagLike(next))
  {
    TsParser.LookaheadIsFlagLike(next);
    CppParser.LookaheadIsFlagLike(next);
  }

  /** On plain tokens with a non-empty next token, C++ decides as the reference does; it
      differs only in not taking a missing next token. */
  lemma TsCppDecide(current: string, next: Option<string>)
    requires CppPlain(current) && (next.Some? ==> next.value != "")
    ensures CppParser.Decide(current, next).action == TsParser.Decide(current, next).action
    ensures next.Some? ==> CppParser.Decide(current, next).consumesNext == TsParser.Decide(current, next).consumesNext
  {
    LookaheadsAgree(next);
  }

  /** A command line of plain tokens, none of them empty, is classified by the C++ port
      exactly as by the reference (before C++ shifts its positions). */
  lemma TsCppAgree(tokens: seq<string>)
    requires forall i :: 0 <= i < |tokens| ==> CppPlain(tokens[i])
    ensures Classify(CppParser.Decide, tokens) == Classify(TsParser.Decide, tokens)
  {
    forall i | 0 <= i < |tokens|
      ensures DecisionAt(CppParser.Decide, tokens, i).action == DecisionAt(TsParser.Decide, tokens, i).action
      ensures i < |tokens| - 1 ==> DecisionAt(CppParser.Decide, tokens, i).consumesNext == DecisionAt(TsParser.Decide, tokens, i).consumesNext
    {
      TsCppDecide(tokens[i], NextOf(tokens, i));
    }
    SameActions(CppParser.Decide, TsParser.Decide, tokens, |tokens|);
  }

  /** A token that is non-empty and, when it starts with a single `-`, is followed by a valid
      short name (so neither `-` nor `-3`). */
  predicate RustPlain(t: string)
  {
    t != "" && (t[0] == '-' && (|t| < 2 || t[1] != '-') ==> |t| >= 2 && ShortName(t[1..]))
  }

  /** A bundle: a single `-` and two or more letters. */
  predicate Bundle(t: string)
  {
    |t| > 2 && t[0] == '-' && t[1] != '-' && ShortName(t[1..])
  }

  lemma TsRustDecide(current: string, next: Option<string>)
    requires RustPlain(current) && (next.Some? ==> next.value != "")
    requires Bundle(current) ==> !FlagLike(next)
    ensures RustParser.Decide(current, next).action == TextAction(TsParser.Decide(current, next).action)
    ensures next.Some? ==> RustParser.Decide(current, next).consumesNext == TsParser.Decide(current, next).consumesNext
  {
    LookaheadsAgree(next);
    if |current| >= 3 && current[..2] == "--" {
      RustParser.ValidLongIff(current[2..]);
    }
    if |current| == 2 && current[0] == '-' && current[1] != '-' {
      var name := current[1..];
      assert |name| == 1 && Letters(name)[0] == [name[0]] == name;
    }
  }

  /** A command line of plain tokens, none of them empty and no bundle before a flag-like
      token, is classified by the Rust port as by the reference, with every value written as
      a string (`true` becomes "true"). */
  lemma TsRustAgree(tokens: seq<string>)
    requires forall i :: 0 <= i < |tokens| ==> RustPlain(tokens[i])
    requires forall i :: 0 <= i < |tokens| && Bundle(tokens[i]) ==> !FlagLike(NextOf(tokens, i))
    ensures Classify(RustParser.Decide, tokens) == TextBuckets(Classify(TsParser.Decide, tokens))
  {
    forall i | 0 <= i < |tokens|
      ensures DecisionAt(RustParser.Decide, tokens, i).action == TextAction(DecisionAt(TsParser.Decide, tokens, i).action)
      ensures i < |tokens| - 1 ==> DecisionAt(TsParser.Decide, tokens, i).consumesNext == DecisionAt(RustParser.Decide, tokens, i).consumesNext
    {
      TsRustDecide(tokens[i], NextOf(tokens, i));
    }
    SameActionsAsText(TsParser.Decide, RustParser.Decide, tokens, |tokens|);
  }

  // Command lines on which the ports differ.

  /** `-3` is dropped by the reference and kept as positional by C++ and Rust. */
  lemma MinusDigit()
    ensures Classify(TsParser.Decide, ["-3"]) == NoBuckets
    ensures Classify(CppParser.Decide, ["-3"]) == NoBuckets.(o := [("-3", 1)])
    ensures Classify(RustParser.Decide, ["-3"]) == NoBuckets.(o := [("-3", 1)])
  {
    assert "-3"[1..] == "3" && !IsAsciiLetter("3"[0]);
  }

  /** A lone `-` is dropped by the reference and by C++ and kept as positional by Rust. */
  lemma LoneDash()
    ensures Classify(TsParser.Decide, ["-"]) == NoBuckets
    ensures Classify(CppParser.Decide, ["-"]) == NoBuckets
    ensures Classify(RustParser.Decide, ["-"]) == NoBuckets.(o := [("-", 1)])
  {
  }

  /** A bundle before a flag: the reference and C++ keep `lvk` as one key. */
  lemma BundleBeforeFlagKept()
    ensures Classify(TsParser.Decide, ["-lvk", "-x"]).s == map["lvk" := True, "x" := True]
    ensures Classify(CppParser.Decide, ["-lvk", "-x"]).s == map["lvk" := True, "x" := True]
  {
    var tokens := ["-lvk", "-x"];
    assert tokens[0][1..] == "lvk" && ShortName("lvk");
    assert tokens[1][1..] == "x" && ShortName("x");
    assert DecisionAt(TsParser.Decide, tokens, 0) == Decision(ShortFlags(["lvk"], True), false);
    assert DecisionAt(CppParser.Decide, tokens, 0) == Decision(ShortFlags(["lvk"], True), false);
    assert SetAll(map[], ["lvk"], True) == map["lvk" := True];
    assert SetAll(map["lvk" := True], ["x"], True) == map["lvk" := True, "x" := True];
  }

  /** Rust's decisions on `-lvk -x`: three letters, then one, none taking the next token. */
  lemma RustBundleDecisions(tokens: seq<string>)
    requires tokens == ["-lvk", "-x"]
    ensures DecisionAt(RustParser.Decide, tokens, 0) == Decision(ShortFlags(["l", "v", "k"], Str("true")), false)
    ensures DecisionAt(RustParser.Decide, tokens, 1) == Decision(ShortFlags(["x"], Str("true")), false)
  {
    assert tokens[0][1..] == "lvk" && RustParser.AllLetters("lvk");
    assert tokens[1][1..] == "x" && RustParser.AllLetters("x");
    assert Letters("lvk") == ["l", "v", "k"];
    assert Letters("x") == ["x"];
  }

  /** The same command line in Rust: the bundle is split into three keys. */
  lemma BundleBeforeFlagSplit()
    ensures Classify(RustParser.Decide, ["-lvk", "-x"]).s
      == map["l" := Str("true"), "v" := Str("true"), "k" := Str("true"), "x" := Str("true")]
  {
    var tokens := ["-lvk", "-x"];
    RustBundleDecisions(tokens);
    var m := map["l" := Str("true"), "v" := Str("true"), "k" := Str("true")];
    assert SetAll(map[], ["l", "v", "k"], Str("true")) == m;
    assert Prefix(RustParser.Decide, tokens, 1).s == m;
    assert SetAll(m, ["x"], Str("true")) == m["x" := Str("true")];
  }

  /** An empty token after `--name`: the reference sets `true` and skips it, C++ sets `true`
      and keeps it as positional, Rust takes "" as the value. */
  lemma EmptyNextToken()
    ensures var ts := Classify(TsParser.Decide, ["--name", ""]);
      ts.c == map["name" := True] && ts.o == []
    ensures var cpp := Classify(CppParser.Decide, ["--name", ""]);
      cpp.c == map["name" := True] && cpp.o == [("", 2)]
    ensures var rust := Classify(RustParser.Decide, ["--name", ""]);
      rust.c == map["name" := Str("")] && rust.o == []
  {
    var tokens := ["--name", ""];
    assert tokens[0][2..] == "name";
    assert LongName("name") by {
      assert "name"[1..] == "ame" && "ame"[1..] == "me" && "me"[1..] == "e" && "e"[1..] == "";
    }
    RustParser.ValidLongIff("name");
  }

  /** `-n 0` sets `n` to the text "0" in the reference and in C++. */
  lemma MinusNZero()
    ensures Classify(TsParser.Decide, ["-n", "0"]).s == map["n" := Str("0")]
    ensures Classify(CppParser.Decide, ["-n", "0"]).s == map["n" := Str("0")]
  {
    assert "-n"[1..] == "n" && ShortName("n");
    assert SetAll(map[], ["n"], Str("0")) == map["n" := Str("0")];
  }

  /** In C++, `has` and `get` see that "0", but `isTrue` is false, where the text "0" is
      truthy in JavaScript. */
  lemma CppZeroIsFalse(cli: CppParser.Cli)
    requires CppParser.Holds(Classify(CppParser.Decide, Tokens(["prog", "-n", "0"])), cli.s, cli.c, cli.o, cli.e)
    ensures CppParser.Has(cli, "n") && CppParser.Get(cli, "n", "") == "0" && !CppParser.IsTrue(cli, "n")
    ensures TsParser.Truthy(Some("0"))
  {
    var argv := ["prog", "-n", "0"];
    assert Tokens(argv) == ["-n", "0"];
    MinusNZero();
    CppParser.ShortAccessors(argv, cli, "n", "");
  }

  /** Piped input of one empty line joins to "". The reference treats it as no input, so with
      no arguments `noArgs` holds, as it does in C++ (whose `Parse` contract names this case).
      Rust's piped input is `Some("")`, which is not `None`, so its `no_args` is false. */
  lemma EmptyPipedLine()
    ensures Join([""], "\n") == ""
    ensures TsParser.NoArgs(Some(Join([""], "\n")), 0)
    ensures RustParser.PipedInput(Pipe([""])) == Some("")
  {
  }
}
