/** The argument classifier's scan, common to every port: one left-to-right pass with one
    token of lookahead and a "previous token was taken as a value" flag. A port differs only
    in how it decides what to do with one token given the next one (its `Decider`). */
module Classifier {
  import opened Wrappers
  import opened Strings

  /** A flag value: `true`, or the text of the token taken as the flag's value. */
  datatype Val = True | Str(text: string)

  /** The text of a flag value: `true`, or the value itself. */
  function Text(v: Val): string
  {
    match v
    case True => "true"
    case Str(t) => t
  }

  /** What the scan does with one token that is not skipped. */
  datatype Action =
    | ShortFlags(keys: seq<string>, v: Val)  // set every key of the short-flag map to v
    | LongFlag(name: string, v: Val)         // set name in the long-flag map to v
    | Other                                  // push (token, position) onto `o`
    | Separator                              // push position onto `e`
    | Drop                                   // record nothing

  /** The action and whether the next token is taken as a value (and so skipped). */
  datatype Decision = Decision(action: Action, consumesNext: bool)

  /** The four containers the scan fills: `s`, `c`, `o` and `e`. */
  datatype Buckets = Buckets(s: map<string, Val>, c: map<string, Val>, o: seq<(string, nat)>, e: seq<nat>)

  const NoBuckets: Buckets := Buckets(map[], map[], [], [])

  /** The standard input: an interactive terminal, or a pipe delivering these lines. */
  datatype Stdin = Terminal | Pipe(lines: seq<string>)

  /** The tokens after the program name. */
  function Tokens(argv: seq<string>): seq<string>
  {
    if argv == [] then [] else argv[1..]
  }

  /** A port's rule for a token, given the next token if there is one. */
  type Decider = (string, Option<string>) -> Decision

  function NextOf(tokens: seq<string>, i: nat): Option<string>
  {
    if i + 1 < |tokens| then Some(tokens[i + 1]) else None
  }

  /** `^[a-zA-Z0-9]+(?:-[a-zA-Z0-9]+)*$` as a right-linear grammar: a run of ASCII
      alphanumerics, where a single `-` may only stand between two runs. */
  predicate LongName(s: string)
    decreases |s|, 1
  {
    |s| > 0 && IsAsciiAlnum(s[0]) && LongNameTail(s[1..])
  }

  predicate LongNameTail(t: string)
    decreases |t|, 0
  {
    t == [] || (IsAsciiAlnum(t[0]) && LongNameTail(t[1..])) || (t[0] == '-' && LongName(t[1..]))
  }

  /** `^[a-zA-Z]+$`: one or more ASCII letters. */
  predicate ShortName(s: string)
  {
    |s| > 0 && forall i :: 0 <= i < |s| ==> IsAsciiLetter(s[i])
  }

  /** A next token that exists, is non-empty and starts with `-`. */
  predicate FlagLike(next: Option<string>)
  {
    next.Some? && next.value != "" && next.value[0] == '-'
  }

  /** The letters of a bundle such as `lvk`, each as a key of its own. */
  function Letters(name: string): (keys: seq<string>)
    ensures |keys| == |name|
    ensures forall i :: 0 <= i < |name| ==> keys[i] == [name[i]]
  {
    seq(|name|, i requires 0 <= i < |name| => [name[i]])
  }

  /** Assigning v to each key in turn. */
  function SetAll(m: map<string, Val>, keys: seq<string>, v: Val): (r: map<string, Val>)
    ensures r.Keys == m.Keys + set k | k in keys
    ensures forall k :: k in r ==> r[k] == if k in keys then v else m[k]
  {
    if keys == [] then m else SetAll(m, keys[..|keys| - 1], v)[keys[|keys| - 1] := v]
  }

  /** The containers after token `i` (0-based) carried out action `a`; positions are i + 1. */
  function Record(b: Buckets, a: Action, token: string, i: nat): Buckets
  {
    match a
    case ShortFlags(keys, v) => b.(s := SetAll(b.s, keys, v))
    case LongFlag(name, v) => b.(c := b.c[name := v])
    case Other => b.(o := b.o + [(token, i + 1)])
    case Separator => b.(e := b.e + [i + 1])
    case Drop => b
  }

  function DecisionAt(d: Decider, tokens: seq<string>, i: nat): Decision
    requires i < |tokens|
  {
    d(tokens[i], NextOf(tokens, i))
  }

  /** Whether token k is skipped: the scan's skip flag when it reaches index k. */
  function Skipped(d: Decider, tokens: seq<string>, k: nat): bool
    requires k <= |tokens|
  {
    k > 0 && !Skipped(d, tokens, k - 1) && DecisionAt(d, tokens, k - 1).consumesNext
  }

  /** The containers once the scan has passed the first k tokens. */
  function Prefix(d: Decider, tokens: seq<string>, k: nat): Buckets
    requires k <= |tokens|
  {
    if k == 0 then NoBuckets
    else if Skipped(d, tokens, k - 1) then Prefix(d, tokens, k - 1)
    else Record(Prefix(d, tokens, k - 1), DecisionAt(d, tokens, k - 1).action, tokens[k - 1], k - 1)
  }

  /** The whole scan. */
  function Classify(d: Decider, tokens: seq<string>): Buckets
  {
    Prefix(d, tokens, |tokens|)
  }

  /** Token i is scanned (not skipped) and its action is a. */
  predicate Acts(d: Decider, tokens: seq<string>, i: nat, a: Action)
  {
    i < |tokens| && !Skipped(d, tokens, i) && DecisionAt(d, tokens, i).action == a
  }

  /** Token i is scanned and sets `name` in the long-flag map. */
  predicate SetsLong(d: Decider, tokens: seq<string>, i: nat, name: string)
  {
    i < |tokens| && !Skipped(d, tokens, i)
    && DecisionAt(d, tokens, i).action.LongFlag? && DecisionAt(d, tokens, i).action.name == name
  }

  /** Token i is scanned and sets `key` in the short-flag map. */
  predicate SetsShort(d: Decider, tokens: seq<string>, i: nat, key: string)
  {
    i < |tokens| && !Skipped(d, tokens, i)
    && DecisionAt(d, tokens, i).action.ShortFlags? && key in DecisionAt(d, tokens, i).action.keys
  }

  /** The scan only pushes entries of the shapes the two predicates below describe. */
  lemma PositionsSound(d: Decider, tokens: seq<string>, k: nat)
    requires k <= |tokens|
    ensures OthersPlaced(d, tokens, k, Prefix(d, tokens, k).o)
    ensures SeparatorsPlaced(d, tokens, k, Prefix(d, tokens, k).e)
  {
    OthersSound(d, tokens, k);
    SeparatorsSound(d, tokens, k);
  }

  lemma {:induction false} OthersSound(d: Decider, tokens: seq<string>, k: nat)
    requires k <= |tokens|
    ensures OthersPlaced(d, tokens, k, Prefix(d, tokens, k).o)
  {
    if k > 0 {
      OthersSound(d, tokens, k - 1);
      var prev := Prefix(d, tokens, k - 1).o;
      if !Skipped(d, tokens, k - 1) && DecisionAt(d, tokens, k - 1).action == Other {
        assert Acts(d, tokens, k - 1, Other);
        var o := prev + [(tokens[k - 1], k)];
        assert Prefix(d, tokens, k).o == o;
        assert forall j :: 0 <= j < |prev| ==> o[j] == prev[j];
      } else {
        assert Prefix(d, tokens, k).o == prev;
      }
    }
  }

  lemma {:induction false} SeparatorsSound(d: Decider, tokens: seq<string>, k: nat)
    requires k <= |tokens|
    ensures SeparatorsPlaced(d, tokens, k, Prefix(d, tokens, k).e)
  {
    if k > 0 {
      SeparatorsSound(d, tokens, k - 1);
      var prev := Prefix(d, tokens, k - 1).e;
      if !Skipped(d, tokens, k - 1) && DecisionAt(d, tokens, k - 1).action == Separator {
        assert Acts(d, tokens, k - 1, Separator);
        var e := prev + [k];
        assert Prefix(d, tokens, k).e == e;
        assert forall j :: 0 <= j < |prev| ==> e[j] == prev[j];
      } else {
        assert Prefix(d, tokens, k).e == prev;
      }
    }
  }

  /** Every entry of `o` is a scanned token pushed as Other; positions are 1-based, at most k,
      and strictly increasing. */
  ghost predicate OthersPlaced(d: Decider, tokens: seq<string>, k: nat, o: seq<(string, nat)>)
  {
    && (forall j :: 0 <= j < |o| ==>
          1 <= o[j].1 <= k && Acts(d, tokens, o[j].1 - 1, Other) && o[j].1 - 1 < |tokens| && o[j].0 == tokens[o[j].1 - 1])
    && (forall j1, j2 :: 0 <= j1 < j2 < |o| ==> o[j1].1 < o[j2].1)
  }

  /** Every entry of `e` is a scanned separator; positions are 1-based, at most k, and
      strictly increasing. */
  ghost predicate SeparatorsPlaced(d: Decider, tokens: seq<string>, k: nat, e: seq<nat>)
  {
    && (forall j :: 0 <= j < |e| ==> 1 <= e[j] <= k && Acts(d, tokens, e[j] - 1, Separator))
    && (forall j1, j2 :: 0 <= j1 < j2 < |e| ==> e[j1] < e[j2])
  }

  /** A scanned token lands in `o` (or `e`) exactly when its action is Other (or Separator). */
  lemma {:induction false} PositionsComplete(d: Decider, tokens: seq<string>, k: nat, i: nat)
    requires i < k <= |tokens|
    ensures (tokens[i], i + 1) in Prefix(d, tokens, k).o <==> Acts(d, tokens, i, Other)
    ensures i + 1 in Prefix(d, tokens, k).e <==> Acts(d, tokens, i, Separator)
  {
    PositionsSound(d, tokens, k);
    if k - 1 > i {
      PositionsComplete(d, tokens, k - 1, i);
    }
  }

  /** No position is in both `o` and `e`, and a skipped token is in neither. */
  lemma BucketsDisjoint(d: Decider, tokens: seq<string>, k: nat)
    requires k <= |tokens|
    ensures var b := Prefix(d, tokens, k);
      && (forall j1, j2 :: 0 <= j1 < |b.o| && 0 <= j2 < |b.e| ==> b.o[j1].1 != b.e[j2])
      && (forall i: nat :: i < k && Skipped(d, tokens, i) ==>
            (forall j :: 0 <= j < |b.o| ==> b.o[j].1 != i + 1) && i + 1 !in b.e)
  {
    PositionsSound(d, tokens, k);
  }

  /** A long flag is present exactly when some scanned token set it, and then it holds the
      value the last such token gave it. */
  lemma {:induction false} LongLastWins(d: Decider, tokens: seq<string>, k: nat, name: string)
    requires k <= |tokens|
    ensures name in Prefix(d, tokens, k).c <==> exists i: nat :: i < k && SetsLong(d, tokens, i, name)
    ensures forall i: nat :: i < k && SetsLong(d, tokens, i, name)
                     && (forall j: nat :: i < j < k ==> !SetsLong(d, tokens, j, name))
                     ==> Prefix(d, tokens, k).c[name] == DecisionAt(d, tokens, i).action.v
  {
    if k > 0 {
      LongLastWins(d, tokens, k - 1, name);
      LongStep(d, tokens, k, name);
      if !SetsLong(d, tokens, k - 1, name) {
        forall i: nat | i < k && SetsLong(d, tokens, i, name)
          ensures i < k - 1
        {
        }
      }
    }
  }

  /** What one scanned token does to the entry `name` of the long-flag map. */
  lemma LongStep(d: Decider, tokens: seq<string>, k: nat, name: string)
    requires 0 < k <= |tokens|
    ensures var prev, cur := Prefix(d, tokens, k - 1).c, Prefix(d, tokens, k).c;
      if SetsLong(d, tokens, k - 1, name) then
        name in cur && cur[name] == DecisionAt(d, tokens, k - 1).action.v
      else
        (name in cur <==> name in prev) && (name in prev ==> cur[name] == prev[name])
  {
  }

  /** The same for short flags, where a bundle sets each of its letters. */
  lemma {:induction false} ShortLastWins(d: Decider, tokens: seq<string>, k: nat, key: string)
    requires k <= |tokens|
    ensures key in Prefix(d, tokens, k).s <==> exists i: nat :: i < k && SetsShort(d, tokens, i, key)
    ensures forall i: nat :: i < k && SetsShort(d, tokens, i, key)
                     && (forall j: nat :: i < j < k ==> !SetsShort(d, tokens, j, key))
                     ==> Prefix(d, tokens, k).s[key] == DecisionAt(d, tokens, i).action.v
  {
    if k > 0 {
      ShortLastWins(d, tokens, k - 1, key);
      ShortStep(d, tokens, k, key);
      if !SetsShort(d, tokens, k - 1, key) {
        forall i: nat | i < k && SetsShort(d, tokens, i, key)
          ensures i < k - 1
        {
        }
      }
    }
  }

  /** What one scanned token does to the entry `key` of the short-flag map. */
  lemma ShortStep(d: Decider, tokens: seq<string>, k: nat, key: string)
    requires 0 < k <= |tokens|
    ensures var prev, cur := Prefix(d, tokens, k - 1).s, Prefix(d, tokens, k).s;
      if SetsShort(d, tokens, k - 1, key) then
        key in cur && cur[key] == DecisionAt(d, tokens, k - 1).action.v
      else
        (key in cur <==> key in prev) && (key in prev ==> cur[key] == prev[key])
  {
  }

  /** Two rules that decide alike on every token of a command line classify it alike. */
  lemma {:induction false} SameDecisions(d1: Decider, d2: Decider, tokens: seq<string>, k: nat)
    requires k <= |tokens|
    requires forall i :: 0 <= i < |tokens| ==> DecisionAt(d1, tokens, i) == DecisionAt(d2, tokens, i)
    ensures Prefix(d1, tokens, k) == Prefix(d2, tokens, k)
    ensures Skipped(d1, tokens, k) == Skipped(d2, tokens, k)
  {
    if k > 0 {
      SameDecisions(d1, d2, tokens, k - 1);
    }
  }

  /** Two rules that act alike on every token, and agree on taking the next token wherever
      there is one, classify alike: whether the last token would take a missing value does
      not matter. */
  lemma {:induction false} SameActions(d1: Decider, d2: Decider, tokens: seq<string>, k: nat)
    requires k <= |tokens|
    requires forall i :: 0 <= i < |tokens| ==> DecisionAt(d1, tokens, i).action == DecisionAt(d2, tokens, i).action
    requires forall i :: 0 <= i < |tokens| - 1 ==> DecisionAt(d1, tokens, i).consumesNext == DecisionAt(d2, tokens, i).consumesNext
    ensures Prefix(d1, tokens, k) == Prefix(d2, tokens, k)
    ensures k < |tokens| ==> Skipped(d1, tokens, k) == Skipped(d2, tokens, k)
  {
    if k > 0 {
      SameActions(d1, d2, tokens, k - 1);
    }
  }

  /** A flag value as a string: `true` becomes the text "true". */
  function AsText(v: Val): (r: Val)
    ensures r.Str? && Text(r) == Text(v)
  {
    Str(Text(v))
  }

  /** An action with its flag value written as a string. */
  function TextAction(a: Action): Action
  {
    match a
    case ShortFlags(keys, v) => ShortFlags(keys, AsText(v))
    case LongFlag(name, v) => LongFlag(name, AsText(v))
    case _ => a
  }

  /** A flag map with every value written as a string. */
  function TextMap(m: map<string, Val>): (r: map<string, Val>)
    ensures r.Keys == m.Keys
    ensures forall k :: k in m ==> r[k] == AsText(m[k])
  {
    map k | k in m :: AsText(m[k])
  }

  /** The containers with every flag value written as a string. */
  function TextBuckets(b: Buckets): Buckets
  {
    b.(s := TextMap(b.s), c := TextMap(b.c))
  }

  lemma TextRecord(b: Buckets, a: Action, token: string, i: nat)
    ensures Record(TextBuckets(b), TextAction(a), token, i) == TextBuckets(Record(b, a, token, i))
  {
    match a
    case ShortFlags(keys, v) => TextSetAll(b.s, keys, v);
    case LongFlag(name, v) => TextUpdate(b.c, name, v);
    case _ =>
  }

  lemma TextSetAll(m: map<string, Val>, keys: seq<string>, v: Val)
    ensures SetAll(TextMap(m), keys, AsText(v)) == TextMap(SetAll(m, keys, v))
  {
  }

  lemma TextUpdate(m: map<string, Val>, key: string, v: Val)
    ensures TextMap(m)[key := AsText(v)] == TextMap(m[key := v])
  {
  }

  /** A rule that acts like another except that it stores every flag value as a string fills
      the same containers, with the values written as strings. */
  lemma {:induction false} SameActionsAsText(d1: Decider, d2: Decider, tokens: seq<string>, k: nat)
    requires k <= |tokens|
    requires forall i :: 0 <= i < |tokens| ==> DecisionAt(d2, tokens, i).action == TextAction(DecisionAt(d1, tokens, i).action)
    requires forall i :: 0 <= i < |tokens| - 1 ==> DecisionAt(d1, tokens, i).consumesNext == DecisionAt(d2, tokens, i).consumesNext
    ensures Prefix(d2, tokens, k) == TextBuckets(Prefix(d1, tokens, k))
    ensures k < |tokens| ==> Skipped(d1, tokens, k) == Skipped(d2, tokens, k)
  {
    if k > 0 {
      SameActionsAsText(d1, d2, tokens, k - 1);
      if !Skipped(d1, tokens, k - 1) {
        TextRecord(Prefix(d1, tokens, k - 1), DecisionAt(d1, tokens, k - 1).action, tokens[k - 1], k - 1);
      }
    } else {
      assert TextMap(map[]) == map[];
    }
  }
}
