# simpleArgumentsParser in Dafny

A model of the two components that simpleArgumentsParser implements in TypeScript (twice), C++
and Rust, with proofs about each and about how the ports relate.

**The argument classifier.** It makes one left-to-right scan over the command-line tokens, with
one token of lookahead and a flag that says the previous token was taken as a value. Each token
lands in one place:

- the short-flag map `s` (`-v`, `-lvk`, `-o out.txt`);
- the long-flag map `c` (`--name`, `--name value`);
- the positional list `o`, as (token, position) pairs;
- the separator list `e`, as positions of `--`;
- or nowhere, when it is taken as a value or dropped.

Around the scan, the piped standard input is joined into `p`, and `noArgs` and `argc` are
computed.

**The style composer.** An immutable handle holds a sequence of ANSI SGR codes (Select Graphic
Rendition, section 8.3.117 of ECMA-48). A name selects a code from a closed table of 31: reset,
six attributes, and eight colours in each of three groups (plain, bright, background). Selecting
yields a new handle with one more code. Applying a handle to a text gives the codes, the text and
a reset.

`Classifier` holds the scan once, as pure functions:

- `Prefix(d, tokens, k)` is the four containers after k tokens.
- `Skipped(d, tokens, k)` says whether token k is taken as a value.
- Both are parameterised by a port's rule for one token given the next (`Decide`).

Each port has its own `Decide`, plus an imperative method with the source's loop and skip flag.
That method is proved to build exactly `Classify(Decide, tokens)`. Generic lemmas give position
soundness, ordering, disjointness and "last assignment wins" for every port at once.

Where each source part lives:

| source | modules |
|---|---|
| src/index.ts (the reference) | `TsParser`, `TsStyle` |
| index.ts (scan, piped input, in-place `argv.splice`) | `TsRootParser` |
| index.ts (style composer) | `TsStyle`, since it is the same code as in src/index.ts |
| simpleargumentsparser.hpp | `CppParser`, `CppValues` (`JSValue`, `JSMap`), `CppJson` (`escapeJSON`, `toJSON`), `CppColor` |
| lib.rs | `RustParser`, `RustColor` |

`Agreement` proves where the ports classify alike and exhibits each difference on a concrete
command line. The standard input is a parameter: `Terminal`, or `Pipe(lines)` with the lines
already split. The process arguments are a parameter too.

## Model

| member | source | states |
|---|---|---|
| Classifier.PositionsSound | src/index.ts:150-154 | every entry of `o` is a scanned token pushed as positional with its 1-based position, every entry of `e` a scanned separator, and positions in each list strictly increase |
| Classifier.OthersSound | src/index.ts:174 | the `o` half of PositionsSound, by induction over the scan |
| Classifier.SeparatorsSound | src/index.ts:177 | the `e` half of PositionsSound, by induction over the scan |
| Classifier.PositionsComplete | src/index.ts:174-177 | a scanned token is in `o` (or `e`) with its position exactly when its action is positional (or separator) |
| Classifier.BucketsDisjoint | src/index.ts:151-154 | no position is in both `o` and `e`, and a token skipped as a value is in neither |
| Classifier.LongLastWins | src/index.ts:167-170 | a long flag is present iff some scanned token set it, and its value is the one the last such token gave |
| Classifier.ShortLastWins | src/index.ts:185-192 | the same for short flags, where a bundle sets each of its letters |
| Classifier.SameDecisions | index.ts:181-242 | two rules that decide alike on every token classify alike |
| Classifier.SameActions | other_languages/cpp/simpleargumentsparser.hpp:354-418 | rules that act alike, and agree on taking the next token wherever there is one, classify alike |
| Classifier.SameActionsAsText | other_languages/rust/src/lib.rs:98-161 | a rule that acts like another but stores every value as a string fills the same containers with the values written as strings |
| Classifier.SetAll | src/index.ts:189 | assigning a value to each key in turn: the keys grow by the assigned keys, which hold the value, and every other key keeps its value |
| Classifier.Letters | src/index.ts:189 | `split("")`: one single-letter key per character, in order |
| TsParser.Decide | src/index.ts:150-202 | the `forEach` callback on one token: a separator exactly for `--`; a long flag only from `--name` with a name matching the pattern; only a single flag (long, or one letter) takes the next token, and never a flag-like one. The branch-by-branch rules are the `TsParser.*Rule` lemmas |
| TsParser.ParseTokens | src/index.ts:149-203 | the `forEach` loop with `previousIsArg` fills exactly the containers `Classify(Decide, args)` describes |
| TsParser.SetEach | src/index.ts:189 | the bundle loop sets every letter of the name to `true` |
| TsParser.GetPipedInput | src/index.ts:114-148 | `false` for a terminal; otherwise the lines joined by "\n" (one trailing newline stripped, "" for no line) |
| TsParser.ParseCli | src/index.ts:110-208 | `s`, `c`, `o`, `e` are the scan of `argv.slice(2)`; `argc` is `argv.length - 2` (-1 for an argv with no script path, else the token count); `noArgs` holds iff argv has exactly two entries and the input is a terminal, empty or one empty line |
| TsParser.NoArgsIff | src/index.ts:204-206 | `!CLI.p && !numberOfArgs` holds iff argc is 0 and the piped lines join to a falsy value |
| TsParser.LookaheadIsFlagLike | src/index.ts:166 | the lookahead holds iff the next token exists, is non-empty and starts with `-` |
| TsParser.SeparatorRule | src/index.ts:162-163 | `--` appends its position to `e`, changes nothing else, and the next token is scanned |
| TsParser.LongBeforeFlagRule | src/index.ts:165-169 | a valid long name before a flag-like token sets `c[name] = true` and does not take the next token |
| TsParser.LongValueRule | src/index.ts:170-172 | otherwise `c[name]` is the next token if non-empty, else `true`, and the next token, even "", is skipped and lands nowhere |
| TsParser.OtherRule | src/index.ts:173-175 | a `--name` failing the pattern, an empty token and a token not starting with `-` go whole onto `o` with position index+1 |
| TsParser.ShortBeforeFlagRule | src/index.ts:184-187 | a letter-only name before a flag-like token, even a bundle, is one key set to `true` |
| TsParser.BundleRule | src/index.ts:188-191 | otherwise a bundle sets each letter to `true` and leaves the next token to be scanned |
| TsParser.ShortValueRule | src/index.ts:192-194 | otherwise a single letter takes the next token (`true` if missing or "") and skips it |
| TsParser.DroppedRule | src/index.ts:180-197 | a lone `-` and a short token whose name is not all letters change nothing |
| TsParser.PositionsInRange | src/index.ts:150-154 | positions in `o` and `e` lie in 1..argc, name their own token (`--` for `e`), strictly increase, and are disjoint from each other and from skipped positions |
| TsRootParser.Decide | index.ts:181-242 | the index.ts callback, with the same three guarantees as `TsParser.Decide`; `TsRootParser.SameAsReference` proves it decides as the reference on every token |
| TsRootParser.LookaheadIsFlagLike | index.ts:196 | the unparenthesised lookahead still means "non-empty and starts with `-`", the reference's test |
| TsRootParser.SameAsReference | index.ts:181-242 | index.ts classifies every command line exactly as src/index.ts does |
| TsRootParser.CloseLinesSameAsReference | index.ts:154-165 | the `> 1` and `=== 1` branches together are the reference's `>= 1` rule |
| TsRootParser.GetPipedInput | index.ts:140-170 | `false` for a terminal, otherwise the lines joined by "\n" |
| TsRootParser.ProcessArgv.Splice | index.ts:181 | `splice(2)` leaves the first two entries in `process.argv` and returns the rest |
| TsRootParser.ScanTokens | index.ts:181-242 | the loop fills exactly `Classify(Decide, arr)` |
| TsRootParser.ParseCli | index.ts:136-247 | `process.argv` keeps only its first two entries (all of them when it has fewer); the result is the scan of the rest; `argc` is `argv.length - 2`, -1 without a script path, where `noArgs` stays false |
| TsStyle.AnsiKey | src/index.ts:40-49 | the key computation: the upper-cased name, replaced by `BRIGHT_<rest>` or `BG_<rest>` after a lower-case `bright` or `bg` prefix. No contract of its own; `TsStyle.ResolveIff`, `SnakeNameMisses` and `TitleCaseMisses` state what it selects |
| TsStyle.Resolve | src/index.ts:50-52 | the `ANSI[ansiKey]` lookup of the `get` trap. No contract of its own; `TsStyle.ResolveIff`, `AccessorNamesResolve` and `ConstNamesResolve` characterise it |
| TsStyle.Get | src/index.ts:39-57 | the `get` trap: a new proxy over one more code, or `target` over the same codes. No contract of its own; `TsStyle.GetAppends` and `UnknownKeepsOutput` state both branches |
| TsStyle.Call | src/index.ts:58-65 | the `apply` trap and `fn`: the joined codes, the text, one reset. No contract of its own; `TsStyle.CallVisible` is its partner |
| TsStyle.ColorGet | src/index.ts:69-86 | the `get` trap of `color`: a proxy over the selected code or over none. No contract of its own; `TsStyle.ColorUnknown` and `ComposeNames` state it |
| TsStyle.Walk | src/index.ts:37-67 | reading properties in turn from a proxy; reading a style name off the plain function `target` gives `undefined`; the model gives None for any read off `target`. No contract of its own; `TsStyle.WalkNames` states it |
| TsStyle.Compose | src/index.ts:69-86 | `color.a.b…`: the first name on `color`, the rest on proxies. No contract of its own; `TsStyle.ComposeNames` states it |
| TsStyle.AnsiEntryIff | src/index.ts:3-35 | the `ANSI` object holds exactly the 31 codes, each under its constant name (`RED`, `BRIGHT_RED`, `BG_RED`, `RESET`) |
| TsStyle.ResolveIff | src/index.ts:39-50 | a name selects a code exactly when its computed key is that code's constant name |
| TsStyle.AccessorNamesResolve | src/index.ts:40-51 | every accessor name (`red`, `brightRed`, `bgRed`, `bold`, `reset`) selects its code |
| TsStyle.ConstNamesResolve | src/index.ts:40-51 | every constant name (`RED`, `BRIGHT_RED`) selects its code too |
| TsStyle.SnakeNameMisses | src/index.ts:42-50 | `bright_red` gives the key `BRIGHT__RED` and selects nothing |
| TsStyle.TitleCaseMisses | src/index.ts:42-50 | the prefix test is case-sensitive: `BrightRed` selects nothing, while `red` and `RED` select red |
| TsStyle.GetAppends | src/index.ts:50-51 | a known name yields a new proxy over the codes plus that code; calling it writes the old codes, the new escape, the text and a reset |
| TsStyle.UnknownKeepsOutput | src/index.ts:53-55 | an unknown name yields the proxy's own function over the same codes, with the same output |
| TsStyle.WalkNames | src/index.ts:37-67 | chaining the accessor names of any codes builds a proxy over exactly those codes |
| TsStyle.ComposeNames | src/index.ts:69-86 | reading the accessor names of some codes off `color` yields a proxy over exactly those codes, and calling it writes their escapes, the text and one reset |
| TsStyle.CallVisible | src/index.ts:58-65 | stripping the escapes from a call's output gives back the text, even with no codes |
| TsStyle.ColorUnknown | src/index.ts:81-84 | an unknown name on `color` gives an empty proxy whose call is the text and a reset |
| TsStyle.Names | src/index.ts:69-86 | the accessor names of some codes, one per code |
| Ansi.TableClosed | src/index.ts:3-35 | every code is in the table, which has 31 entries |
| Ansi.AllCodesDistinct | src/index.ts:3-35 | the 31 escapes are pairwise distinct |
| Ansi.EscapeInjective | src/index.ts:3-35 | distinct codes have distinct escapes |
| Ansi.StyledTextVisible | src/index.ts:60 | any codes, a text without escapes and a reset strip back to the text |
| Ansi.StripCodes | src/index.ts:60 | stripping skips any run of escapes |
| Ansi.HueOfNames | src/index.ts:11-34 | each hue's name, title and constant spelling leads back to the hue |
| CppValues.FromInt | other_languages/cpp/simpleargumentsparser.hpp:111-115 | `operator=(int)` stores the boolean `val != 0`, truthy iff `val != 0`, text "true"/"false" |
| CppValues.TruthyIsText | other_languages/cpp/simpleargumentsparser.hpp:70-87 | a value is truthy iff its text is non-empty and neither "false" nor "0" |
| CppValues.At | other_languages/cpp/simpleargumentsparser.hpp:127-131 | the const `operator[]`: the stored value, or a non-existing falsy value for a missing key |
| CppValues.JSMap.Subscript | other_languages/cpp/simpleargumentsparser.hpp:123-125 | the non-const `operator[]` inserts a non-existing entry for a missing key and leaves others alone |
| CppValues.JSMap.Assign | other_languages/cpp/simpleargumentsparser.hpp:93-109 | assignment through a reference replaces exactly that key's value |
| CppValues.JSMap.Get | other_languages/cpp/simpleargumentsparser.hpp:127-131 | reading the map is `At` over its contents |
| CppParser.LookaheadIsFlagLike | other_languages/cpp/simpleargumentsparser.hpp:370-371 | the C++ lookahead on `next` ("" when missing) means "non-empty and starts with `-`" |
| CppParser.Scan | other_languages/cpp/simpleargumentsparser.hpp:352-418 | the `for` loop fills the maps of JSValue and the vectors of `Classify(Decide, argv[1..])`, with positions one higher |
| CppParser.Visit | other_languages/cpp/simpleargumentsparser.hpp:363-418 | one loop step records the token's action and sets `previousIsArg` to whether it takes the next token |
| CppParser.SetEach | other_languages/cpp/simpleargumentsparser.hpp:397-401 | the bundle loop sets every letter to `true` |
| CppParser.GetPipedInput | other_languages/cpp/simpleargumentsparser.hpp:253-269 | "" for a terminal, otherwise the lines joined by "\n" (the last newline popped) |
| CppParser.Parse | other_languages/cpp/simpleargumentsparser.hpp:346-429 | the scan's containers, `p` as above, `argc` is argc-1, `noArgs` iff no tokens and `p` empty |
| CppParser.Decide | other_languages/cpp/simpleargumentsparser.hpp:355-418 | the loop body on one token: a separator exactly for `--`, nothing recorded exactly for a lone `-`, a long flag only from `--name` with a valid name, and the next argument taken only by a single flag and only when it exists, is non-empty and does not start with `-` |
| CppParser.ShortAccessors | other_languages/cpp/simpleargumentsparser.hpp:523-547 | `has`, `get` and `isTrue` read the scan's short flags; `get` gives the default and `isTrue` false for a missing key; `isTrue` is false only for "false" and "0" |
| CppParser.LongAccessors | other_languages/cpp/simpleargumentsparser.hpp:527-553 | the same for `hasLong`, `getLong` and `isLongTrue` |
| CppParser.Has | other_languages/cpp/simpleargumentsparser.hpp:523-525 | `has(shortName)`: the key is in `s`. Stated against the scan by `CppParser.ShortAccessors` |
| CppParser.HasLong | other_languages/cpp/simpleargumentsparser.hpp:527-529 | `hasLong(longName)`: the key is in `c`. Stated against the scan by `CppParser.LongAccessors` |
| CppParser.Get | other_languages/cpp/simpleargumentsparser.hpp:531-535 | `get(shortName, default)`: the default for a missing key, else the value's text. Stated against the scan by `CppParser.ShortAccessors` |
| CppParser.GetLong | other_languages/cpp/simpleargumentsparser.hpp:537-541 | `getLong(longName, default)`, the same on `c`. Stated by `CppParser.LongAccessors` |
| CppParser.IsTrue | other_languages/cpp/simpleargumentsparser.hpp:543-547 | `isTrue(shortName)`: false for a missing key, else the value's truthiness. Stated by `CppParser.ShortAccessors` and `CppValues.TruthyIsText` |
| CppParser.IsLongTrue | other_languages/cpp/simpleargumentsparser.hpp:549-553 | `isLongTrue(longName)`, the same on `c`. Stated by `CppParser.LongAccessors` |
| CppParser.NoEmptyValues | other_languages/cpp/simpleargumentsparser.hpp:373-408 | the scan never stores "": an empty next token gives `true` |
| CppParser.AsWrittenPositions | other_languages/cpp/simpleargumentsparser.hpp:354-417 | as written, positions lie in 2..argc+1 and name `argv[pos-1]` |
| CppParser.SeparatorPositionPastArgc | other_languages/cpp/simpleargumentsparser.hpp:385 | with `{"prog", "--"}` argc is 1 but `e` is `[2]` |
| CppParser.CorrectedPositions | other_languages/cpp/simpleargumentsparser.hpp:354-417 | counted as the other ports count, positions lie in 1..argc, name their token and strictly increase |
| CppJson.EscapeJson | other_languages/cpp/simpleargumentsparser.hpp:280-302 | the loop's output is `Escaped(str)` |
| CppJson.Escaped | other_languages/cpp/simpleargumentsparser.hpp:280-302 | the escaped text is no shorter than the input and holds no control character |
| CppJson.EscapeChar | other_languages/cpp/simpleargumentsparser.hpp:283-299 | one character's escape is non-empty and holds no control character |
| CppJson.UnescapeEscaped | other_languages/cpp/simpleargumentsparser.hpp:280-302 | decoding the escaped text as a JSON string body (section 7 of RFC 8259) gives back the input |
| CppJson.QuotedRoundTrip | other_languages/cpp/simpleargumentsparser.hpp:443-447 | a quoted, escaped string reads back as the original |
| CppJson.Hex4RoundTrip | other_languages/cpp/simpleargumentsparser.hpp:292-294 | the four hex digits of `\u%04x` read back as the byte |
| CppJson.KeyOrder | other_languages/cpp/simpleargumentsparser.hpp:438-439 | what `keys()` yields: every key of the map exactly once, in the hash map's order |
| CppJson.MembersEachKeyOnce | other_languages/cpp/simpleargumentsparser.hpp:437-465 | listed in `keys()` order, the members of `s` or `c` are as many as the map's keys, each carries the value stored under its key, and every key appears |
| CppJson.WriteMembers | other_languages/cpp/simpleargumentsparser.hpp:437-451 | the loop writes the members in the given key order, separated by ", " |
| CppJson.WriteOthers | other_languages/cpp/simpleargumentsparser.hpp:467-471 | the loop writes each `o` entry as `["token", position]`, separated by ", " |
| CppJson.WritePositions | other_languages/cpp/simpleargumentsparser.hpp:482-486 | the loop writes each `e` position, separated by ", " |
| CppJson.Document | other_languages/cpp/simpleargumentsparser.hpp:431-493 | the document `toJSON` prints, field by field. No contract of its own; `CppJson.MembersEachKeyOnce`, `PipedTextFaithful`, `ValueTextFaithful` and `QuotedRoundTrip` state what each field reads back as |
| CppJson.ToJson | other_languages/cpp/simpleargumentsparser.hpp:431-495 | given each map's `keys()` order (every key exactly once), the output is the document; a negative indent is the error `std::string spaces(indent, ' ')` raises |
| CppJson.PipedTextFaithful | other_languages/cpp/simpleargumentsparser.hpp:474-479 | `p` is written `false` iff it is empty; otherwise as a string literal that reads back as `p` |
| CppJson.ValueTextFaithful | other_languages/cpp/simpleargumentsparser.hpp:444-448 | booleans are written bare as their text, strings as a literal reading back as the text |
| CppColor.Call | other_languages/cpp/simpleargumentsparser.hpp:164-170 | `operator()`: the codes, the text, one reset. No contract of its own; `CppColor.CallVisible` is its partner |
| CppColor.With | other_languages/cpp/simpleargumentsparser.hpp:172-204 | the named methods `bold()` … `bgWhite()`: a new `Color` with one escape appended. No contract of its own; `CppColor.Chain` states a sequence of calls |
| CppColor.Subscript | other_languages/cpp/simpleargumentsparser.hpp:206-240 | `operator[]`: lower-case the name, re-capitalise after `bright`/`bg`, look it up. No contract of its own; `CppColor.SubscriptIff`, `SubscriptSelects` and `SubscriptUnknown` state it |
| CppColor.MapEntryIff | other_languages/cpp/simpleargumentsparser.hpp:207-220 | `colorMap` holds exactly the 30 codes other than reset, each under its accessor name |
| CppColor.LowerKeyOf | other_languages/cpp/simpleargumentsparser.hpp:222-233 | re-capitalising after `bright`/`bg` changes only the case of one letter |
| CppColor.SubscriptIff | other_languages/cpp/simpleargumentsparser.hpp:206-239 | `operator[]` selects a code iff the name equals its accessor name up to case; reset is never selected |
| CppColor.SubscriptSelects | other_languages/cpp/simpleargumentsparser.hpp:235-237 | such a name appends the code, as the named method does |
| CppColor.SubscriptUnknown | other_languages/cpp/simpleargumentsparser.hpp:239 | any other name returns the same codes |
| CppColor.SubscriptIgnoresCase | other_languages/cpp/simpleargumentsparser.hpp:222-233 | `BRIGHTRED` selects bright red |
| CppColor.SubscriptReset | other_languages/cpp/simpleargumentsparser.hpp:207-238 | `reset` adds nothing |
| CppColor.Chain | other_languages/cpp/simpleargumentsparser.hpp:172-204 | calling the style methods for some codes from the default `Color` accumulates exactly their escapes |
| CppColor.CallVisible | other_languages/cpp/simpleargumentsparser.hpp:164-166 | stripping the escapes from `operator()`'s output gives back the text |
| RustParser.Decide | other_languages/rust/src/lib.rs:98-161 | the loop body on one token: a separator exactly for `--`, every other token recorded (nothing is dropped), a long flag only from `--name` with a name passing `is_valid`, and the next argument taken only by a single flag and only when it exists and does not start with `-` |
| RustParser.ValidLongIff | other_languages/rust/src/lib.rs:111-115 | on non-empty names the character tests accept exactly the names matching `^[a-zA-Z0-9]+(?:-[a-zA-Z0-9]+)*$` |
| RustParser.TailIff | other_languages/rust/src/lib.rs:111-115 | the pattern's tail and the character tests describe the same strings |
| RustParser.ParseCli | other_languages/rust/src/lib.rs:88-174 | the string maps and vectors of `Classify(Decide, args)`; `p` as below; `argc` counts the arguments; `no_args` iff none and `p` is `None` |
| RustParser.Visit | other_languages/rust/src/lib.rs:103-160 | one loop step records the token's action and sets `previous_is_arg` to whether it takes the next token |
| RustParser.SetEach | other_languages/rust/src/lib.rs:140-142 | the bundle loop sets every letter to "true" |
| RustParser.PipedInput | other_languages/rust/src/lib.rs:176-184 | what `get_piped_input` returns: `None` for a terminal or no lines, else the lines joined by "\n". No contract of its own; `RustParser.GetPipedInput` is proved to return it |
| RustParser.GetPipedInput | other_languages/rust/src/lib.rs:176-184 | `None` for a terminal or zero lines, else `Some` of the lines joined by "\n" |
| RustParser.LongRule | other_languages/rust/src/lib.rs:109-130 | `--name` sets a long flag iff the name matches the reference pattern, to the next token when it is taken, else "true"; otherwise it is positional |
| RustParser.BundleRule | other_languages/rust/src/lib.rs:139-142 | a bundle is always split into "true" flags, whatever follows, and takes nothing |
| RustParser.DashTokensPositional | other_languages/rust/src/lib.rs:106-160 | every token shorter than two characters (a lone `-` too) and every `-name` whose name is not all letters (`-3`) is positional, whatever follows |
| RustParser.EmptyNextTaken | other_languages/rust/src/lib.rs:118-124 | an empty next token becomes the value and is skipped |
| RustParser.ValuesAreStrings | other_languages/rust/src/lib.rs:118-151 | every stored value is "true" or a token not starting with `-` |
| RustParser.PositionsInRange | other_languages/rust/src/lib.rs:129-159 | positions lie in 1..argc, name their token (`--` for `e`) and strictly increase |
| RustColor.Apply | other_languages/rust/src/lib.rs:27-32 | `apply`: the bare text with no codes, else the codes, the text and a reset. No contract of its own; `RustColor.ApplyVisible` and `EmptyStyles` state it |
| RustColor.AddStyle | other_languages/rust/src/lib.rs:34-38 | `add_style`: a copy with one more code. No contract of its own; `RustColor.AddStyleAppends` states its output |
| RustColor.Builder | other_languages/rust/src/lib.rs:40-81 | the builder methods (`bold` … `invert`, `fg_*`, `bg_*`): `add_style` with their code |
| RustColor.Painter | other_languages/rust/src/lib.rs:56-72 | the painting methods (`red(text)`, `bright_red(text)` …): add the code, then `apply` |
| RustColor.Macro | other_languages/rust/src/lib.rs:186-227 | `color!`: the known names' escapes, the text, one reset. No contract of its own; `RustColor.MacroOfNames`, `MacroPiecesKnown` and `MacroVisible` state it |
| RustColor.ApplyVisible | other_languages/rust/src/lib.rs:27-32 | stripping the escapes from `apply`'s output gives back the text, with or without codes |
| RustColor.AddStyleAppends | other_languages/rust/src/lib.rs:34-38 | a derived colour writes the receiver's escapes, the new one, the text and a reset |
| RustColor.EmptyStyles | other_languages/rust/src/lib.rs:27-32 | `paint` with no codes returns the bare text; `color!` with no known name still appends a reset |
| RustColor.MacroEntryIff | other_languages/rust/src/lib.rs:191-222 | the macro knows exactly the 30 codes other than reset, each under its snake-case name |
| RustColor.MacroPiecesKnown | other_languages/rust/src/lib.rs:189-225 | unknown names contribute "": the macro's codes are those of the names it knows |
| RustColor.MacroOfNames | other_languages/rust/src/lib.rs:189-225 | naming any codes but reset styles the text with exactly those codes and one reset |
| RustColor.MacroVisible | other_languages/rust/src/lib.rs:225 | stripping the escapes from the macro's output gives back the text |
| RustColor.Known | other_languages/rust/src/lib.rs:191-222 | the codes of the known names never include reset |
| Agreement.LookaheadsAgree | src/index.ts:166 | the three lookahead tests are the same test |
| Agreement.TsCppAgree | other_languages/cpp/simpleargumentsparser.hpp:363-418 | on non-empty tokens whose single-dash names are all letters, C++ classifies as the reference |
| Agreement.TsRustAgree | other_languages/rust/src/lib.rs:98-161 | on non-empty tokens with valid single-dash names and no bundle before a flag-like token, Rust classifies as the reference with values as strings |
| Agreement.MinusDigit | src/index.ts:183 | `-3` is dropped by the reference and positional in C++ and Rust |
| Agreement.LoneDash | src/index.ts:181 | a lone `-` is dropped by the reference and C++ and positional in Rust |
| Agreement.BundleBeforeFlagKept | src/index.ts:184-187 | `-lvk -x` gives the key `lvk` in the reference and C++ |
| Agreement.BundleBeforeFlagSplit | other_languages/rust/src/lib.rs:139-142 | Rust splits `-lvk` before `-x` into three keys |
| Agreement.EmptyNextToken | other_languages/cpp/simpleargumentsparser.hpp:374-379 | after `--name`, "" is skipped by the reference, positional in C++, and the value in Rust |
| Agreement.CppZeroIsFalse | other_languages/cpp/simpleargumentsparser.hpp:543-547 | `-n 0` in C++: `has` and `get` see "0" but `isTrue` is false |
| Agreement.MinusNZero | src/index.ts:192 | `-n 0` sets `n` to "0" in the reference and C++ |
| Agreement.EmptyPipedLine | src/index.ts:204-206 | one empty piped line joins to "", which the reference counts as no input for `noArgs`, while Rust's piped input is `Some("")` and so not `None` |
| Strings.JoinEmpty | src/index.ts:204 | the lines join to "" iff there are none or one empty line |
| Strings.TerminatedIsJoin | src/index.ts:124-133 | appending each line with "\n" and dropping the last newline is joining with "\n" |
| Strings.DecimalRoundTrip | other_languages/cpp/simpleargumentsparser.hpp:470 | the decimal text of a position reads back as the number |

## Left out

- Reading the standard input and the process arguments: readline events, `isTTY`, `isatty`, `std::getline`, `stdin.lock().lines()`, `process.argv` and `env::args`. Lines and tokens are parameters.
- Line splitting: Rust's `lines()` and Node's readline drop a `\r` before `\n`, and C++ `getline` keeps it. The model takes the lines as already split.
- RustParser.GetPipedInput: a line that fails to read (invalid UTF-8) is dropped by the source; the model's lines are always read.
- `tryJQ` (runs a shell), `debug()`, `CLI_DEBUG`, `CLI_OPT` and the examples' printing: foreign processes and console output.
- The JavaScript `Proxy` machinery beyond the `get` and `apply` traps: Symbol keys, `typeof` on the proxy, and `get` traps fired by the runtime. Also the `async`/Promise wrapper and `Object.freeze`.
- The module-level `CLI` object of both TypeScript files, reused across calls (a second call adds to the same maps): each model call builds a fresh result.
- The `color` member of each result is left out of the result types; the style composers are modelled on their own.
- Hash-map iteration order in `toJSON`: unspecified, so the key orders are parameters of `CppJson.ToJson`, constrained only to list every key once.
- CppParser.Parse: the result holds plain maps of `JSValue` rather than `JSMap` objects; `JSMap` and its inserting `operator[]` are modelled on their own in `CppValues`.
- TsStyle.Walk: the function `target` has its own and inherited properties (`name`, `length`, `prototype`, `call`, `apply`, `bind`, `toString`); the model collapses every read off `target` into None, so `color.red.name.length`, which is 1 in the source, is None here.
- TsStyle.Resolve: upper-cases ASCII letters only. JavaScript's `toUpperCase` maps a few non-ASCII letters onto ASCII (dotless `ı` to `I`), so `whıte` selects white in the source and nothing in the model.
- Character classes are ASCII (`::isalpha`, `::tolower`, the regular expressions): locale-dependent behaviour is not modelled.
- Strings are sequences of characters, not UTF-16 code units (TypeScript) or bytes (C++). This only matters for non-ASCII text, which the name tests reject and `escapeJSON` passes through.
- CppJson.Hex4RoundTrip: proved only below 0x100, which covers every value `escapeJSON` writes (0x00 to 0x1f).
- The compiled copies under dist/, the example programs and the Rust test file: they only repeat or call the modelled code.
- The `color!` macro's expansion happens at compile time over identifiers; the model takes the style names as a sequence of strings.

## Findings

| source | as written | input that shows it | evidently intended | confidence | as-written member | corrected member |
|---|---|---|---|---|---|---|
| other_languages/cpp/simpleargumentsparser.hpp:354-417 | `CLI::parse` counts `i` from 1 over `argv` (the program name is at 0) and pushes `i + 1`. Every position in `o` and `e` is therefore one more than the argument's place, and the last argument gets argc + 1. | `argv = {"prog", "--"}`: argc is 1 and `e` is `[2]` | positions 1..argc, naming the argument as the TypeScript and Rust ports do | medium, not executed | CppParser.SeparatorPositionPastArgc | CppParser.CorrectedPositions |
