# Command-line argument parser: a Dafny model

This project models the argument-parsing library that the coreutils-style
programs of the repository are built on. A program declares its arguments;
each declared argument is a small three-phase automaton (`Start`, `Seeking`,
`End`) holding a value. `ArgumentParser::ParseArgsOrExit` makes one
left-to-right pass over the command line without the program name:

- a version request (`-v`, `--version`) or a help request (`-h`, `--help`)
  ends the pass before any argument sees the token;
- every other token goes to every argument in declaration order, through
  `TryParseFlag` when it starts with `-` and through `TryParseValue`
  otherwise;
- an argument that throws aborts the pass.

There are four kinds of argument:

- the boolean flag (`NArgs::None`): set by its first name token; its second
  name token is a duplicate-option error;
- the single-value option (`NArgs::One`): seeks after its name and takes the
  next value token, converted; naming it again is a repeated-flag error;
- the named multi-value option (`NArgs::Many`): collects value tokens after
  its name. Its own name again is a duplicate-option error. Another flag
  closes it, or throws a no-values error when it has collected nothing;
- the positional catch-all (`NArgs::Many` with the empty name): collects
  value tokens until the first flag.

Layout:

- `arguments.dfy` (module `Arguments`): the data model and the automata.
  `FlagStep` and `ValueStep` give the meaning of one token for one argument.
  `Feed` shows one argument a whole token sequence. The class `Argument`
  holds the mutable `state` and `value` fields; its methods `TryParseFlag`
  and `TryParseValue` update them in place and are proved against
  `FlagStep` and `ValueStep`.
- `argument_properties.dfy` (module `ArgumentProperties`): what each kind
  does with a whole token sequence.
- `parser.dfy` (module `Parser`): the driver. `BroadcastFrom` and `Run` are
  the specification of the scan. The class `ArgumentParser` owns one
  `Argument` object per declared argument; its `ParseArgsOrExit` loop (and
  the two broadcast loops under it) is proved against `Run`.
- `parser_properties.dfy` (module `ParserProperties`): dispatch order,
  help/version precedence, and the independence of the arguments. Also
  sample command lines worked through.

Modelling choices:

- A thrown `std::runtime_error` becomes a `ParseError` value. It records the
  kind and the token the message interpolates.
- `PrintHelp`/`PrintVersion` followed by `std::exit(0)` become the results
  `Help(lines)` and `Version`.
- The user-supplied converter is a function field `convert: string -> T` of
  the argument's `Descriptor`. `initial` is the value-initialised `T` that a
  single-value option holds until it is given a value.
- The empty template name `""` is the empty `names` list. As in the source,
  a multi-value argument with it is the positional catch-all; a boolean or
  single-value argument with it can never be named.

Points worth noting about the code:

- A named multi-value option that is seeking and meets its own name throws
  a duplicate-option error, whatever it has collected. So `-n a b -n` and
  `-n -n` both fail with a duplicate-option error. They do not close the
  option silently, and they do not raise a missing-value error. The
  no-values error comes only from a different flag, and it names that other
  flag.
- A repeated single-value option throws its own message ("unexpected
  repeated flag"), modelled as the separate kind `RepeatedFlag`.
- The driver reserves the short forms `-v` and `-h` as well as `--version`
  and `--help`.

## Model

| member | source | states |
|---|---|---|
| `Arguments.HelpView` | lib/ArgumentParser.hpp:68-83 | a named argument is listed under one of its own names. For a well-formed argument the help line looks like a flag exactly when the argument has names, so the positional argument's line never reads as an option |
| `Arguments.Initial` | lib/ArgumentParser.hpp:146-241 | every argument starts in Start with the default value for its arity: false, the value-initialised `T`, or an empty vector (the `value{}` members at lines 146, 171, 200 and 241) |
| `Arguments.FlagStep` | lib/ArgumentParser.hpp:96-242 | a flag token never changes any value except a boolean's (to true). Phases never move back. An error carries the flag token. A token that is not one of the argument's names can only raise the no-values error of a seeking multi-value option |
| `Arguments.ValueStep` | lib/detail/ArgumentParser.hpp:92-238 | a value token never throws. It changes only an argument that is seeking (or a positional argument not yet closed). A single value is replaced by the converted token and closed; a vector gains the converted token at its end |
| `Arguments.Step` | lib/ArgumentParser.hpp:279-287 | tokens starting with '-' go to the flag automaton and all others to the value automaton; only flag tokens can throw |
| `Arguments.Feed` | lib/ArgumentParser.hpp:273-289 | over a token sequence, the value keeps the shape its arity requires and the phase only moves forward; an error names one of the flag tokens of the sequence |
| `Arguments.Argument.constructor` | lib/ArgumentParser.hpp:63-87 | a new argument object is in its initial state and well-formed: a named argument's primary name starts with '-' |
| `Arguments.Argument.TryParseFlag` | lib/ArgumentParser.hpp:113-239 | the in-place update equals `FlagStep`; a throw leaves the state and value unchanged |
| `Arguments.Argument.TryParseValue` | lib/ArgumentParser.hpp:102-219 | the in-place update equals `ValueStep` |
| `ArgumentProperties.ValuePrefix` | lib/ArgumentParser.hpp:154-168 | the result is a prefix of the tokens without any flag token, and it ends at the first flag token, so it is the longest such prefix |
| `ArgumentProperties.FeedAppend` | lib/ArgumentParser.hpp:273-289 | showing an argument `a + b` is showing it `a` and then, unless it threw, `b` |
| `ArgumentProperties.BooleanCountsOccurrences` | lib/detail/ArgumentParser.hpp:170-197 | a boolean flag whose name was seen no times is false in Start, seen once is true in End, and seen twice or more throws a duplicate-option error (if and only if); value tokens never affect it |
| `ArgumentProperties.UnnamedStaysUnchanged` | lib/ArgumentParser.hpp:96-242 | a named argument in Start that never sees one of its names keeps its state, whatever other tokens arrive |
| `ArgumentProperties.SingleTakesNextValue` | lib/detail/ArgumentParser.hpp:199-215 | a seeking single-value option skips foreign flags and takes the next value token, converted, and closes |
| `ArgumentProperties.SingleMeetsOwnName` | lib/ArgumentParser.hpp:231-236 | a seeking single-value option that meets one of its own names throws a repeated-flag error naming that token |
| `ArgumentProperties.SingleSkipsForeignFlags` | lib/ArgumentParser.hpp:219-238 | a seeking single-value option shown only flags that are not its own stays exactly as it is, without an error |
| `ArgumentProperties.SingleNamedWithoutValueKeepsDefault` | lib/ArgumentParser.hpp:209-241 | a single-value option named once and followed by no value token (only other flags, or nothing) keeps its value-initialised default without an error, and keeps seeking |
| `ArgumentProperties.NamedTwiceFails` | lib/ArgumentParser.hpp:113-236 | a single- or multi-value option whose names are seen twice in all (counting one for an option already out of Start) throws |
| `ArgumentProperties.ClosedOptionStays` | lib/ArgumentParser.hpp:136-236 | a closed single- or multi-value option stays unchanged exactly as long as it is not named again. Naming it again throws a duplicate-option error for a multi-value option (its End branch, lines 136-141) or a repeated-flag error for a single-value one (lines 231-236) |
| `ArgumentProperties.MultiCollects` | lib/detail/ArgumentParser.hpp:98-108 | a seeking multi-value option appends every value token, converted, in arrival order |
| `ArgumentProperties.MultiMeetsFlag` | lib/detail/ArgumentParser.hpp:120-131 | in Seeking: its own name is a duplicate-option error even with values collected; a foreign flag with no values is a no-values error naming that flag; a foreign flag with values closes it |
| `ArgumentProperties.MultiNamedThenValues` | lib/detail/ArgumentParser.hpp:92-143 | named once and then given value tokens, a multi-value option holds exactly those tokens converted in order, and keeps seeking |
| `ArgumentProperties.PositionalTakesValuePrefix` | lib/detail/ArgumentParser.hpp:145-168 | the positional argument never throws. Unless closed, it appends the converted longest prefix of value tokens and any flag closes it. Once closed, nothing changes it |
| `ArgumentProperties.PositionalFromStart` | lib/ArgumentParser.hpp:149-172 | from its initial state, the positional argument's value is exactly the longest prefix of value tokens, converted in order |
| `Parser.InitialStates` | lib/ArgumentParser.hpp:316 | the parser's arguments all start in Start with their default values |
| `Parser.HelpLines` | lib/ArgumentParser.hpp:299-304 | the help text lists each argument's help line in declaration order |
| `Parser.BroadcastFrom` | lib/ArgumentParser.hpp:280-286 | dispatching a token keeps every value well-shaped, and only a flag token can make it throw |
| `Parser.Run` | lib/ArgumentParser.hpp:272-290 | a scan that finishes saw no help or version request; a help result carries the arguments' help lines; a failed scan contains a flag token that is not a help or version request |
| `Parser.ArgumentParser.constructor` | lib/ArgumentParser.hpp:269-270 | the parser keeps argv[1..argc) and one fresh, distinct argument object per descriptor, each in its initial state |
| `Parser.ArgumentParser.BroadcastFlag` | lib/ArgumentParser.hpp:280-282 | the loop over the arguments calling `TryParseFlag` ends in the states and outcome that `BroadcastFrom` specifies |
| `Parser.ArgumentParser.BroadcastValue` | lib/ArgumentParser.hpp:284-286 | the loop over the arguments calling `TryParseValue` ends in the states that `BroadcastFrom` specifies, without an error |
| `Parser.ArgumentParser.ParseArgsOrExit` | lib/ArgumentParser.hpp:272-290 | the scan loop ends with the arguments' states and the result that `Run` specifies for the command line |
| `Parser.ArgumentParser.Get` | lib/ArgumentParser.hpp:306-309 | `get` returns the stored value of the requested argument |
| `ParserProperties.BroadcastInOrder` | lib/ArgumentParser.hpp:280-286 | arguments take a token in declaration order. If argument k throws, its error is the result: those before it have taken the token, it and those after it are unchanged. If none throws, each argument is in its own next state |
| `ParserProperties.MetaTokenEndsScan` | lib/ArgumentParser.hpp:274-278 | a help or version request ends the scan with that result. The earlier tokens' effects stand and the later tokens are never seen |
| `ParserProperties.FailureEndsScan` | lib/ArgumentParser.hpp:273-286 | a throw ends the scan at once. The first argument that throws on the first throwing token decides the error, the arguments keep the states they had at the throw, and the later tokens are never seen |
| `ParserProperties.ScanIsPerArgument` | lib/ArgumentParser.hpp:272-290 | without help or version requests, the scan finishes if and only if no argument shown all the tokens on its own throws. Each argument then ends in its own final state. A failed scan reports an error that one argument would throw on its own |
| `ParserProperties.PositionalGetsValuePrefix` | lib/ArgumentParser.hpp:149-172 | after a finished parse the positional argument holds the longest prefix of value tokens, converted in order |
| `ParserProperties.BooleanIsPresence` | lib/ArgumentParser.hpp:174-201 | after a finished parse a boolean flag is true exactly when one token named it; two make the parse fail |
| `ParserProperties.OptionNamedTwiceFailsParse` | lib/ArgumentParser.hpp:113-236 | without help or version requests, a command line that names a single- or multi-value option twice makes the parse fail |
| `ParserProperties.SingleWithoutValueKeepsDefault` | lib/ArgumentParser.hpp:209-241 | after a finished parse, a single-value option that was named but given no value token after it holds its value-initialised default |
| `ParserProperties.UnnamedKeepsDefault` | lib/ArgumentParser.hpp:200-241 | after a finished parse, a named argument that no token named has its default value |
| `ParserProperties.RepeatedMultiIsDuplicate` | lib/ArgumentParser.hpp:124-127 | `-n a b -n` and `-n -n` both fail with a duplicate-option error for `-n` |
| `ParserProperties.NoValuesNamesTheOtherFlag` | lib/ArgumentParser.hpp:128-131 | `-n -q` fails with a no-values error naming `-q`; `-q -n` finishes with `-n` seeking and empty |
| `ParserProperties.EarlierArgumentsKeepTheirUpdate` | lib/ArgumentParser.hpp:280-282 | when the second argument throws on `-q`, the boolean declared first has already been set by it |
| `ParserProperties.ThrowHidesLaterTokens` | lib/ArgumentParser.hpp:273-286 | `-n -q -q` fails with the no-values error for the first `-q`. The boolean declared first has already taken that token, and the second `-q` (a duplicate for the boolean) is never seen |
| `ParserProperties.SingleValueSamples` | lib/ArgumentParser.hpp:209-237 | `-t -q 42` gives `-t` the value 42. `-t` alone leaves the default without an error. `-t 1 -t` and `-t -t` fail with a repeated-flag error |
| `ParserProperties.HelpComesFirst` | lib/ArgumentParser.hpp:276-277 | `a --help -q -q` ends with the help result, with `a` already collected, and the duplicate `-q` is never seen |

## Left out

- Printing and process exit: the usage line, the help and version text, the license string, `std::println` and `std::exit(0)`. Only the `Help` and `Version` results and the per-argument help lines are modelled.
- The text of the error messages (`std::format`). An error keeps its kind and the token it interpolates.
- Converter failures (exceptions thrown by the user-supplied converter): the converter is a total function here.
- Value types per argument: the C++ tuple holds arguments of different value types, but here all arguments of one parser share one type `T` (instantiate it with a sum type to mix kinds). `get<Out>()` selects by type; here `Get` selects by declaration index.
- `Parser.ArgumentParser.Get`: `get<Out>()` returns a `const Out&` to the whole argument object, and callers read its `value` member. The model's `Get` returns that stored value directly.
- The compile-time machinery (`ComptimeString`, `consteval`, templates, `std::apply`, `static_assert`). The `static_assert` on primary names becomes the `WellFormed` precondition of the constructors. The void/non-void rule is part of the shape of `Value`.
- `argc == 0`: the constructor requires at least the program name, as the span `argv + 1 .. argv + argc` does.
- The `Version` result does not carry the program name and version string.
- The coreutils front ends (echo, ls, mkdir, yes): they only do I/O around the parser.
- The test file: it targets a different parser interface.
