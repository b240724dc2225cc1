# tplayer command dispatch, modelled in Dafny

tplayer is a chat bot that lets authorized viewers of a Twitch channel control
an mpv media player by typing commands such as `!pause`, `!rewind 30` or
`!vol 50`. This project models the part of `src/main.rs` that decides what
happens to each chat message, and what each command then does:

- `format_time`, the "HH:MM:SS" / "MM:SS" clock used by `!pos` (module `Clock`);
- the `u16` argument parser and the decimal rendering of a `u16` (module `Numbers`);
- `split_ascii_whitespace`, as a specification function `Tokens` and as the
  iterator step `NextToken` that the loop advances (module `Tokenize`);
- the nine handler closures, as a tag per closure and a function `Handle`
  that gives the trace of one invocation: property reads (`Get`),
  `set_property` requests (`Send`) and chat replies (`Say`) (module `Handlers`);
- the `Bot` struct as a class (module `Commands`): the `commands` registry, a
  `map` that `AddCommand` updates in place; the immutable lower-cased
  authorized set; the random source, whose state is the number of draws made;
  the start-up registrations; the per-message decision `Dispatch`; one turn
  of the loop `Step`; and the loop `MainLoop`.

The specification functions are `FormatTime`, `ParseU16`, `Tokens`,
`Route` (which trigger, if any, a message is dispatched to), `ArgsFor` (the
`CmdArgs` a trigger receives from the token after it) and `Handle`. The
methods are proved against them, and the lemmas state what the program
promises about them.

What the player answers is an input: a `Player` value holds the readings of
`time-pos`, `duration` and `volume` (each `None` when the read fails) and the
error text of a failed send. Floating-point values are `real`.

The seek handlers read `time-pos` before their `set_property` request, and
`!pos` reads `time-pos` and `duration` and sends nothing; so a handler makes
at most two requests to the player, of which at most one is a `set_property`
(`AtMostOneEach`). The hour field of `format_time` is reduced modulo 60, so
the clock wraps every 60 hours (`FormatTime(216000) == "00:00"`).

## Model

| member | source | states |
|---|---|---|
| `Clock.FormatTime` | src/main.rs:94-104 | the output is five characters when the hour field is zero and eight otherwise; its exact shape and read-back are stated by `FormatTimeReadsBack` and `ParseClockFormats` |
| `Clock.FormatTimeReadsBack` | src/main.rs:94-104 | the output is 5 characters exactly when the hour field `((s/60)/60)%60` is zero and 8 otherwise, and an independent reader of "MM:SS" / "HH:MM:SS" (two-digit fields below 60) gives back `s % 216000` |
| `Clock.ParseClockFormats` | src/main.rs:94-104 | every string that reader accepts is exactly what `format_time` prints for its value, so the outputs are exactly the canonical clock strings below 60 hours |
| `Clock.Decompose` | src/main.rs:95-97 | hours, minutes and seconds recombine to the input modulo 216000 seconds |
| `Clock.Compose` | src/main.rs:95-97 | fields below 60 are recovered from the second count they make up |
| `Clock.Pad2` | src/main.rs:100-102 | `{:02}` of a value below 100 is two digits whose value is the input |
| `Clock.FormatTimeExamples` | src/main.rs:94-104 | 65 gives "01:05", 3661 gives "01:01:01", 0 gives "00:00", and 216000 wraps to "00:00" |
| `Numbers.Decimal` | src/main.rs:195 | the decimal rendering of a number is non-empty, all digits, with no leading zero |
| `Numbers.DecimalValue` | src/main.rs:195 | the digits of the rendering have the number as their value |
| `Numbers.ParseDecimal` | src/main.rs:310 | parsing a rendered number, with or without a '+' sign, gives the number when it is at most 65535 and an error otherwise |
| `Numbers.ParseU16` | src/main.rs:310 | an empty string and a lone '+' never parse; its full behaviour is stated by `ParseU16Shape`, `ParseDigits`, `ParseDecimal` and `ParseRejectsMinus` |
| `Numbers.ParseU16Shape` | src/main.rs:310 | a string that parses is an optional '+' followed by digits only, and its value is the value of those digits |
| `Numbers.ParseDigits` | src/main.rs:310 | every non-empty run of digits, leading zeros included, with or without a '+', parses to its value when that is at most 65535 and is an error otherwise |
| `Numbers.ParseU16Examples` | src/main.rs:310 | "007" gives 7 and "+0" gives 0, while "" and "+" are errors |
| `Numbers.ParseOverflowExample` | src/main.rs:310 | "65536", the first value past 16 bits, is an error |
| `Numbers.ParseRejectsMinus` | src/main.rs:310 | a '-' sign is always a parse error, even for "-0" |
| `Tokenize.WordLen` | src/main.rs:299 | the leading run of a string is free of whitespace and ends at whitespace or at the end |
| `Tokenize.Tokens` | src/main.rs:299 | every token is non-empty and contains no ASCII whitespace |
| `Tokenize.NextToken` | src/main.rs:299-301 | one step of the iterator returns the first token of the rest of the message and the position after it, or nothing when only whitespace remains |
| `Tokenize.TokensAppend` | src/main.rs:299 | a whitespace character separates: the tokens of `a c b` are those of `a` followed by those of `b` |
| `Tokenize.TokensOfJoin` | src/main.rs:299 | splitting words joined by spaces gives back the words |
| `Tokenize.TokensOfWord` | src/main.rs:299 | a run with no whitespace is a single token |
| `Tokenize.TokensSkipPrefix` | src/main.rs:299 | leading whitespace of any length yields no token |
| `Ascii.Lower` | src/main.rs:118 | the result has the same length and no ASCII capital, a name without capitals is unchanged, and the only characters that change are capitals, each to its lower-case letter |
| `Ascii.LowerIsLowered` | src/main.rs:118 | lower-casing is idempotent |
| `Handlers.ToU64` | src/main.rs:158-160 | `as u64` truncates a value in range toward zero and sends negatives to 0 |
| `Handlers.Shift` | src/main.rs:70-90 | `!rewind` moves the position back and `!forward` ahead, by exactly the given seconds; `OffsetSeeks` states the request that carries it |
| `Handlers.PositionLine` | src/main.rs:154-163 | the `!pos` reply is three clocks in "a / b (c remaining)" form that read back as the truncated elapsed, total and remaining seconds modulo 60 hours |
| `Handlers.Handle` | src/main.rs:128-219 | a handler produces at most three events and a reply is always the last; what each handler does is stated by `AtMostOneEach`, `OffsetSeeks`, `PositionReplies`, `TrackSets`, `VolumeReplies`, `JokeSays`, `MpvSends` and `Commands.PlayPauseSend` |
| `Handlers.MpvSends` | src/main.rs:57-64 | a `cmd_mpv!` handler sends exactly its fixed request, whatever the argument and the player, and never reads or replies |
| `Handlers.AtMostOneEach` | src/main.rs:128-219 | every handler sends at most one `set_property` request, writes at most one reply, and makes at most two requests to the player in all |
| `Handlers.OffsetSeeks` | src/main.rs:70-90 | `!rewind n` / `!forward n` send exactly one `time-pos` request with the position minus / plus n when the position is readable, nothing otherwise, and never reply |
| `Handlers.PositionReplies` | src/main.rs:143-165 | `!pos` replies only when both readings succeed, sends nothing, and its reply's three clock fields read back as the truncated elapsed, total and remaining seconds |
| `Handlers.TrackSets` | src/main.rs:167-183 | `!sub t` / `!aud t` send `sid` / `aid` set to t and never reply |
| `Handlers.VolumeReplies` | src/main.rs:185-212 | `!vol v` sends `volume` = v and replies with a confirmation whose number is plain decimal digits without a leading zero that parse back to v, or with the failure text; `!vol` alone replies with the reading or the fixed failure string |
| `Handlers.JokeSays` | src/main.rs:214-219 | `!joke` with index i replies with the i-th joke and sends nothing |
| `Commands.AuthorizedSet` | src/main.rs:116-120 | the set holds exactly the lower-cased configured names, so a sender matching none of them is never served; every member is lower-case |
| `Commands.Bot.constructor` | src/main.rs:122-126 | the bot starts with an empty registry, no draws made, and the lower-cased authorized set |
| `Commands.Bot.AddCommand` | src/main.rs:261-263 | the name is bound to the handler, replacing any earlier binding, and no other binding changes; the bot's invariant is kept unless the joke handler is bound to another name |
| `Commands.Bot.Register` | src/main.rs:40-44 | the `cmd!` macro binds '!' followed by the closure's name, keeping the invariant in the same way |
| `Commands.Bot.InstallCommands` | src/main.rs:128-219 | the start-up registrations add exactly the standard registry, and keep the bot's invariant, under which the joke handler is bound to `!joke` alone |
| `Commands.StandardRegistry` | src/main.rs:128-219 | the registry after start-up binds `!joke` to the joke handler and no other trigger to it; its keys are stated by `StandardRegistryShape` |
| `Commands.RegistrationOrder` | src/main.rs:128-219 | the nine registrations in program order amount to adding the standard registry |
| `Commands.StandardRegistryShape` | src/main.rs:128-219 | the registry's keys are exactly the nine triggers, each '!' followed by a word |
| `Commands.PlayPauseSend` | src/main.rs:128-138 | `!play` and `!pause` as registered send exactly `pause` = false / true and never reply, whatever the argument and the player |
| `Commands.Route` | src/main.rs:298-306 | a message routed to a trigger came from an authorized sender and its first token is that registered trigger, starting with '!' (so `IgnoredMessages`: any other message routes nowhere); conversely `CommandLineRoutes` shows that a line whose first word is a registered trigger, after any leading whitespace, is routed to it |
| `Commands.SecondToken` | src/main.rs:309 | the argument token exists exactly when the message has two tokens, and it is a non-empty word |
| `Commands.ArgsFor` | src/main.rs:307-333 | a trigger gets a number exactly when it is `!joke`, one of `!rewind`, `!forward`, `!sub`, `!aud`, or `!vol` with a parsable token, and a parsed token is the number of the five numeric triggers; the defaults are stated by `DefaultArguments` |
| `Commands.Bot.Dispatch` | src/main.rs:286-334 | a message is dispatched exactly when `Route` selects a trigger; the handler is that trigger's binding, the argument is `ArgsFor` of the second token (with a draw below the joke count), and the random source advances only for `!joke` |
| `Commands.Bot.Step` | src/main.rs:286-346 | one event produces its routed handler's trace, or nothing, and advances the random source only for `!joke` |
| `Commands.Bot.MainLoop` | src/main.rs:281-351 | the loop consumes events up to the first `Quit` or `Eof`, each event's trace is what `Step` allows, and the draws made are the number of `!joke` dispatches |
| `Commands.Handled` | src/main.rs:345-346 | the loop never consumes more events than there are |
| `Commands.HandledStopsAtEnd` | src/main.rs:345 | the loop stops right after the first `Quit` or `Eof` |
| `Commands.HandledAll` | src/main.rs:346 | without `Quit` or `Eof` every event is consumed |
| `Commands.IgnoredMessages` | src/main.rs:298-306 | an unauthorized sender, an empty or non-'!' first token, or an unregistered trigger leads to no dispatch |
| `Commands.CapitalizedSenderIgnored` | src/main.rs:116-120 | a sender name with an ASCII capital is never authorized |
| `Commands.CommandLineRoutes` | src/main.rs:298-306 | an authorized line made of any run of leading whitespace, then a registered trigger, then either nothing or a whitespace character and anything, is dispatched to that trigger |
| `Commands.SecondTokenOfLine` | src/main.rs:309 | in "t a rest" the argument token is `a`, and a bare trigger has none |
| `Commands.ExtraTokensIgnored` | src/main.rs:299-333 | appending more tokens after the second changes neither the routing nor the argument token |
| `Commands.TypedNumberIsArgument` | src/main.rs:307-333 | a number up to 65535 typed after `!rewind`, `!forward`, `!sub`, `!aud` or `!vol` is the argument; `!play`, `!pause` and `!pos` get none |
| `Commands.SignedNumberIsArgument` | src/main.rs:308-332 | a number up to 65535 written with a leading '+' is the argument of the five numeric triggers |
| `Commands.PlusDigitsIsWord` | src/main.rs:310 | a '+' followed by digits is one token |
| `Commands.ParsedArgument` | src/main.rs:307-333 | a parsed token becomes the `U16` argument of the numeric triggers and is ignored by the others |
| `Commands.DefaultArguments` | src/main.rs:308-332 | without a valid `u16` token `!rewind` and `!forward` use 10, `!sub` and `!aud` use 0, and `!vol` gets no value |
| `Commands.VolumeArgumentIff` | src/main.rs:326-332 | `!vol` gets a value exactly when the next token parses as a `u16`, and then that value |
| `Commands.OnlyJokeDraws` | src/main.rs:323-325 | `!joke` takes the draw as its index; every other trigger ignores the draw, and unlisted triggers get no argument |

## Left out

- `src/mpv.rs` (`send_command`, `get_property_as`, `GetJsonAs`): the process spawning, the socket and the JSON parsing. A property read is an `Option` input and a send's failure an `Option` error text in `Player`.
- The JSON text of each request: a request is the structured `SetProperty(property, value)`, not its byte-for-byte text.
- Floating point: `time_pos ± seconds as f64` is exact `real` arithmetic, `as u64` is a saturating floor on finite values (NaN and infinities are not modelled), and the `Display` of the volume reading is taken as given text.
- The Twitch connection, `run`, the channel join, the rate-limited writer, `smol::block_on`, and errors from `next_message` (which end the program through `?`). `MainLoop` runs over a finite prefix of the event stream.
- `get_user_config`, `dotenv` and the environment variables in `main`, including the split of `AUTHORIZED_USERS` on ','; `AuthorizedSet` takes the entries after that split.
- The `rand` generator: a draw is any index below the joke count, and the generator's state is the count of draws.
- The `jokes` module: the joke list is a constructor argument, non-empty and at most 65535 long, since the draw's upper bound is the list length cast to `u16` and the range must not be empty.
- The `cmd_say!` macro: it is never used, so no handler comes from it.
- `Handlers.Handle`: a joke index outside the list (a panic in the program) is excluded by its requires; `Valid()` keeps the joke handler bound to `!joke` alone, whose index is always drawn in range.
