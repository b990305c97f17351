# Chat bot template: command dispatch, cooldowns, argument handling and log layout

This project models the sequential logic of a TypeScript template for a chat-platform bot and proves properties of that model in Dafny. Everything else in the bot is calls into the platform's SDK. The model covers six parts, plus a shared `Strings` module (`strings.dfy`) with `startsWith`, `endsWith` and the first-occurrence index:

- **Commands** (`command.dfy`, from `src/classes/client/Command.ts`): the three command classes, written as one class tagged by a `CommandClass` value.
  - The constructor fills in defaults: description "No description.", a 3-second cooldown, group `general`, not developer-only, id "0".
  - `Patch` refuses a command installed nowhere. Otherwise it sets the builder's integration types and contexts, and it does so only once.
  - `toString` has a chat form `</name:id>` and a context form `` `* name` ``.
  - The developer gate of `run`.
  - `handleCooldown`, the per-user cooldown state machine over one command's cooldown map. It is a method of `Command` (`HandleCooldown`) that takes the client's map from command names to cooldown map objects and updates the one for its own command. It is proved against a pure step function (`CooldownStep`). `Replay` extends that function to traces of uses and timer evictions.
- **Client** (`custom_client.dfy`, from `src/classes/client/CustomClient.ts`): the registry of commands by name, with one fresh cooldown map per registration.
- **Args** (`handle_args.dfy`, from `src/utils/scripts/handleArgs.ts`): the argument normaliser.
  - It drops `argv[0..2]`, keeps only known flags, maps `-x` and `--name` to names, and removes repeats the way a `Set` does.
  - It then chooses the outcome: print help and exit, reset and exit, or start with or without deploying.
- **Logger** (`logger.dfy`, from `src/classes/Logger.ts`): tag padding (`generatePaddedValues`), tag and layer-tab rendering, the `Log` constructor and the line that `print` assembles.
- **LoggedCommands** (`logged_command.dfy`, from `src/utils/functions/loggedCommand.ts`): the `/ name` or `* name` label of a command.
- **DateTime** (`date_time.dfy`, from `src/utils/functions/currentDateTime.ts`): the `DD/MM/YY HH:MM:SS.M` timestamp, computed from explicit date components.

Clocks and timers are inputs. `Date.now()` is read twice in `handleCooldown`: once when the call starts (`now`, used for the on-cooldown check) and once in the `finally` block (`finish`, stored as the entry's timestamp). The model takes both as parameters. The handler `execute` is an `ExecuteOutcome`: it returned `true`, returned `false`, or threw. A throw is marked `nullish` when the thrown value is `null` or `undefined`. Then `handleErr` (`src/common/log.ts:92-93`) throws a `TypeError` while reading `err.name`, so the error reply at `Command.ts:177-181` is never sent. The `return` in the `finally` block (`Command.ts:189`) discards that `TypeError`, and the entry is still written as `errored`. Each `setTimeout` eviction is returned as a `Timer` value that holds the cooldown map object itself and the requested delay, and `Fire` carries it out. `Commands.EffectiveDelay` is the delay the Node.js timer actually waits, because Node.js replaces any delay outside 1 to 2147483647 ms by 1 ms. The SDK's replies become `Reply` values. Colouring with `chalk` is the identity. `print` returns the line and the optional warning instead of writing them.

The source names the client's cooldown registry and error cooldown twice, once in each file (`commandCooldownMaps` and `commandErrorCooldownSeconds` against `cooldowns` and `commandErrorCooldown`). The model has one registry, `cooldowns`, and one setting, `errorCooldownSeconds`.

`Command.ts` and `CustomClient.ts` import each other. Dafny modules cannot do that, so `Commands.Command.HandleCooldown` and `Run` take the two client fields that `handleCooldown` reads. `Client.CustomClient.RunCommand` passes them in.

`UserContextCommand` declares its `type` as `messageContext` (`Command.ts:324`), and the model keeps that (`Commands.TypeOf`). `src/app/index.ts:82` reads `argOptions.emptyDeploy`, but `handleArgs` only ever returns `skipDeploy`, so that branch cannot be taken. The model follows `handleArgs.ts`, which has no such flag. The comment in `currentDateTime.ts` gives the format as `DD-MM-YY`, but the code joins the date with `/`, and the model follows the code.

## Model

| member | source | states |
|---|---|---|
| `Commands.Command.constructor` | src/classes/client/Command.ts:87-101 | Each omitted optional field gets its default: "No description.", 3 seconds, `general`, not developer-only. The given fields are kept, the command starts unpatched with id "0", and the builder gets the command's name (and, for each class, its description or its command type). |
| `Commands.Command.Patch` | src/classes/client/Command.ts:103-126 | Once patched, it returns and changes nothing. Otherwise, installed nowhere means it fails with `NotInstallable` and stays unpatched. Otherwise `UserInstall` is set iff user-installed and `GuildInstall` iff guild-installed, in that order, with no repeats. `contexts === true` gives exactly BotDM, Guild, PrivateChannel, and a list is passed on. The command is then patched. |
| `Commands.NewCommand` | src/classes/client/Command.ts:87-126 | A subclass constructor (`Command.ts:214-227`, `:272-281`, `:326-335`). It succeeds iff the command is installed somewhere. On failure it reports `NotInstallable(name)`. The builder gets the name either way. On success it returns a fresh, patched command of the requested class on the given builder, with id "0", the given name, help text, installation and contexts, and each omitted field at its default: "No description.", 3 seconds, `general`, not developer-only. The builder then has integration types `[UserInstall]`, `[GuildInstall]` or both in that order, contexts BotDM, Guild, PrivateChannel for `true` or the given list, the description for a chat command, and type `Message` or `User` for the context classes. |
| `Commands.TypeOf` | src/classes/client/Command.ts:210-324 | The type is `chatInput` iff the class is the chat command class, and never `userContext`: both context classes declare `messageContext`. |
| `Commands.Mention` | src/classes/client/Command.ts:254-363 | The chat text starts `</`, ends `>` and is name + id + 4 characters long. The context text starts `` `* ``, ends `` ` `` and is name + 4 characters long. |
| `Commands.Command.ToString` | src/classes/client/Command.ts:254-363 | A command's text has the length of its class's form. The chat form has the name right after `</`, followed by `:`. The context form has the name between `` `* `` and the closing `` ` ``. |
| `Commands.Replay` | src/classes/client/Command.ts:132-191 | Over a trace of uses and evictions, any user who gains an entry has used the command in that trace. |
| `Commands.ContextMentionRecoversName` | src/classes/client/Command.ts:308-310 | A context command's text is `` `* `` + name + `` ` ``, and the name is exactly what lies between them. |
| `Commands.ChatMentionInjective` | src/classes/client/Command.ts:254-256 | For names without a colon, `</name:id>` determines both the name and the id. |
| `Commands.MentionsOfDifferentKindsDiffer` | src/classes/client/Command.ts:254-310 | A chat command's text never equals a context command's text. |
| `Commands.CooldownStep` | src/classes/client/Command.ts:132-191 | The result is `onCooldown` iff the user has an entry and `now` is before its expiry: timestamp + (own cooldown if `normal`, else error cooldown) × 1000. The result is `errored` iff the use was not rejected and the handler threw. The error reply is sent iff the use was not rejected and the handler threw something other than `null` or `undefined`. No other user's entry changes. |
| `Commands.OnCooldownChangesNothing` | src/classes/client/Command.ts:144-160 | A rejected use leaves the map unchanged and schedules no eviction. It replies with the expiry time, and says whether the earlier use errored. |
| `Commands.NoEntryWhenSkippedOrDeveloper` | src/classes/client/Command.ts:182-187 | A handler that returned `false`, or any use of a developer command, writes no entry and schedules no eviction. |
| `Commands.EntryWrittenOtherwise` | src/classes/client/Command.ts:163-189 | Otherwise the map gains `{finish, normal}`, or `{finish, errored}` when the handler threw, with eviction after the cooldown, or the error cooldown, × 1000 ms. The result is `errored` iff the handler threw, and `normal` otherwise. The error reply goes out iff the handler threw a value other than `null` or `undefined`. |
| `Commands.EvictionMatchesWindow` | src/classes/client/Command.ts:146-186 | The requested eviction delay ends exactly when the stored entry stops blocking: finish + delay equals its expiry. When the delay is 1 to 2147483647 ms, the timer really waits that long. |
| `Commands.EffectiveDelay` | src/classes/client/Command.ts:186 | The delay the timer waits is always 1 to 2147483647 ms. It equals the requested delay iff the request is in that range. |
| `Commands.LongCooldownEvictedEarly` | src/classes/client/Command.ts:144-186 | An entry whose window is more than 2147483647 ms is evicted after 1 ms, long before its expiry, and the user's next use after that eviction is not rejected. The window is the command's own cooldown after a normal use, or the error cooldown after a throw. |
| `Commands.UseAfterWindowRuns` | src/classes/client/Command.ts:144-148 | A use at or after the expiry is not rejected, even when the timer has not fired yet. |
| `Commands.UseAfterEvictionRuns` | src/classes/client/Command.ts:144-186 | Once the timer has removed the user's entry, their next use is not rejected. |
| `Commands.ReplayKeepsNoSkippedEntries` | src/classes/client/Command.ts:163-187 | The map never stores an entry of type `skipped`, across any sequence of uses and evictions. |
| `Commands.DeveloperCommandNeverCoolsDown` | src/classes/client/Command.ts:183-187 | A developer command's map stays empty through any sequence of uses and evictions, so no use of it is ever rejected as on cooldown. |
| `Commands.CooldownMap.Delete` | src/classes/client/Command.ts:186 | The eviction removes exactly that user's entry. |
| `Commands.Fire` | src/classes/client/Command.ts:186 | A firing timer deletes its user from the map object it captured, not from whatever map the name now points to. |
| `Commands.Command.HandleCooldown` | src/classes/client/Command.ts:132-191 | With no cooldown map for the command it throws `MissingCooldownMap`. Otherwise only that command's map changes, and the new map, result, reply and timer are exactly those of `CooldownStep`. The timer targets that map object. |
| `Commands.Command.Run` | src/classes/client/Command.ts:229-252 | A developer command used by someone outside `developerIds` is rejected with a not-developer reply, and no cooldown map changes. Any other use behaves exactly as `HandleCooldown`. |
| `Client.CustomClient.constructor` | src/classes/client/CustomClient.ts:18-24 | A new client has empty `commands`, `cooldowns`, `buttonCooldowns` and `skips`, and every registered command has a cooldown map. |
| `Client.CustomClient.AddCommand` | src/classes/client/CustomClient.ts:26-29 | `commands[name]` becomes the command. `cooldowns[name]` becomes a fresh, empty map, which drops any earlier cooldowns under that name. Other names keep their entries in both maps. `buttonCooldowns` and `skips` are untouched, and the registry invariant is kept. |
| `Client.CustomClient.RunCommand` | src/classes/client/Command.ts:132-191 | For a registered command, the cooldown-map lookup of `handleCooldown` (`Command.ts:136-140`) never throws. A developer command used by a non-developer is rejected and its map is unchanged. Any other use gives that command's map, result and reply exactly as `CooldownStep` does. The timer is scheduled iff the step asks for one, on that command's own map object, for that user and with that delay. |
| `Args.ArgMapFlags` | src/utils/scripts/handleArgs.ts:11-27 | The table's flags are `--help`/`-h`, `--skip-deploy`/`-s` and `--reset-commands`/`-r`. |
| `Args.ArgMapWellFormed` | src/utils/scripts/handleArgs.ts:11-27 | The table's names are distinct, its aliases are distinct, and no alias starts with `-`. |
| `Args.ValidArgsExactly` | src/utils/scripts/handleArgs.ts:30-36 | A flag is valid iff it is some entry's `--name` or, where the entry has a non-empty alias, its `-alias`. |
| `Args.KeepValid` | src/utils/scripts/handleArgs.ts:42 | The filtered list holds exactly the arguments that are valid flags. |
| `Args.KeepValidAppend` | src/utils/scripts/handleArgs.ts:42 | Filtering distributes over concatenation, so the filter keeps the arguments' order. |
| `Args.FindByAlias` | src/utils/scripts/handleArgs.ts:45 | It finds the first entry whose alias is the given string, or reports that there is none. |
| `Args.NormaliseLongFlag` | src/utils/scripts/handleArgs.ts:48 | `--name` normalises to `name`. |
| `Args.NormaliseShortFlag` | src/utils/scripts/handleArgs.ts:44-46 | `-x` normalises to the name of the entry whose alias is `x`. |
| `Args.NormaliseIsName` | src/utils/scripts/handleArgs.ts:43-49 | Every valid flag normalises to the name of the very entry it is a flag of. |
| `Args.FirstTwoIgnored` | src/utils/scripts/handleArgs.ts:41 | The first two elements of argv never affect the result, and argv of length two gives no arguments. |
| `Args.ValidArgs` | src/utils/scripts/handleArgs.ts:30-36 | Every entry's `--name`, and its `-alias` where it has one, is a valid flag, and every valid flag starts with `-`. |
| `Args.Normalise` | src/utils/scripts/handleArgs.ts:43-49 | A valid flag maps to the name of some table entry. |
| `Args.NormaliseAll` | src/utils/scripts/handleArgs.ts:43-49 | The `.map` keeps the length, and each element is the name that the flag at the same position normalises to. |
| `Args.Dedupe` | src/utils/scripts/handleArgs.ts:38-51 | `[...new Set(s)]` is no longer than `s` and has exactly its members. |
| `Args.NormalisedArgs` | src/utils/scripts/handleArgs.ts:38-51 | Every normalised argument is the name of a table entry. |
| `Args.StandsForEntry` | src/utils/scripts/handleArgs.ts:42-49 | An argument is kept and normalised to an entry's name iff it is that entry's `--name` or its `-alias`. |
| `Args.FirstFlagAt` | src/utils/scripts/handleArgs.ts:40-49 | The position of the first argument that stands for a name: that argument stands for it, and none before it does. |
| `Args.FirstFlagOrder` | src/utils/scripts/handleArgs.ts:42-49 | If a name comes before another among the normalised flags, its first flag comes earlier in the arguments. |
| `Args.NormalisedArgsOrder` | src/utils/scripts/handleArgs.ts:38-51 | The result lists names in the order in which their first flags appear after `argv[0..2]`, and each of those flags is present. |
| `Args.DedupeIsSetOrder` | src/utils/scripts/handleArgs.ts:38-51 | `[...new Set(s)]` has the same members as `s`, no repeats, and keeps the order of first occurrences. |
| `Args.NormalisedArgsShape` | src/utils/scripts/handleArgs.ts:38-51 | The normalised list has no repeats, and every element is a table name. |
| `Args.NameSelected` | src/utils/scripts/handleArgs.ts:40-51 | An entry's name is in the normalised list iff its `--name`, or its `-alias`, appears after the first two arguments. |
| `Args.NameAmongNormalised` | src/utils/scripts/handleArgs.ts:43-49 | Over valid flags, an entry's name is produced iff its `--name`, or its `-alias`, is among them. |
| `Args.PrintHelp` | src/utils/scripts/handleArgs.ts:54-62 | The help is a header line, then for every entry, in order: a blank line, the flag line (`--name`, then `, -alias` if any), and the description or "No argument description.". |
| `Args.HandleArgs` | src/utils/scripts/handleArgs.ts:29-88 | The outcome is exit-after-help iff `--help` or `-h` was passed. It is exit-after-reset iff no help flag was passed and `--reset-commands` or `-r` was. Otherwise the bot starts, with `skipDeploy` true iff `--skip-deploy` or `-s` was passed. The printed help is the header "Command line arguments help:", then for every table entry in order a blank line, its flag line and its description line. The first flag line is `--help, -h`. |
| `Args.ArgMapSelections` | src/utils/scripts/handleArgs.ts:11-51 | For the source's table, `help`, `skip-deploy` and `reset-commands` are each among the normalised arguments iff their long or short flag was passed. |
| `Logger.MaxLength` | src/classes/Logger.ts:22 | `Math.max` over the strings' lengths bounds every length and is attained by one of them. |
| `Logger.GeneratePaddedValues` | src/classes/Logger.ts:19-34 | Every key gets longest length − its own length. That padding is never negative, length + padding is the same for all keys, and some key gets 0. |
| `Logger.LongestTagName` | src/classes/Logger.ts:11-17 | The longest tag name, `Commands`, is 8 characters. |
| `Logger.NamePaddingValues` | src/classes/Logger.ts:37 | The paddings are Client 2, Events 2, Setup 3, Error 3, Commands 0. Each name plus its padding is 8. |
| `Logger.PadRightAmount` | src/classes/Logger.ts:63-64 | The left and right amounts add up to the padding, and the right one is equal to the left or one more. |
| `Logger.PaddingWidths` | src/classes/Logger.ts:66-67 | With a one-character space character, each pad string is exactly as long as its amount. A zero amount gives an empty string. |
| `Logger.TagWidth` | src/classes/Logger.ts:59-74 | With a one-character space character, a tag is start + padding + name + end characters wide. |
| `Logger.TagLayout` | src/classes/Logger.ts:69-73 | A tag reads as the start edge, the left padding, the name, the right padding and the end edge. |
| `Logger.TagsAlign` | src/classes/Logger.ts:116-119 | Tags padded with their name's padding are all equally wide, given one-character space characters and edges of equal total width. |
| `Logger.NewLogTagsAlign` | src/classes/Logger.ts:115-124 | The `Log` constructor keeps the tags' order and ids. With one-character space characters and edges of total width w, every rendered tag is w + 8 characters wide. |
| `Logger.TabToString` | src/classes/Logger.ts:93-95 | A layer tab is its character repeated `size` times, so its width is size × the character's length. |
| `Logger.FindTag` | src/classes/Logger.ts:134 | It finds the first rendered tag with the id, or reports that there is none. |
| `Logger.Print` | src/classes/Logger.ts:133-141 | A "not found" warning is produced iff the log has no tag with that id, and the line is printed in either case. |
| `Logger.PrintLayout` | src/classes/Logger.ts:140 | The line starts with the tag (or with `undefined` for an unknown tag) and ends with the message. At layer 0 only the optional spaces lie between them. |
| `Logger.NamePadding` | src/classes/Logger.ts:37 | A tag name's padding is never negative, and name plus padding is 8 characters. |
| `Logger.TagToString` | src/classes/Logger.ts:59-74 | A tag starts with its start edge and ends with its end edge. |
| `Logger.NewLog` | src/classes/Logger.ts:115-124 | The `Log` constructor renders one tag per given tag, in order, with the tag's id and framed by its edges. It keeps the layer tab and the three spacing flags. |
| `Logger.TrimStart` | src/classes/Logger.ts:140 | The result is a suffix of the string, everything before it is whitespace, and it is empty or starts with a non-whitespace character. |
| `Logger.TrimEnd` | src/classes/Logger.ts:140 | The result is a prefix of the string, everything after it is whitespace, and it is empty or ends with a non-whitespace character. |
| `Logger.Trim` | src/classes/Logger.ts:140 | `trim` returns a middle slice of the string with only whitespace before and after it. That slice is empty or starts and ends with a non-whitespace character. |
| `Logger.TrimUnique` | src/classes/Logger.ts:140 | Any such split of a string into whitespace, a middle that is empty or has visible ends, and whitespace gives that middle as `trim`'s result, so the contract of `Trim` determines it. |
| `Logger.LayerSegment` | src/classes/Logger.ts:140 | The layers part is empty at layer 0. At a higher layer it starts with a space and, past that space, ends with a non-whitespace character. |
| `Logger.Line` | src/classes/Logger.ts:140 | The printed line starts with the tag and ends with the message. |
| `Logger.LayerZeroIsEmpty` | src/classes/Logger.ts:140 | At layer 0 the layers part is empty. |
| `Logger.LayerSegmentVisibleTab` | src/classes/Logger.ts:140 | For a tab with visible first and last characters, the layers part at layer n > 0 is a space, then n tabs joined by the optional separator. `trim` removes only the trailing separator. |
| `Logger.LayerSegmentBlankTab` | src/classes/Logger.ts:140 | A tab made only of whitespace is trimmed away completely, leaving a single space. |
| `LoggedCommands.Symbol` | src/utils/functions/loggedCommand.ts:6-9 | The symbol is one character. |
| `LoggedCommands.LoggedCommand` | src/utils/functions/loggedCommand.ts:5-15 | The label is the type's symbol, a space and the name: name + 2 characters, with the name from position 2 on. |
| `LoggedCommands.LoggedCommandReadsBack` | src/utils/functions/loggedCommand.ts:5-15 | The label is the symbol, a space and the name, and the name can be read back. The symbol is `/` iff the command is a chat command, and `*` iff it is a message- or user-context command. |
| `LoggedCommands.LoggedCommandInjective` | src/utils/functions/loggedCommand.ts:11-14 | Equal labels have equal names and equal symbols. |
| `LoggedCommands.LoggedCommandOfClass` | src/classes/client/Command.ts:324 | Chat command objects show `/`. Both context classes show `*`, including the user-context class, whose declared type is `messageContext`. |
| `DateTime.NatToString` | src/utils/functions/currentDateTime.ts:4-10 | `String(n)` is a non-empty run of digits, and has no leading zero from 10 on. It is one character iff n < 10. |
| `DateTime.IntToString` | src/utils/functions/currentDateTime.ts:6 | `String(n)` is non-empty and starts with `-` iff n < 0. The rest, or the whole string for n ≥ 0, is digits that read back as the absolute value of n. |
| `DateTime.ParseNatOfNatToString` | src/utils/functions/currentDateTime.ts:4-10 | Reading `String(n)` back as a decimal number gives n. |
| `DateTime.PadStart` | src/utils/functions/currentDateTime.ts:4 | `padStart(len, fill)` keeps the string as a suffix, adds only fill characters before it, and has length max(len, original length). |
| `DateTime.ParseNatLeadingZeros` | src/utils/functions/currentDateTime.ts:4 | Leading zeros do not change a digit string's value. |
| `DateTime.TwoDigitsRoundTrip` | src/utils/functions/currentDateTime.ts:4-9 | A padded field has at least two digits, exactly two below 100, and reads back as its value. |
| `DateTime.LastTwo` | src/utils/functions/currentDateTime.ts:6 | `slice(-2)` is the last two characters, or the whole of a shorter string. |
| `DateTime.YearFieldIsYearModHundred` | src/utils/functions/currentDateTime.ts:6 | For years from 10 on, the year field is two digits whose value is year mod 100. |
| `DateTime.ShortYearField` | src/utils/functions/currentDateTime.ts:6 | Years 0 to 9 give a one-character year field. |
| `DateTime.NegativeYearField` | src/utils/functions/currentDateTime.ts:6 | Years −9 to −1 give the minus sign followed by the digit. |
| `DateTime.TenthsIsOneDigit` | src/utils/functions/currentDateTime.ts:10 | For ms in 0..999, the sub-second field is the single digit floor(ms / 100). |
| `DateTime.LayoutPositions` | src/utils/functions/currentDateTime.ts:13 | Given fields of the usual widths, the template puts `/`, `/`, space, `:`, `:` and `.` at positions 2, 5, 8, 11, 14 and 17, with each field in its own slot. |
| `DateTime.CurrentDateTime` | src/utils/functions/currentDateTime.ts:1-14 | For a date in range with a year from 10 on, the result is 19 characters with `/`, `/`, space, `:`, `:` and `.` at positions 2, 5, 8, 11, 14 and 17. |
| `DateTime.CurrentDateTimeLayout` | src/utils/functions/currentDateTime.ts:1-14 | For a date in range with a year from 10 on, the result is 19 characters, `DD/MM/YY HH:MM:SS.M`. Each field reads back as its component, with the month one-based and the year mod 100. |

## Left out

- SDK calls: the `discord.js` builders are reduced to the fields the commands set (`Commands.Builder`), and replies, embeds, `editReply` and the reply texts are abstract `Reply` values. Whether the bot replies or edits an earlier reply after an error is not modelled. A failing reply is not modelled either. The source catches such a failure only for the error reply (`Command.ts:179-181`). The on-cooldown reply (`Command.ts:154-157`) and the not-developer replies (`Command.ts:236-239`, `:290-293`, `:344-347`) are awaited without a catch, so a failure there propagates out of `handleCooldown` or `run` to the caller. `OnCooldown` and `RejectedNotDeveloper` assume the reply went through.
- Console output and colour: `chalk` is the identity, `Log.c` is not modelled, and `print` returns its line and warning. `handleErr` and the `commands` log lines of `run`, including the `logCommandUses` option, are not modelled.
- Commands.Command.Run: its contract leaves out the usage log line the source writes when `logCommandUses` is set, because that is console output.
- Timers and the clock: `Date.now()` values are parameters. Timer evictions are explicit `Fire`/`Expire` steps. `Replay` lets an eviction happen at any point, not only after its delay, so its invariants hold for any interleaving but say nothing about real time.
- Concurrency and `async`: every call runs to completion before the next one starts.
- Handler behaviour: `execute` is only its outcome. Whatever the handler itself replies or changes is not modelled.
- String lengths: JavaScript's `length`, `slice` and `padStart` count UTF-16 code units, and Dafny strings count Unicode scalar values. The two agree below U+10000. A character above that has length 2 in the source and 1 in the model, so `Logger.PaddingWidths`, `Logger.TagWidth`, `Logger.TagsAlign` and `Logger.NewLogTagsAlign`, which assume a one-character `spaceChar`, describe the source only for a `spaceChar` below U+10000.
- Numbers: cooldown seconds are integers, although JavaScript numbers may be fractional. Tag padding, the `print` layer and the layer-tab size are natural numbers. The source's `repeat` throws a `RangeError` on negative counts, and no caller passes one.
- Commands.Command.constructor: `handleAutocomplete` is not stored, because it is an SDK callback the core never calls. `NonEmptyArray` for listed contexts is not enforced, and `InteractionContextType[c]` is the identity. The source lists contexts by the enum's key names (`Command.ts:32`, `:43`) and looks each one up, and the model lists the looked-up values directly.
- The base class `toString`, which returns the name, is overridden by all three classes and not modelled on its own. The `patched` getter is the `patched` field.
- `buttonCooldowns` and `skips` are only initialised: nothing in the modelled files updates them.
- The second `help` block of `handleArgs` can never run, because the first one exits, so it is not modelled a second time. `process.exit(0)` becomes the `ExitAfterHelp` and `ExitAfterReset` outcomes. `resetCommands` is a REST call, and the process exits whether or not it succeeds.
- `Args`: the normalisation functions are stated for any table satisfying `WellFormed`, and the table of the source satisfies it (`Args.ArgMapWellFormed`). The `find(...)!` at `handleArgs.ts:45` never fails, whatever the table: it only sees a valid argument that does not start with `--`, and such an argument is always `-` followed by some entry's alias. A table that broke `WellFormed` would mis-normalise instead. An alias starting with `-` makes its short flag read as a long flag, and a repeated alias maps to the first entry that has it. The model does not state those cases.
- The `?` symbol of `loggedCommand`: `CommandType` has exactly three values and the other two branches cover all of them, so the fallback can never be chosen.
- The logger configuration in `src/common/log.ts` (which tags, edges and tab the bot uses) is not part of this model. It refers to constants that the repository's `constants.ts` does not define. `LoggerV2.ts`, the locales, the event handlers, the command files, the deploy and reset scripts, the paste service and the process bootstrap are not part of this model either.
- Default parameters: `toString(padding = 0)` (`Logger.ts:59`), the three `= true` flags of the `Log` constructor (`Logger.ts:115`) and `layer = 0` of `print` (`Logger.ts:133`). The model's functions always take those arguments explicitly.
- `currentDateTime` takes the local date components as input. Reading the clock and the time zone is not modelled.
