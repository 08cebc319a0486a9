# Dice `/roll` handler, modelled in Dafny

This project models the `/roll` command of the Dice plugin for a Bukkit game
server (`RollCommand.java`). The handler reads the command's argument tokens
and the invoker's four permissions. It then does one of four things: shows
help, reloads the configuration, refuses the roll ("too many dice" or "too
many sides"), or rolls `count` dice with `sides` sides. A roll fills an
array with values from one to `sides` and fills in a message template. The
message then goes privately to the invoker, or it is broadcast to the online
players that the world and range rules let through.

The host is passed in as plain values (module `Host`):

- the configuration is a `Config` record, with the plugin's fallback values in `DefaultConfig`;
- the permissions are four booleans;
- the invoker is the console or a player with a world and a block position;
- the online players are a sequence of world and block pairs;
- what the handler sends comes back as a list of `Delivery(recipient, text)`. A recipient is the invoker, an online player's index, or the plugin log.

Each die is an arbitrary choice in `[0, sides)`, plus one. The model does
not say which value `java.util.Random` would return.

Modules follow the handler's parts:

- `RollArgs`: the decision `onCommand` takes from the tokens (`Decide`), and the usage text;
- `RollFormat`: `sum` and `formatString`;
- `Placeholders`: templates as text and placeholders, and what each of the five `replaceAll` calls does to them;
- `RollBroadcast`: `broadcast`, `message`, `getDSquared` and `square`;
- `RollCommand`: the methods `onCommand` and `roll`, as loops, proved against those functions;
- `Text` and `JavaInt`: the Java string and `int` behaviour that the handler relies on.

Two behaviours of the code that a reader might not expect:

- The five replacements are sequential: each `replaceAll` works on the output of the one before. So a player name that spells a later placeholder is itself substituted (`RollFormat.NameIsRescanned`).
- Only the first matching token of each kind is parsed. With the multiple-dice permission, the first all-digit token is parsed; if its value is above `Integer.MAX_VALUE`, `Integer.parseInt` throws out of `onCommand` (`RollArgs.OverflowingCountThrows`). With the any-sides permission, the same holds for the digits of the first `d<digits>` token (`RollArgs.OverflowingSidesThrows`). The model records this as `Decision.NumberFormatError` and `Exit.ThrowsNumberFormat`. A later overflowing token is never parsed (`RollArgs.LaterOverflowIgnored`). Without the multiple-dice permission no count token is parsed and the count is the configured default (`RollArgs.CountNeedsPermission`). Likewise, the sides scan reads only its first match, and only with the any-sides permission (`RollArgs.ScanUsesFirstMatch`).

## Model

| member | source | states |
|---|---|---|
| `JavaInt.Wrap32` | src/main/java/net/easymfne/dice/RollCommand.java:281-287 | the 32-bit value Java keeps is congruent to the true one mod 2^32, and equal to it when it fits |
| `JavaInt.Max` | src/main/java/net/easymfne/dice/RollCommand.java:209 | `Math.max`: at least both arguments and equal to one of them |
| `Text.DecimalString` | src/main/java/net/easymfne/dice/RollCommand.java:115-117 | `"" + n` for n ≥ 0 is a non-empty digit string with no leading zero |
| `Text.DecimalStringRoundTrip` | src/main/java/net/easymfne/dice/RollCommand.java:115-117 | reading the printed decimal back gives the number |
| `Text.IntString` | src/main/java/net/easymfne/dice/RollCommand.java:115-117 | the printed `int` is non-empty, has no brace and no comma, and is all digits exactly when the value is non-negative; those digits read back as the value, and a negative value prints as `-` followed by digits that read back as its magnitude |
| `Text.EqualsIgnoreCase` | src/main/java/net/easymfne/dice/RollCommand.java:162-167 | the two strings have the same length and agree character by character after ASCII lower-casing |
| `Text.Join` | src/main/java/net/easymfne/dice/RollCommand.java:114 | `StringUtils.join`: the pieces in order with the separator between neighbours (definition; `Text.SplitOfJoin` reads it back) |
| `Text.ReplaceAll` | src/main/java/net/easymfne/dice/RollCommand.java:113-117 | literal `replaceAll`: scans left to right, replacing each non-overlapping occurrence of the pattern (definition; the lemmas below state what it does) |
| `Text.SplitJoinRoundTrip` | src/main/java/net/easymfne/dice/RollCommand.java:113-117 | the pieces between the occurrences `replaceAll` finds, joined with the pattern, rebuild the string |
| `Text.ReplaceAllIsJoinOfSplit` | src/main/java/net/easymfne/dice/RollCommand.java:113-117 | literal `replaceAll` equals those pieces joined with the replacement |
| `Text.SplitPartsFree` | src/main/java/net/easymfne/dice/RollCommand.java:113-117 | no piece kept by `replaceAll` contains the pattern |
| `Text.ReplaceAllAbsent` | src/main/java/net/easymfne/dice/RollCommand.java:113-117 | a string without the pattern is returned unchanged |
| `Text.ReplaceAllSkipsBraceFree` | src/main/java/net/easymfne/dice/RollCommand.java:113-117 | brace-free text in front of a `{`-led pattern passes through unchanged and the replacing goes on after it |
| `Text.ReplaceAllAtFront` | src/main/java/net/easymfne/dice/RollCommand.java:113-117 | a string that starts with the pattern starts with the replacement after `replaceAll` |
| `Text.ReplaceAllPastBraceFree` | src/main/java/net/easymfne/dice/RollCommand.java:113-117 | brace-free text, the pattern and the rest become the text, the replacement and the rest with its own occurrences replaced |
| `Text.ReplaceAllSkipsOtherPlaceholder` | src/main/java/net/easymfne/dice/RollCommand.java:113-117 | a different placeholder in front passes through unchanged |
| `Text.SplitOfJoin` | src/main/java/net/easymfne/dice/RollCommand.java:114 | comma-free pieces joined by a comma-led separator split back into the same pieces in order |
| `RollArgs.PatternsExclusive` | src/main/java/net/easymfne/dice/RollCommand.java:180-189 | a token matching `^[0-9]+$` never matches `^d[0-9]+$`, and the reverse |
| `RollArgs.Matches` | src/main/java/net/easymfne/dice/RollCommand.java:180-189 | `^[0-9]+$` is a non-empty all-digit token; `^d[0-9]+$` is `d` followed by such digits (definition; `RollArgs.PatternsExclusive` and `RollArgs.Digits` build on it) |
| `RollArgs.Digits` | src/main/java/net/easymfne/dice/RollCommand.java:181-190 | what `parseInt` receives (the token, or what follows its `d`) is all digits |
| `RollArgs.FirstMatchFrom` | src/main/java/net/easymfne/dice/RollCommand.java:179-184 | the index found matches the pattern and no earlier one does; none is found exactly when no token matches |
| `RollArgs.Filter` | src/main/java/net/easymfne/dice/RollCommand.java:179-184 | the tokens kept all match the pattern, and a token is kept exactly when it is among the arguments and matches |
| `RollArgs.FirstMatchIsFilterHead` | src/main/java/net/easymfne/dice/RollCommand.java:179-184 | the first match is the first of the matching tokens; there is none exactly when none match |
| `RollArgs.ParseInt` | src/main/java/net/easymfne/dice/RollCommand.java:181 | `parseInt` of digits succeeds exactly when the value fits in `int`, and then returns that value |
| `RollArgs.ParseToken` | src/main/java/net/easymfne/dice/RollCommand.java:181-190 | the `parseInt` call on a matching token yields its digits' value exactly when that is at most `Integer.MAX_VALUE`, and otherwise the token whose parse throws |
| `RollArgs.ParseIntOfIntString` | src/main/java/net/easymfne/dice/RollCommand.java:181 | every non-negative `int`, printed, parses back to itself |
| `RollArgs.Scan` | src/main/java/net/easymfne/dice/RollCommand.java:178-194 | a scan is the default when the tokens are empty or the permission is missing, else the parse of the first matching token, or the default when none matches (definition; `RollArgs.ScanUsesFirstMatch` and `RollCommand.ScanArgs` connect it) |
| `RollArgs.ScanUsesFirstMatch` | src/main/java/net/easymfne/dice/RollCommand.java:174-194 | a scan yields the parse of the first matching token when permitted and one exists, else the configured default |
| `RollArgs.Validate` | src/main/java/net/easymfne/dice/RollCommand.java:197-209 | "too many dice" exactly when count exceeds the maximum; "too many sides" exactly when count is within and sides exceed theirs; otherwise a roll of `max(1, count)` and `max(2, sides)` |
| `RollArgs.IsSubCommand` | src/main/java/net/easymfne/dice/RollCommand.java:161-172 | exactly one token, which is help or `?` in any case, or `reload` in any case with the reload permission |
| `RollArgs.Decide` | src/main/java/net/easymfne/dice/RollCommand.java:161-209 | help exactly for one help or `?` token, any case; reload exactly for one `reload` token with the permission; a roll always has 1 ≤ count ≤ max(1, maximum) and 2 ≤ sides ≤ max(2, maximum) |
| `RollArgs.DecideByFilters` | src/main/java/net/easymfne/dice/RollCommand.java:174-194 | outside help and reload, two argument lists with the same count tokens and the same sides tokens decide alike |
| `RollArgs.SwapFilter` | src/main/java/net/easymfne/dice/RollCommand.java:178-194 | swapping neighbouring tokens that do not both match a pattern keeps the matching tokens in the same order |
| `RollArgs.SwapIndependence` | src/main/java/net/easymfne/dice/RollCommand.java:178-194 | swapping neighbouring tokens that are not both counts and not both sides changes nothing |
| `RollArgs.ReloadWithoutPermission` | src/main/java/net/easymfne/dice/RollCommand.java:167-175 | `reload` without the permission is decided as if no arguments were given: the configured defaults are validated, so the result is a roll or a refusal |
| `RollArgs.CountNeedsPermission` | src/main/java/net/easymfne/dice/RollCommand.java:174-185 | without the multiple-dice permission the count is the default whatever the tokens |
| `RollArgs.LaterTokensIgnored` | src/main/java/net/easymfne/dice/RollCommand.java:179-193 | once a matching token has been seen, appending tokens does not change the scan |
| `RollArgs.CountFromFirstNumeral` | src/main/java/net/easymfne/dice/RollCommand.java:178-185 | with the permission, the first all-digit token's value is the count that is validated |
| `RollArgs.SidesFromFirstDToken` | src/main/java/net/easymfne/dice/RollCommand.java:187-194 | with the permission, the digits after the first `d<digits>` token's `d` are the sides that are validated |
| `RollArgs.OverflowingCountThrows` | src/main/java/net/easymfne/dice/RollCommand.java:181-197 | a first count token above `Integer.MAX_VALUE` ends in `NumberFormatException` before any maximum is checked |
| `RollArgs.OverflowingSidesThrows` | src/main/java/net/easymfne/dice/RollCommand.java:187-202 | with the any-sides permission and a parsed count, a first `d<digits>` token whose digits exceed `Integer.MAX_VALUE` ends in `NumberFormatException` before any maximum is checked |
| `RollArgs.LaterOverflowIgnored` | src/main/java/net/easymfne/dice/RollCommand.java:178-185 | with the multiple-dice permission, and whether or not the any-sides permission is held, `3 99999999999` under the default configuration rolls three dice: only the first count token is parsed |
| `RollArgs.ThreeD10EitherOrder` | src/main/java/net/easymfne/dice/RollCommand.java:174-209 | with both the multiple-dice and any-sides permissions, `3 d10` and `d10 3` both roll three ten-sided dice under the default configuration |
| `RollArgs.BareRollDefaults` | src/main/java/net/easymfne/dice/RollCommand.java:174-209 | no arguments under the default configuration roll one six-sided die, whatever the permissions |
| `RollArgs.Usage` | src/main/java/net/easymfne/dice/RollCommand.java:243-261 | the usage text names `[count]` exactly with the multiple-dice permission and `[d<sides>]` exactly with the any-sides permission |
| `RollFormat.Sum` | src/main/java/net/easymfne/dice/RollCommand.java:281-287 | the accumulating loop returns the total of the values wrapped to `int` |
| `RollFormat.JavaSum` | src/main/java/net/easymfne/dice/RollCommand.java:281-287 | the total of the values wrapped to `int` (the specification `RollFormat.Sum` is proved against) |
| `RollFormat.TotalBounds` | src/main/java/net/easymfne/dice/RollCommand.java:281-287 | n dice showing 1 to `sides` total between n and n·sides |
| `RollFormat.SumExactWhenSmall` | src/main/java/net/easymfne/dice/RollCommand.java:281-287 | when count·sides fits in `int`, `sum` is the true total |
| `RollFormat.ResultListReadsBack` | src/main/java/net/easymfne/dice/RollCommand.java:114 | the `{RESULT}` text splits at ", " into the values' decimal strings, in roll order |
| `RollFormat.ResultList` | src/main/java/net/easymfne/dice/RollCommand.java:114 | the values in roll order, printed as `int`s and joined by ", " (definition; `RollFormat.ResultListReadsBack` reads it back) |
| `RollFormat.SelectedTemplate` | src/main/java/net/easymfne/dice/RollCommand.java:105-109 | the broadcast template with the broadcast permission, else the private one |
| `RollFormat.Substitute` | src/main/java/net/easymfne/dice/RollCommand.java:113-117 | the five `replaceAll` calls in the order `{PLAYER}`, `{RESULT}`, `{COUNT}`, `{SIDES}`, `{TOTAL}`, each on the output of the one before (definition; the lemmas below state what it produces) |
| `RollFormat.FormatString` | src/main/java/net/easymfne/dice/RollCommand.java:103-117 | no message exactly when the template chosen by the broadcast permission is null or empty; otherwise the template with the five placeholders substituted in order |
| `RollFormat.TemplateFollowsBroadcastOnly` | src/main/java/net/easymfne/dice/RollCommand.java:105-109 | the message depends on the broadcast permission and on no other permission |
| `RollFormat.PlainTemplateUnchanged` | src/main/java/net/easymfne/dice/RollCommand.java:113-117 | a template without braces is sent as written |
| `Placeholders.StageZeroIsRender` | src/main/java/net/easymfne/dice/RollCommand.java:113 | before any replacement the template is its own text, whatever the values |
| `Placeholders.PartStep` | src/main/java/net/easymfne/dice/RollCommand.java:113-117 | one `replaceAll` turns a brace-free part or a placeholder into its next-stage form and carries on after it |
| `Placeholders.StageStep` | src/main/java/net/easymfne/dice/RollCommand.java:113-117 | the `replaceAll` for the placeholder of rank k takes a template of brace-free text and placeholders from "the first k shown" to "the first k + 1 shown" |
| `Placeholders.AllStages` | src/main/java/net/easymfne/dice/RollCommand.java:113-117 | the five `replaceAll` calls in the order of lines 113-117 show all five placeholders and leave the text between them as it was |
| `RollFormat.SubstituteParts` | src/main/java/net/easymfne/dice/RollCommand.java:113-117 | a template of brace-free text and placeholders, with a brace-free name or no `{PLAYER}`, comes out with every placeholder showing its value and the text around it kept |
| `RollFormat.TemplateFilled` | src/main/java/net/easymfne/dice/RollCommand.java:103-117 | the same for the message `formatString` returns from a selected non-empty template |
| `RollFormat.PrivateTemplateSplit` | src/main/java/net/easymfne/dice/Config.java:88-91 | the private default template is `&4[&fDice&4] &fYou rolled ` followed by `{RESULT} &7({COUNT}d{SIDES})` |
| `RollFormat.BroadcastTemplateSplit` | src/main/java/net/easymfne/dice/Config.java:42-45 | the broadcast default template is `&c[&fDice&c] &f`, `{PLAYER}`, ` rolled ` and `{RESULT} &7({COUNT}d{SIDES})` |
| `RollFormat.PrivateShapeMessage` | src/main/java/net/easymfne/dice/RollCommand.java:113-117 | brace-free head text followed by `{RESULT} &7({COUNT}d{SIDES})` becomes the head, the joined values, ` &7(`, the count, `d`, the sides and `)` |
| `RollFormat.BroadcastShapeMessage` | src/main/java/net/easymfne/dice/RollCommand.java:113-117 | brace-free head, `{PLAYER}`, brace-free middle and the same tail becomes the head, a brace-free name, the middle and the filled tail |
| `RollFormat.PrivateDefaultMessage` | src/main/java/net/easymfne/dice/RollCommand.java:105-117 | under the private default template a roll without the broadcast permission is sent as `&4[&fDice&4] &fYou rolled ` + values joined by ", " + ` &7(` + count + `d` + sides + `)` |
| `RollFormat.BroadcastDefaultMessage` | src/main/java/net/easymfne/dice/RollCommand.java:105-117 | under the broadcast default template a roll with the broadcast permission, by a player whose name has no brace, is sent as `&c[&fDice&c] &f` + name + ` rolled ` + values joined by ", " + ` &7(` + count + `d` + sides + `)` |
| `RollFormat.PlaceholderShows` | src/main/java/net/easymfne/dice/RollCommand.java:113-117 | a template that is one placeholder alone becomes that placeholder's value (for `{PLAYER}`, a brace-free name) |
| `RollFormat.ResultPlaceholder` | src/main/java/net/easymfne/dice/RollCommand.java:114 | the template `{RESULT}` alone becomes the values joined by ", " in roll order (templates with text around placeholders: `RollFormat.SubstituteParts`) |
| `RollFormat.CountPlaceholder` | src/main/java/net/easymfne/dice/RollCommand.java:115 | the template `{COUNT}` alone becomes the number of values rolled (text around it: `RollFormat.SubstituteParts`) |
| `RollFormat.SidesPlaceholder` | src/main/java/net/easymfne/dice/RollCommand.java:116 | the template `{SIDES}` alone becomes the number of sides (text around it: `RollFormat.SubstituteParts`) |
| `RollFormat.TotalPlaceholder` | src/main/java/net/easymfne/dice/RollCommand.java:117 | the template `{TOTAL}` alone becomes the `int` sum of the values (text around it: `RollFormat.SubstituteParts`) |
| `RollFormat.PlayerPlaceholder` | src/main/java/net/easymfne/dice/RollCommand.java:113 | the template `{PLAYER}` alone becomes a brace-free name (text around it: `RollFormat.SubstituteParts`) |
| `RollFormat.NameIsRescanned` | src/main/java/net/easymfne/dice/RollCommand.java:113-117 | a player named `{TOTAL}` shows the total where `{PLAYER}` stood: the replacements are sequential |
| `RollBroadcast.Square` | src/main/java/net/easymfne/dice/RollCommand.java:270-272 | a square is non-negative and zero only for zero |
| `RollBroadcast.DSquared` | src/main/java/net/easymfne/dice/RollCommand.java:130-135 | the squared block distance is non-negative |
| `RollBroadcast.DSquaredZeroIffSameBlock` | src/main/java/net/easymfne/dice/RollCommand.java:130-135 | the squared distance is zero exactly on the same block |
| `RollBroadcast.DSquaredSymmetric` | src/main/java/net/easymfne/dice/RollCommand.java:130-135 | the squared distance does not depend on the order of the two players |
| `RollBroadcast.Receives` | src/main/java/net/easymfne/dice/RollCommand.java:71-76 | a player receives when crossworld is on, the invoker is the console or the worlds match, and the range is negative, the invoker is the console, or d² < range², over mathematical integers (definition; `RollBroadcast.WithinRangeIff` and `RollBroadcast.RecipientsExact` state its meaning) |
| `RollBroadcast.WithinRangeIff` | src/main/java/net/easymfne/dice/RollCommand.java:71-76 | for a player invoker with a range set, a player in a reachable world receives exactly when d² < range² (strict) |
| `RollBroadcast.CloserAlsoReceives` | src/main/java/net/easymfne/dice/RollCommand.java:71-76 | in the same world, a player nearer than a recipient also receives |
| `RollBroadcast.RangeTenExample` | src/main/java/net/easymfne/dice/RollCommand.java:73-76 | with range 10 from the origin, (7, 7, 0) receives and (8, 8, 0) does not |
| `RollBroadcast.Recipients` | src/main/java/net/easymfne/dice/RollCommand.java:70-80 | the recipients are online indices in strictly increasing order |
| `RollBroadcast.RecipientsExact` | src/main/java/net/easymfne/dice/RollCommand.java:70-80 | an online player is a recipient exactly when it passes both the world test and the range test |
| `RollBroadcast.ConsoleReachesEveryone` | src/main/java/net/easymfne/dice/RollCommand.java:71-76 | a console roll reaches every online player, in order |
| `RollBroadcast.RangeZeroReachesNobody` | src/main/java/net/easymfne/dice/RollCommand.java:73-76 | with range 0 a player's roll reaches no one, not even the roller |
| `RollBroadcast.Notify` | src/main/java/net/easymfne/dice/RollCommand.java:77 | (definition; meaning in `RollBroadcast.NotifyMembers`) one delivery per recipient index, in order, carrying the message |
| `RollBroadcast.NotifyMembers` | src/main/java/net/easymfne/dice/RollCommand.java:77 | player k is sent a message exactly when k is among the indices |
| `RollBroadcast.NotifyStep` | src/main/java/net/easymfne/dice/RollCommand.java:70-80 | looking at one more online player adds its message at the end exactly when it passes the tests |
| `RollBroadcast.BroadcastOutput` | src/main/java/net/easymfne/dice/RollCommand.java:60-81 | nothing for a null message; else the log line when logging, then one message per recipient in online order (the specification `RollBroadcast.Broadcast` is proved against) |
| `RollBroadcast.PrivateOutput` | src/main/java/net/easymfne/dice/RollCommand.java:145-150 | nothing for a null message; else the message to the invoker only (the specification `RollBroadcast.Message` is proved against) |
| `RollBroadcast.Deliver` | src/main/java/net/easymfne/dice/RollCommand.java:229-233 | the broadcast output with the broadcast permission, else the private output |
| `RollBroadcast.LoggedNotify` | src/main/java/net/easymfne/dice/RollCommand.java:66-80 | after the optional log line, player k is sent the message exactly when k is listed, the log is reached exactly when logging is on, the invoker is never addressed, and no delivery repeats |
| `RollBroadcast.Broadcast` | src/main/java/net/easymfne/dice/RollCommand.java:60-81 | the loop sends nothing for a null message; otherwise the log line when logging, then the message to each recipient in online order |
| `RollBroadcast.Message` | src/main/java/net/easymfne/dice/RollCommand.java:145-150 | the message goes to the invoker alone, or nothing for a null message |
| `RollBroadcast.SilenceSendsNothing` | src/main/java/net/easymfne/dice/RollCommand.java:61-63 | a null message produces no delivery at all, not even to the log |
| `RollBroadcast.PrivateIgnoresPlayers` | src/main/java/net/easymfne/dice/RollCommand.java:229-233 | without the broadcast permission every delivery is to the invoker, and the online players make no difference |
| `RollBroadcast.BroadcastExact` | src/main/java/net/easymfne/dice/RollCommand.java:60-81 | a broadcast reaches player k exactly when k passes both tests, reaches the log exactly when logging is on, never goes to the invoker as such, and never repeats |
| `RollBroadcast.AsWrittenAgreesNearby` | src/main/java/net/easymfne/dice/RollCommand.java:71-77 | with range ≥ 0 and at most 46340, and coordinate differences at most 26754, the wrapping `int` code reaches the same players as the integer model |
| `RollBroadcast.Square32` | src/main/java/net/easymfne/dice/RollCommand.java:270-272 | `input * input` wrapped to `int` |
| `RollBroadcast.DSquared32` | src/main/java/net/easymfne/dice/RollCommand.java:130-135 | each difference, product and sum wrapped to `int`, as Java evaluates them |
| `RollBroadcast.ReceivesAsWritten` | src/main/java/net/easymfne/dice/RollCommand.java:71-76 | the two tests of `broadcast` on the wrapping `int` arithmetic |
| `RollBroadcast.FarDSquared32` | src/main/java/net/easymfne/dice/RollCommand.java:130-135 | as written, the squared distance from (0, 0, 0) to (46341, 0, 0) wraps to -2147479015 |
| `RollBroadcast.FarPlayerReceivesAsWritten` | src/main/java/net/easymfne/dice/RollCommand.java:130-135 | as written, with range 10, a player 46341 blocks away receives the message |
| `RollBroadcast.FarPlayerOutOfRange` | src/main/java/net/easymfne/dice/RollCommand.java:73-76 | the intended test, with range 10, keeps the message from a player 46341 blocks away |
| `RollBroadcast.WideSquare32` | src/main/java/net/easymfne/dice/RollCommand.java:270-272 | as written, the square of 46341 wraps to -2147479015 |
| `RollBroadcast.SameBlockDSquared32` | src/main/java/net/easymfne/dice/RollCommand.java:130-135 | as written, the squared distance from a block to itself is 0 |
| `RollBroadcast.WideRangeSilencesAsWritten` | src/main/java/net/easymfne/dice/RollCommand.java:270-272 | as written, range 46341 does not reach even a player on the roller's block |
| `RollBroadcast.WideRangeReachesSameBlock` | src/main/java/net/easymfne/dice/RollCommand.java:73-76 | the intended test, with range 46341, reaches a player on the roller's block |
| `RollBroadcast.FarWideDSquared32` | src/main/java/net/easymfne/dice/RollCommand.java:130-135 | as written, the squared distance from (0, 0, 0) to (46340, 297, 0) wraps to -2147483487 |
| `RollBroadcast.WideRangeReachesFarAsWritten` | src/main/java/net/easymfne/dice/RollCommand.java:130-135 | as written, range 46341 still reaches a player at (46340, 297, 0), far outside the range |
| `RollCommand.ScanArgs` | src/main/java/net/easymfne/dice/RollCommand.java:178-194 | the loop that stops at the first matching token returns the scan's result |
| `RollCommand.Roll` | src/main/java/net/easymfne/dice/RollCommand.java:224-234 | exactly `count` values, each in [1, sides], and the formatted message delivered by the broadcast permission |
| `RollCommand.OnCommand` | src/main/java/net/easymfne/dice/RollCommand.java:159-211 | for each decision, the return value, the reload request, the single reply or the roll and its deliveries |
| `RollCommand.BareRoll` | src/main/java/net/easymfne/dice/RollCommand.java:174-209 | a bare `/roll` under the default configuration yields exactly one value in [1, 6] |

## Left out

- Colour codes: `ChatColor.translateAlternateColorCodes` (line 118) is a library call. It is modelled as the identity, so `&` codes stay in the message text.
- Replacement strings: `replaceAll` treats `$` and `\` in the replacement specially. In the model every replacement is literal.
- `java.util.Random`: each draw is any value in `[0, sides)`. Its sequence and distribution are not modelled, and the handler holds no other state.
- `String.equalsIgnoreCase` compares with `Character.toUpperCase` and `Character.toLowerCase`; the model folds ASCII letters only. For the three words it is used on (`help`, `?`, `reload`) this gives Java's answer.
- Host effects: `plugin.reload()` is the `reload` flag of `OnCommand`. `sendMessage` and `getLogger().info` become deliveries. What the server does with a thrown `NumberFormatException` is not modelled.
- The online-player list is one snapshot taken at the call. A player leaving during a broadcast is not modelled. Worlds are compared by an id, and block positions are given as integers (the host's floor of each axis).
- The invoker among the online players: in the server a player who rolls is also online, so a broadcast reaches them through their own online entry. The model keeps the invoker (`Sender`) apart from the online list; "never addressed to the invoker" means only that no delivery goes to `ToSender`, and the roller's own online entry receives like any other.
- `close` and the constructor register the handler with the server. That is host glue.
- `Dice.java` (lifecycle, timing logs, metrics) is not part of this model. `Config.java` is represented by the `Config` record and `DefaultConfig`. `Perms.java` is represented by the four booleans of `Perms`.
- RollBroadcast.Receives, RollBroadcast.DSquared, RollBroadcast.Square: these compute over mathematical integers, not the wrapping `int` arithmetic of lines 130-135 and 270-272. The as-written arithmetic lives in `DSquared32`, `Square32` and `ReceivesAsWritten`; see Findings.

## Findings

| source | as written | input that shows it | evidently intended | confidence | as-written member | corrected member |
|---|---|---|---|---|---|---|
| src/main/java/net/easymfne/dice/RollCommand.java:130-135 | `dx * dx + dy * dy + dz * dz` in `int` wraps for differences of 46341 blocks or more | range 10, roller at (0, 0, 0), player in the same world at (46341, 0, 0): d² wraps to -2147479015 < 100, so the message is sent | a player that far away is out of range and gets nothing | high (not executed) | `RollBroadcast.FarPlayerReceivesAsWritten` | `RollBroadcast.FarPlayerOutOfRange` |
| src/main/java/net/easymfne/dice/RollCommand.java:270-272 | `square(range)` in `int` wraps for a range of 46341 or more | range 46341, roller and player on the same block: range² wraps to -2147479015, so 0 < range² fails. Every player whose d² does not wrap (all players near the roller, the roller's own block included) receives nothing. Some far players still receive: (46340, 297, 0) has d² wrapping to -2147483487 < -2147479015 (`RollBroadcast.WideRangeReachesFarAsWritten`) | every player within the range receives, the roller included | high (not executed) | `RollBroadcast.WideRangeSilencesAsWritten` | `RollBroadcast.WideRangeReachesSameBlock` |
