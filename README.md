# fastfetch command-option layer and memory module, in Dafny

This project models two parts of fastfetch, a tool that prints facts about the machine.

The first part is the command-option layer (`src/common/commandoption.c`). The user's *structure* is a colon-separated list of module names such as `Title:Separator:OS:Memory`. `ffPrintCommandOption` walks the structure from left to right. On each turn it writes a NUL over the next `':'` in place and hands the token before it to `parseStructureCommand`. That function picks one of three outcomes:

- A `--set` custom value whose key equals the token exactly.
- Otherwise, the first module in the registry bucket for the token's upper-cased first letter whose name matches, ignoring case.
- Otherwise, an error line.

Each resolved module then goes to exactly one sink: the migrate-config JSON document when it exists, else the JSON result document when it exists, else stdout. A custom value goes to the migrate-config document when it exists, else to stdout, and never to the result document.

`ffParseModuleOptions` routes a `--xxx` option to the first module of its bucket that accepts it. `ffPrepareCommandOption` and `ffMigrateCommandOptionToJsonc` fill in the default structure when the user gave none.

The second part is the memory module (`src/modules/memory/memory.c`). It shows either the detection error, `Disabled`, a line built from the percentage-type bits and trimmed of trailing spaces, or a custom format that receives three arguments. It also reads its options from the command line and from a JSON object.

Layout:

- `wrappers.dfy`: `Option` and `Result`.
- `ascii.dfy`: C-locale `isalpha`, `toupper`/`tolower`, `strcasecmp`, and case-insensitive containment.
- `structure.dfy`: the specification of the split and its lemmas. This covers the next-colon scan, the C string read up to the first NUL, the tokens, and the round trip through `Join`.
- `modules.dfy`: module descriptors, the bucketed registry and the first-match lookups.
- `jsondoc.dfy`: the JSON documents. Each document is a sequence of records, and each record holds string members plus a marker for what the module's own generator adds.
- `commandoption.dfy`: the specification of token resolution and sink choice as functions, with lemmas over a whole run. The class `CommandOptionState` holds the state `ffPrintCommandOption` works on: the structure buffer (an `array<char>` with its length and the NUL after it), the `--set` values, the two documents and stdout. Its methods carry the source's loops, proved against the specification functions.
- `memory.dfy`: the memory module. `ComposeLine` (with `AppendPieces` and `TrimTrailingSpaces`), `PrintMemory` and `ParseMemoryJsonObject` are methods with the source's appends and loops. The percentage guard, `TrimRight` and the option parser are functions.

Two behaviours of the code that the contracts pin down:

- A `--set` custom value never goes to the JSON result document. Without a migrate-config document it is printed with `ffPrintCustom`, even in JSON output mode (`src/common/commandoption.c:112`). `RunResultMode` states this.
- An unresolved token prints its error line even in migration mode (`src/common/commandoption.c:117-118`). `RunMigrateMode` states this.

## Model

| member | source | states |
|---|---|---|
| `Structure.NextIndex` | src/common/commandoption.c:129 | the scan stops at or after `startIndex` and within the length, and where it stops before the length there is a `':'` |
| `Structure.NextIndexSkips` | src/common/commandoption.c:129 | no `':'` lies between `startIndex` and where the scan stops, so the stop is the first `':'` or the length |
| `Structure.UntilNulIsPrefix` | src/common/commandoption.c:136 | the handler's `const char*` denotes the prefix up to the first NUL; that prefix holds no NUL and stops at a NUL or at the end |
| `Structure.TokensFrom` | src/common/commandoption.c:127-162 | the loop hands over at least one token exactly when `startIndex` is below the length |
| `Structure.TokensAreClean` | src/common/commandoption.c:127-136 | no token holds a `':'` (the scan stops there) or a NUL (the C string ends there) |
| `Structure.TokensAreSpans` | src/common/commandoption.c:127-136 | for a NUL-free structure the tokens are exactly the plain split of the structure at every `':'` |
| `Structure.TokenIsMaximalSpan` | src/common/commandoption.c:127-136 | for a NUL-free structure, each token is the longest colon-free run starting at `startIndex`: it ends at a `':'` or at the end |
| `Structure.JoinTokens` | src/common/commandoption.c:127-162 | joining the tokens with `':'` gives the structure back, minus a single trailing `':'` |
| `Structure.LeadingSeparator` | src/common/commandoption.c:127-136 | a leading `':'` yields an empty first token, followed by the tokens of the rest |
| `Structure.TrailingSeparator` | src/common/commandoption.c:162 | a single trailing `':'` after a non-empty structure adds no token |
| `Ascii.LowerCase` | src/common/commandoption.c:22-23 | the config record's type name is the module name with each character lower-cased |
| `Modules.FirstNamed` | src/common/commandoption.c:50-59 | the index found is the first module in the bucket whose name equals the token ignoring case; none when no module matches |
| `Modules.FindModule` | src/common/commandoption.c:46-61 | nothing when the first character is not a letter (the empty token included); otherwise the module found matches the token ignoring case and lies in the bucket of `toupper(type[0])` |
| `Modules.FindModuleComplete` | src/common/commandoption.c:50 | in a registry where every module sits in its letter's bucket, the bucketed lookup succeeds exactly when some registered module has the token's name up to case |
| `Modules.FirstAccepting` | src/common/commandoption.c:67-72 | the module found is the first in the bucket whose parseCommandOptions accepts; none when no module accepts |
| `JsonDoc.AddModule` | src/common/commandoption.c:17-21 | "modules" is created on first use, and each call appends exactly one record to it |
| `CommandOption.FirstCustom` | src/common/commandoption.c:103-105 | the index found, when there is one, lies within the `--set` values |
| `CommandOption.Resolve` | src/common/commandoption.c:100-119 | a token resolves to a custom value only under that value's exact key, to a module only under the module's name ignoring case, and a token that does not start with a letter resolves to no module |
| `CommandOption.FirstCustomIsFirst` | src/common/commandoption.c:103-105 | finds the first `--set` value whose key equals the token exactly (case-sensitive); none when no key equals it |
| `CommandOption.ConfigRecord` | src/common/commandoption.c:21-27 | a config record's only member is `"type"`, holding the lower-cased name; the generator's fields are kept iff the module has generateJsonConfig |
| `CommandOption.ResultRecord` | src/common/commandoption.c:37-43 | `"type"` comes first and holds the name as registered; an `"error"` member appears iff the module has no generateJsonResult, and it holds "Unsupported for JSON format" |
| `CommandOption.EmitModule` | src/common/commandoption.c:55-56 | a found module goes to the migrate-config document when there is one, else to the result document, else to stdout; exactly that sink grows by one, the other two stay as they were, and no document appears or disappears |
| `CommandOption.Step` | src/common/commandoption.c:100-119 | one token adds exactly one record or one event, no document appears or disappears, and only a module changes the result document |
| `CommandOption.CustomValueTakesPrecedence` | src/common/commandoption.c:103-114 | the first custom value whose key equals the token wins over any module of that name |
| `CommandOption.ResolveToModule` | src/common/commandoption.c:117-118 | with no matching custom value, the token resolves to a module iff the registry lookup finds one; otherwise it stays unresolved |
| `CommandOption.RunWritesOnePerToken` | src/common/commandoption.c:55-56 | over any token sequence, each token adds exactly one record or one event, and no document appears or disappears |
| `CommandOption.RunTextMode` | src/common/commandoption.c:56 | without documents, stdout gets one event per token in token order: the module print, the custom print or the error |
| `CommandOption.RunMigrateMode` | src/common/commandoption.c:55 | with the migrate-config document, every resolved token (custom values included) becomes a config record in order; the result document is untouched; only "no implementation" errors reach stdout |
| `CommandOption.RunResultMode` | src/common/commandoption.c:55-56 | with only the result document, modules become result records in order; custom values and errors still print as text |
| `CommandOption.RunFirstToken` | src/common/commandoption.c:127-162 | handling the token at `startIndex` and then the tokens after the next `':'` is the same as handling all tokens from `startIndex` |
| `CommandOption.CommandOptionState.GenJsonConfig` | src/common/commandoption.c:12-30 | adds the lower-cased config record iff the migrate-config document exists, and reports whether it did |
| `CommandOption.CommandOptionState.GenJsonResult` | src/common/commandoption.c:32-44 | appends the result record iff the result document exists, and reports whether it did |
| `CommandOption.CommandOptionState.ParseModuleCommand` | src/common/commandoption.c:46-61 | returns true iff the lookup finds a module; then only that first match is emitted to one sink, and otherwise nothing changes |
| `CommandOption.CommandOptionState.ParseStructureCommand` | src/common/commandoption.c:100-119 | the sinks change exactly as one step of the resolution specification says: the custom value (key kept only with printKey), the module, or the error line |
| `CommandOption.CommandOptionState.CutNext` | src/common/commandoption.c:129-130 | the NUL is written at the next `':'` (or over the terminating NUL), extending the cut by one token, and the C string read at `startIndex` is that token |
| `CommandOption.CommandOptionState.Dispatch` | src/common/commandoption.c:136 | after the token goes to parseStructureCommand, the run over the remaining tokens from the new sinks equals the run over all tokens from `startIndex` from the old ones |
| `CommandOption.CommandOptionState.PrintCommandOption` | src/common/commandoption.c:121-164 | the loop terminates; afterwards each `':'` of the structure is a NUL, nothing else in the buffer changed, and the sinks equal the run over the structure's tokens from left to right |
| `CommandOption.CommandOptionState.Append` | src/common/commandoption.c:79 | the buffer holds the old structure followed by the appended string, still NUL-terminated |
| `CommandOption.CommandOptionState.PrepareCommandOption` | src/common/commandoption.c:75-98 | an empty structure becomes the default one; each preparation is requested iff the structure contains its module name ignoring case, and public IP and weather also require multithreading |
| `CommandOption.CommandOptionState.MigrateCommandOptionToJsonc` | src/common/commandoption.c:166-174 | with the default filled in, both documents and stdout hold the run over the structure's tokens, and the migrate-config document, when present, is written last (RunMigrateMode says what that run does in migration mode); the buffer afterwards holds that structure, same length, with each `':'` cut to a NUL |
| `CommandOption.CommandOptionState.ParseModuleOptions` | src/common/commandoption.c:63-73 | false for keys not starting with `"--"` and a letter; otherwise the taker is exactly what FirstAccepting finds in the letter's bucket (the first module that accepts, none when none does), and the result is true iff there is a taker |
| `Memory.Percentage` | src/modules/memory/memory.c:27-29 | the percentage is 0 whenever the total is 0, and the ratio is only consulted for a non-zero total |
| `Memory.TrimRight` | src/modules/memory/memory.c:52 | the result is a prefix, ends in no space, and drops only spaces |
| `Memory.TrimRightUnique` | src/modules/memory/memory.c:52 | that description singles out TrimRight: any prefix meeting it is TrimRight's result |
| `Memory.NumParenthesizedWhenPreceded` | src/modules/memory/memory.c:40-50 | the number is requested in parenthesised form iff the bar bit is set or the hide-others bit is clear |
| `Memory.MemoryOutput` | src/modules/memory/memory.c:10-64 | a detection error prints only the error; with no format the key is printed, then "Disabled" for total 0 or a line not ending in a space; a format gets exactly 3 arguments: used, total, percentage |
| `Memory.ComposeLine` | src/modules/memory/memory.c:38-53 | the line is: bar plus `' '` iff the bar bit is set, then "used / total " iff hide-others is clear, then the number iff the num bit is set; trailing spaces are trimmed, so it never ends in a space |
| `Memory.AppendPieces` | src/modules/memory/memory.c:38-50 | the string before trimming holds exactly the pieces the percentage-type bits select, in order |
| `Memory.TrimTrailingSpaces` | src/modules/memory/memory.c:52 | the in-place trim leaves exactly TrimRight of its input |
| `Memory.PrintMemory` | src/modules/memory/memory.c:10-64 | prints exactly what MemoryOutput describes |
| `Memory.ParseMemoryCommandOptions` | src/modules/memory/memory.c:72-80 | false with unchanged options when the key lacks the module prefix; otherwise exactly what the module-args parser returns |
| `Memory.JsonStep` | src/modules/memory/memory.c:98-105 | a `"type"` key changes nothing; any other key adds no error or exactly its "Unknown JSON key" error, and it adds one iff the parser refuses the key; the options become what the parser returned |
| `Memory.JsonKeys` | src/modules/memory/memory.c:96-106 | walking the members keeps every earlier error and adds at most one per member |
| `Memory.TypeKeyIgnored` | src/modules/memory/memory.c:99-100 | a `"type"` key, in any case and at any position, has no effect |
| `Memory.JsonErrorsBounded` | src/modules/memory/memory.c:96-106 | earlier errors are kept; each non-`"type"` key adds at most one error; every error reads "Unknown JSON key " followed by a key other than `"type"` |
| `Memory.JsonKeyReported` | src/modules/memory/memory.c:99-105 | after any members, one more member adds no error when it is `"type"` or the parser accepts it, and exactly its "Unknown JSON key" error, with the options as the parser left them, when the parser refuses it; either way the options carried forward are the parser's result, or unchanged for `"type"` |
| `Memory.ParseMemoryJsonObject` | src/modules/memory/memory.c:87-110 | the output is the unknown-key errors in key order, then the module printed with the options read; a missing object reads no keys |

## Left out

- The timing overlay (`instance.config.stat`: clock reads, the `"stat"` member, ANSI cursor sequences) and the Windows `fflush`. These are clock and terminal I/O. For the same reason, `MigrateCommandOptionToJsonc` does not model switching `stat` off.
- yyjson internals and `yyjson_mut_write_fp`. A document is a sequence of records, and writing it is one `ConfigWritten` event. The fields a module's own generateJsonConfig or generateJsonResult adds are only a marker (`Generated`) naming the module or custom options that produced them.
- The module callbacks `printModule`, `parseCommandOptions` and `ffPrintCustom`, and the text of `ffPrintErrorString`. Output becomes events on a sequence. `parseCommandOptions` is a predicate parameter.
- `CommandOptionState.ParseModuleOptions`: it does not model the update that the accepting module makes to its own options. It reports which module accepted.
- `CommandOptionState.PrepareCommandOption`: the CPU usage, disk IO, net IO, public IP and weather preparations start background or network work. They become a set of requested preparations.
- The module names `CPUUsage`, `DiskIO`, `NetIO`, `PublicIp`, `Weather` and `Memory`, and the percentage bits (num = 1, bar = 2, hide-others = 4), come from headers that are not part of this model. The default structure `FASTFETCH_DATATEXT_STRUCTURE` is generated at build time, so it is a parameter.
- `uint32_t` indices: integers are unbounded, so structures of 2^32 characters or more are not modelled.
- `ffDetectMemory` is an OS query, so its result is an input. The `long double` ratio at `memory.c:29` is floating point, so it is an opaque function. The model keeps only the total == 0 guard.
- `ffParseSize`, `ffAppendPercentBar`, `ffAppendPercentNum`, `ffOptionTestPrefix`, `ffOptionParseModuleArgs` and `ffJsonConfigParseModuleArgs` are not part of this model. Their results are function parameters.
- `ffInitMemoryOptions` and `ffDestroyMemoryOptions` manage memory. The initial options are a parameter of `ParseMemoryJsonObject`.
- `isalpha` and `toupper` on characters outside ASCII: only ASCII letters are letters, as in the C locale.
