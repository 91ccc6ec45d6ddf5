# seaShell command core in Dafny

seaShell is a small interactive shell written in C. This project models its command-processing core and proves properties of the model:

- **The tokenizer** (`parser.c`). A line splits into its maximal runs of non-whitespace characters. Then one of two background rules may apply: a standalone final `&` token is dropped, or one trailing `&` is cut off the final token.
- **The history ledger** (`shell.c`). `historyBuffer` is a ten-slot array kept newest first and shifted in place. `commandCount` supplies the IDs.
- **The dispatch of one input line** (`shell.c`). A line is either empty, `exit`, `history`, a `!<digits>` replay, or a program launch.

Modules, one per concern:

| file | module | what it holds |
|---|---|---|
| `decimal.dfy` | `Decimal` | `isdigit`, `atoi` on a digit run, `printf("%u")` |
| `parser.dfy` | `Parser` | specification of tokenization and of the background rules; `countTokens`, `getNextToken` and `parseCommand` as loop methods proved equal to it |
| `history.dfy` | `History` | the ledger as a value (`LedgerState`), its invariant `WellFormed`, recording, the listing, the lookup |
| `dispatch.dfy` | `Dispatch` | `handleInput` / `builtInCommands` / `executeOldCommand` as functions `Step` / `BuiltIn` / `Replay`, and the properties of one step |
| `shell.dfy` | `Shell` | `checkDigits`, and the class `Shell` over an `array<Record>` of length 10 and a counter, whose methods are proved to move through exactly the states `Dispatch` describes |

Three behaviours of the code are easy to misread:

- **A successful replay records the replayed line again** under a new ID. `executeOldCommand` calls `handleInput` on the stored text (shell.c:284), and `handleInput` records it (shell.c:79-83). `Dispatch.ReplayHit` and `Dispatch.ReplaySession` state the code's behaviour: after `pwd`, `ls`, `!1` the ledger holds IDs 3, 2 and 1.
- **`history` prints oldest first**, in ascending ID order (shell.c:201, 207). See `History.ListingAscending`.
- **`!0` matches a never-written slot** while fewer than ten commands exist. That slot is zero-initialised, so its ID is 0 and its text is empty. Replaying the empty text silently does nothing (shell.c:38, 278-286, 73-75). See `History.FindSlotFinds` and `Dispatch.ReplayHit`.

A string in the model is the content of a C string before its terminator, so it holds no NUL character.

## Model

| member | source | states |
|---|---|---|
| `Parser.SkipSpace` | parser.c:79-82 | the index reached by the seek loop: every character skipped is whitespace, and the one it stops at is not (or the end) |
| `Parser.RunEnd` | parser.c:88-89 | the end of a token: every character before it is non-whitespace, and it is whitespace or the end of the line |
| `Parser.TokensFrom` | parser.c:122-138 | the tokens found from an index on; each is non-empty and whitespace-free |
| `Parser.TokenCount` | parser.c:37-58 | the number of tokens equals the number of positions where a non-whitespace character begins the line or follows whitespace |
| `Parser.CountTokens` | parser.c:37-59 | `countTokens` returns exactly the number of tokens of the line (0 for the empty line) |
| `Parser.GetNextToken` | parser.c:76-91 | returns END_OF_STRING (-1), start unchanged, iff only whitespace remains; otherwise the new start is the first non-whitespace index at or after the old one and the end is just past that run; the run is the next token and the tokens after it start at the end |
| `Parser.StripBackground` | parser.c:140-154 | the background flag is set iff the last token ends in `&`; without it the tokens are unchanged; with it at most one token is dropped, and every token before the last is kept |
| `Parser.Parse` | parser.c:110-158 | the parsed line is the line's tokens after the background rules: a foreground line keeps all of them, and at most one is lost |
| `Parser.ParseCommand` | parser.c:110-158 | the argument vector and background flag equal the specification `Parse`: the tokens in order, then the two background rules; every returned token is non-empty and whitespace-free |
| `Parser.NoTokensIffAllSpace` | parser.c:37-58 | a line has no tokens iff it is empty or all whitespace |
| `Parser.ConcatTokens` | parser.c:122-138 | the tokens glued together are exactly the non-whitespace characters of the line, in order |
| `Parser.TokensOfJoin` | parser.c:122-138 | re-joining tokens with single spaces and tokenizing again gives the same tokens |
| `Parser.TokensTrailingSpace` | parser.c:122-138 | whitespace after the last token (the newline `fgets` keeps) adds no token |
| `Parser.TokensOfTokenThen` | parser.c:122-138 | a token, a space and more text tokenize as that token followed by the tokens of the rest |
| `Parser.TokensOfToken` | parser.c:122-138 | a non-empty whitespace-free line is one token |
| `Parser.ParsedTokensAreTokens` | parser.c:141-156 | after the background rules every token is still non-empty and whitespace-free |
| `Parser.BackgroundRules` | parser.c:140-154 | the flag is set iff the last token ends in `&`; without it the tokens are unchanged; with it exactly one `&` is gone, the count drops by at most one, and every token before the last is untouched |
| `Parser.ParsedContent` | parser.c:140-154 | the returned tokens glued together, plus the `&` a background line loses, are the line's non-whitespace characters |
| `Parser.EmptyParse` | parser.c:110-145 | a blank line gives no tokens and foreground; a line that is only `&` gives no tokens and background; no other line gives an empty vector |
| `Parser.ExampleTrailingAmpersandToken` | parser.c:141-145 | `ls -l &` gives `ls`, `-l`, background |
| `Parser.ExampleAmpersandSuffix` | parser.c:147-153 | `sleep 5&` gives `sleep`, `5`, background |
| `Parser.ExampleAmpersandInside` | parser.c:147-153 | `echo a&b` gives `echo`, `a&b`, foreground: an `&` inside a token is not special |
| `Parser.ExampleOnlyAmpersand` | parser.c:141-145 | a line holding only `&` gives no tokens, background |
| `Parser.ExampleDoubleAmpersand` | parser.c:147-153 | `x&&` gives `x&`: only one `&` is cut |
| `Decimal.DecimalValue` | shell.c:273-275 | `atoi` of a digit run is 0 exactly when every digit is `0` |
| `Decimal.NatToString` | shell.c:222 | the `%u` spelling of an ID is a non-empty digit string with no leading zero |
| `Decimal.DecimalRoundTrip` | shell.c:273-275 | reading a printed ID back with `atoi` gives the ID |
| `Decimal.NatToStringInjective` | shell.c:222 | different IDs are printed differently |
| `History.Recordable` | shell.c:72-79 | a line the shell records (its parsed tokens are non-empty and the first does not start with `!`) has at least one token before the background rules |
| `History.Recorded` | shell.c:79-83 | `commandCount++`, `createNewCmd` (shell.c:175-180) and `recordCommand`: the count grows by one, slot 0 holds the line with the new count as ID, slot i+1 holds the old slot i |
| `History.InitialWellFormed` | shell.c:38-44 | the zeroed buffer with count 0 satisfies the ledger invariant |
| `History.RecordedWellFormed` | shell.c:79-83 | recording a line with tokens and no leading `!` keeps the invariant: slot i holds ID count - i for i below the count, the other slots stay zeroed, and every stored text is such a line |
| `History.RecordAllShifts` | shell.c:188-194 | after n recordings the count grew by n, the first slots hold the last n lines newest first, and the rest hold the old slots shifted by n |
| `History.RecordAllWellFormed` | shell.c:188-194 | any number of recordings keeps the invariant |
| `History.ElevenCommandsEvictFirst` | shell.c:188-194 | eleven commands from the start leave the last ten, with IDs 11 down to 2 |
| `History.Listing` | shell.c:198-211 | `printHistory` prints one line per held slot, min(count, 10) lines, and the last line is slot 0, the newest command |
| `History.ListingAscending` | shell.c:198-211 | `printHistory` prints min(count, 10) lines, no padding, in ascending ID order: line k shows the slot holding ID count - held + 1 + k; the last line is slot 0 |
| `History.FormatRecord` | shell.c:218-224 | each `\t\t<id> <text>` line that `printStruct` prints reads back as exactly the ID and text it was printed from |
| `History.FindSlotFrom` | shell.c:278-287 | the lookup result is the first slot at or after the start whose ID matches, or none matches |
| `History.FindSlotFinds` | shell.c:278-288 | under the invariant, a lookup succeeds iff the ID is still held, or the ID is 0 while fewer than ten commands exist |
| `History.FindHeldSlot` | shell.c:278-287 | a held record is found at its own slot |
| `History.FoundText` | shell.c:278-286 | what a lookup finds is a recorded line or a zeroed slot |
| `Dispatch.IsReplayToken` | shell.c:234-251 | a token that `checkDigits` accepts starts with `!` and is a whitespace-free token |
| `Dispatch.ReplayId` | shell.c:271-275 | the ID `atoi` reads after the `!` is 0 exactly when every digit is `0` |
| `Dispatch.Step` | shell.c:68-102 | `handleInput` keeps the ledger invariant |
| `Dispatch.BuiltIn` | shell.c:110-123 | `builtInCommands` keeps the ledger invariant |
| `Dispatch.Replay` | shell.c:271-291 | `executeOldCommand` keeps the ledger invariant |
| `Dispatch.StoredDepth` | shell.c:79-83 | no stored text has a first token starting with `!` |
| `Dispatch.Activations` | shell.c:283-285 | the number of nested `handleInput` calls is at least 1 and at most 1 + the line's depth, which is 1 only when its first token starts with `!` |
| `Dispatch.ReplayNestsOnce` | shell.c:278-286 | at most two `handleInput` calls are active, and two exactly when a replay finds its line |
| `Dispatch.EmptyLineDoesNothing` | shell.c:72-75 | a blank line or a lone `&` changes nothing and yields the empty outcome |
| `Dispatch.RecordedLine` | shell.c:78-92 | a line whose first token does not start with `!` is recorded under count + 1 before classification, then gives exit(0), the listing, or a launch of its tokens with its flag |
| `Dispatch.HistoryListsItself` | shell.c:79-117 | `history` prints the held lines and its own line comes last, under the newest ID |
| `Dispatch.BangLineLaunches` | shell.c:79-92 | `!` or `!x` is neither recorded nor replayed; it is launched unchanged |
| `Dispatch.StepReplays` | shell.c:85-121 | a `!<digits>` line goes to `executeOldCommand` unrecorded |
| `Dispatch.ReplayHit` | shell.c:283-285 | a found replay is the same as typing the stored line again; a held line is recorded again under a new ID; an empty never-written slot does nothing |
| `Dispatch.ReplayMiss` | shell.c:288-290 | a replay miss yields `<token>: event not found\n` and leaves the ledger unchanged |
| `Dispatch.StepRecordsAtMostOne` | shell.c:79-83 | any line leaves the ledger unchanged or records exactly one line under the next ID |
| `Dispatch.ListedIdReplays` | shell.c:271-286 | `!<id>` for an ID that `history` shows, followed by any whitespace, replays that line |
| `Dispatch.ReplayedExitExits` | shell.c:112-113 | replaying a recorded `exit` ends the shell with status 0 |
| `Dispatch.WordStep` | shell.c:79-92 | a one-word, non-built-in line is recorded and launched in the foreground |
| `Dispatch.ReplaySession` | shell.c:271-286 | after `pwd`, `ls`, `!1` the replay launches `pwd` again, and the ledger holds `pwd` (3), `ls` (2), `pwd` (1) |
| `Shell.CheckDigits` | shell.c:234-251 | returns true iff the token is `!` followed by at least one character, all decimal digits |
| `Shell.Shell.constructor` | shell.c:38-44 | the shell starts with a zeroed buffer and count 0 |
| `Shell.Shell.RecordCommand` | shell.c:188-194 | the new buffer is the new record followed by the old slots 0..8; the old slot 9 is gone |
| `Shell.Shell.AddCommand` | shell.c:79-83 | the count and buffer move to `History.Recorded` of the old ones, keeping the invariant |
| `Shell.Shell.PrintHistory` | shell.c:198-211 | the printed lines are exactly the listing of the current ledger |
| `Shell.Shell.Lookup` | shell.c:278-287 | the slot found is the first matching one, or no slot matches |
| `Shell.Shell.ExecuteOldCommand` | shell.c:271-291 | the new ledger and outcome are those of `Dispatch.Replay` |
| `Shell.Shell.BuiltInCommands` | shell.c:110-123 | the new ledger and outcome are those of `Dispatch.BuiltIn` |
| `Shell.Shell.HandleInput` | shell.c:68-102 | the new ledger and outcome are those of `Dispatch.Step`, and the invariant is kept |

## Left out

- The main loop is not modelled: the prompt, `fgets`, and exiting on a read failure (shell.c:41-60). These are terminal I/O. A line is a parameter of `HandleInput`.
- `executeCommand` is not modelled (shell.c:132-165): `fork`, `execvp`, `waitpid`, and the child's `<cmd>: command not found` message with its `exit(0)`. These are OS process control. A launch is the outcome `Launch(argv, background)`.
- The `SIGCHLD` handler and its registration are not modelled (shell.c:42, 258-263). They concern asynchronous signal delivery; the handler touches no ledger state.
- Memory management is not modelled: `malloc`, `realloc`, `free`, `handleHeapError` and the token-freeing loop (parser.c:17-25, 116-119, 129-132, 143, 151; shell.c:94-101). Tokens are `seq<string>`. The NULL terminator of the argument array is the sequence's length.
- `exit(0)` is the terminal outcome `Exit(0)`, not process termination. `printf` and `fflush` become returned strings.
- parser.h is not part of this model. It only declares `parseCommand`.
- `History.Recorded`: IDs and `commandCount` are unbounded naturals. The wrap of the `unsigned int` counter after 2^32 commands is not modelled.
- `Dispatch.ReplayId`: the ID is the exact decimal value of the digits. `atoi`'s undefined behaviour beyond the `int` range, and the cast to `unsigned`, are not modelled.
- `Shell.Shell.AddCommand`: texts are unbounded. The 1000-character `command` field and the `fgets` limit (`MAX_CMD_LENGTH`, shell.c:17) are not modelled.
- Whitespace is the C-locale `isspace` set, and every other character counts as non-whitespace. Calling `isspace` on a negative `char` is undefined in C; that case is not modelled.
