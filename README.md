# BriCLI engine in Dafny

BriCLI is a command-line interpreter for embedded targets. Bytes arrive one
at a time from some transport and are appended to a fixed receive buffer on
the handle. When the buffer holds an end-of-line string, `Bricli_Parse` cuts
it into commands with `strtok_r`. For each command it takes the name and up
to three space-separated or quoted arguments. It runs a built-in command
(`help`, `clear`, `login`, `logout`) or the first user command of that name
whose authorisation scopes are granted. It then shifts the next command to
the front of the buffer and finally writes the prompt. All output goes
through one board-support write callback.

This project models that engine (`source/bricli.c`, with the inline helpers
of `Include/bricli/parser.h` and `Include/bricli/writer.h`) and proves what
it promises.

Each C function becomes a Dafny method or function that does what the C
code does, with the same branches, the same constants and the same error
codes. Each method is proved against a specification function. Lemmas then
state what the source and its tests promise about those functions.

## How the model is organised

| file | module | what it holds |
|---|---|---|
| `optional.dfy`, `errors.dfy` | `Optional`, `Errors` | `Option`; the error codes (-8..0) and the `LastError` kinds |
| `handle.dfy` | `Handle` | the handle as a class `Cli` with the C field names; its read-only view `Config` and its changing view `Snapshot`; the build constants |
| `cstrings.dfy` | `CStrings` | `strlen`, `strstr`, `strchr` and the glibc `strtok_r` step, as functions over NUL-terminated sequences; `StrTokR` works in place on an array |
| `writer.dfy` | `Writer` | `Bricli_Write`, its line, colour and string variants, `SendPrompt`, `ClearScreen`, `PrintF`, and the colour printing macro |
| `receiver.dfy` | `Receiver` | `ReceiveCharacter`, `Backspace`, `ReceiveIndexedArray`, `ReceiveArray`, `ClearBuffer` |
| `lines.dfy` | `Lines` | `CheckForEol`, `SplitOnEol`, `ClearCommand` |
| `tokenizer.dfy` | `Tokenizer` | `ExtractArguments`, including its quote handling |
| `auth.dfy` | `Auth` | the scope test, and the `help`, `clear`, `login` and `logout` handlers |
| `dispatcher.dfy` | `Dispatcher` | `ChangeState`, `ParseCommand`, `Parse`, `Reset` |
| `setup.dfy` | `Setup` | `Bricli_Init` |
| `outcomes.dfy` | `Outcomes` | dispatch and parse outcomes stated over the dispatcher's specification functions, for handles `Init` accepts (a write callback, a valid buffer) |

### State

The handle `Handle.Cli` has these fields:
- `RxBuffer`, `RxBufferSize` and `PendingBytes`;
- `State`, `AuthScopes` and `LastError`;
- `Eol`, `SendEol` and `Prompt`;
- `CommandList` and `AuthList`;
- `LocalEcho`, `BspWrite` and `OnStateChanged`.

The receive buffer is an `array<char>` of `RxBufferSize + 1` cells. The last cell is always NUL, so every C-string search stops inside the array. The C code has no such cell: callers pass the array's own size as `RxBufferSize`, and a buffer filled to capacity without an EOL is not terminated (see "## Findings"). The extra cell is the corrected buffer.

Three callbacks are outside the model. Their effects are recorded in ghost traces on the handle:
- `Output`: every string handed to `BspWrite`, in order;
- `Transitions`: every `(old, new)` pair handed to `OnStateChanged`, in order;
- `Calls`: every call of a user command handler, with its arguments.

`BspWrite` is modelled as an optional function value. Its result is returned where the C code returns it. A user handler is a function value from `(argc, argv)` to its `int` result.

The constants come from `config/bricli_config.h`:

| constant | value |
|---|---|
| argument buffer | 70 |
| maximum arguments | 3 |
| maximum command length | 10 |
| print buffer | 80 |
| default EOL | `"\n"` |
| default prompt | `">> "` |

`BRICLI_USE_REENTRANT`, `BRICLI_SHOW_COMMAND_ERRORS` and `BRICLI_SHOW_HELP_ON_ERROR` are all on.

### Where the code and its own comments part ways

The model follows the code:

- **`Init` never copies `SendEol`.** `BricliInit_t` has a `SendEol` field (`Include/bricli/handle.h:46`), but `Bricli_Init` (`source/bricli.c:488-522`) never copies it. The handle's `SendEol` stays NULL after the `memset`, so every output line ends with `Eol` (`Include/bricli/writer.h:51-57`, `Setup.InitLineEnd`).
- **Backspace keeps the erased byte.** The comment at `source/bricli.c:972` says a backspace removes itself and the previous character. `Bricli_Backspace` (`source/bricli.c:1036-1037`) lowers `PendingBytes` by 2 and writes NUL at `PendingBytes + 1`. That cell holds the backspace itself, as the comment at line 1035 says; the erased character keeps its byte. Receiving `"ab\b"` therefore leaves the C string `"ab"` at the front with one byte pending. `Receiver.BackspaceKeepsErasedByte` shows the effect on `"a\n\b"`.
- **Local echo also echoes a backspace.** The backspace branch (`source/bricli.c:973-977`) does not skip the echo at lines 979-983. With local echo on, the `"\b"` is written again after the `"\b"`, `"\e[K"` pair (`Receiver.BackspaceReceived`).
- **EOL runs are split differently.** The comment at `source/bricli.c:601` says the next command is always EOL-length past the old one. `strtok_r` collapses a run of EOL characters, but `ClearCommand` skips exactly `strlen(Eol)` bytes after each command. So `"a\n\nb\n"` is dispatched as `"a"` and then as a command starting with `"\n"`.
- **Quoted arguments.** The closing quote is searched for only after the current space-delimited token (`source/bricli.c:137-146`). As a result, `"Hello" 43` yields no arguments at all, and so does an unclosed quote. The arguments already collected are discarded (`Tokenizer.FirstQuoteUnclosed`).
- **Empty receive.** The comment at `source/bricli.c:1000` promises Ok unless the buffer is full. A zero-length `ReceiveArray` never enters the loop and returns the initial `Unknown` (-8).

## Model

| member | source | states |
|---|---|---|
| Handle.Cli.constructor | Include/bricli/handle.h:64-81 | a new handle holds the given buffer and configuration, with nothing pending, state Idle, no scopes, no error and empty traces |
| CStrings.Strlen | source/bricli.c:602 | the length reaches the first NUL: every earlier byte is non-NUL and the byte at the end is NUL |
| CStrings.CStringAt | source/bricli.c:602 | the C string at an index holds no NUL and has `strlen` bytes |
| CStrings.StrlenIs | source/bricli.c:924 | a NUL at `i + n` with no NUL before it fixes `strlen` at `n` and the C string at `s[i..i+n]` |
| CStrings.StrTokStep | source/bricli.c:906-919 | one `strtok_r` call only writes NUL over a delimiter, only between the cursor and the new save point, and leaves the buffer alone when no token is found |
| CStrings.SpanEnd | source/bricli.c:906 | the skip over leading delimiters ends at the first byte that is not a delimiter |
| CStrings.BreakEnd | source/bricli.c:906 | a token ends at the first delimiter or NUL after its start |
| CStrings.StrTokR | source/bricli.c:906-919 | the in-place `strtok_r` on the array produces the token, buffer and save point of `StrTokStep` |
| CStrings.StrTokAll | source/bricli.c:905-920 | running `strtok_r` to the end changes only delimiter bytes after the start, to NUL, and reports token starts inside the buffer |
| CStrings.StepFields | source/bricli.c:911-919 | one `strtok_r` step yields the first non-empty field, and the remaining fields are those of the rest of the string |
| CStrings.StrTokAllFields | source/bricli.c:905-920 | the tokens `strtok_r` returns are exactly the non-empty fields of the C string between delimiter characters |
| CStrings.StepTokenKept | source/bricli.c:911-919 | later `strtok_r` calls do not change a token already returned |
| CStrings.CharsOf | source/bricli.c:906 | the EOL string used as a delimiter argument stands for the set of its characters |
| CStrings.StrStr | source/bricli.c:861 | `strstr` finds the first occurrence of the needle at or after the start, or reports that none exists |
| CStrings.StrChr | source/bricli.c:144 | `strchr` finds the first occurrence of a byte within the C string, or reports that none exists before the NUL |
| Writer.DigitsRoundTrip | source/bricli.c:787 | the decimal digits printed for a non-negative value read back as that value |
| Writer.DecimalRoundTrip | source/bricli.c:787 | the `%d` text of any int starts with `-` exactly when the value is negative, is otherwise digits, and reads back as the value |
| Writer.Digits | source/bricli.c:787 | the `%d` digits of a non-negative value: non-empty and all decimal digits |
| Writer.Write | Include/bricli/writer.h:24-36 | the first `length` bytes go to `BspWrite` in one call whose result is returned; without a write callback nothing is written, `LastError` becomes Internal and `BadHandle` is returned |
| Writer.WriteLine | Include/bricli/writer.h:47-60 | exactly two writes, the data and then the line terminator (`SendEol` when set, else `Eol`); the terminator's result is returned |
| Writer.WriteString | Include/bricli/writer.h:107-110 | the whole C string is written in one call and its result returned |
| Writer.WriteStringLine | Include/bricli/writer.h:120-123 | the C string and then the line terminator are written; the terminator's result is returned |
| Writer.SetColour | source/bricli.c:535-578 | one write of the colour's escape sequence |
| Writer.WriteColoured | Include/bricli/writer.h:72-78 | colour, data, colour reset, in that order; the data write's result is returned |
| Writer.WriteColouredLine | Include/bricli/writer.h:90-96 | colour, data, line terminator, reset; the terminator's result is returned |
| Writer.WriteStringColoured | Include/bricli/writer.h:134-140 | colour, C string, reset; the string write's result is returned |
| Writer.WriteStringColouredLine | Include/bricli/writer.h:151-157 | colour, C string, line terminator, reset; the terminator's result is returned |
| Writer.SendPrompt | Include/bricli/writer.h:164-170 | the prompt is written exactly once when there is one, and nothing is written otherwise |
| Writer.ClearScreen | Include/bricli/writer.h:178-181 | exactly one write of cursor-home followed by erase-screen (`"\e[H\e[J"`) |
| Writer.PrintF | source/bricli.c:1066-1085 | a formatted message is written once when it is non-empty and shorter than 80 bytes, returning the write's result; otherwise nothing is written and -1 is returned |
| Writer.PrintFColoured | include/bricli/colours.h:148 | colour, the `PrintF`, reset; the `PrintF` result is returned |
| Receiver.Zeros | Include/bricli/parser.h:27 | a run of NUL bytes of the given length |
| Receiver.Cleared | Include/bricli/parser.h:25-29 | a cleared buffer is all NUL, with nothing pending |
| Receiver.Erase | source/bricli.c:1024-1043 | with fewer than 2 pending, pending becomes 0 and nothing is written; otherwise pending drops by 2, the backspace's own cell becomes NUL, and `"\b"` then `"\e[K"` are written |
| Receiver.Receive | source/bricli.c:944-990 | one byte's reception ends in Ok, ReceivedNull or CopyWouldOverflow and keeps the buffer well formed |
| Receiver.Refused | source/bricli.c:949-960 | a NUL byte is refused with ReceivedNull and a full buffer with CopyWouldOverflow; either way nothing changes |
| Receiver.Accepted | source/bricli.c:963-986 | an ordinary byte is stored at the old pending count, pending grows by 1, the byte is echoed once when local echo is on, and state, scopes and error are untouched |
| Receiver.AppendedOne | source/bricli.c:963-986 | receiving one ordinary byte into a buffer with room is appending it |
| Receiver.BackspaceReceived | source/bricli.c:963-986 | a backspace is stored and then erased: from 0 pending it stays 0 and nothing is erased on screen; otherwise one byte less is pending, the erase pair is written, and then the backspace is echoed |
| Receiver.ReceiveAll | source/bricli.c:1002-1018 | receiving a sequence keeps the buffer well formed |
| Receiver.ReceiveChunks | source/bricli.c:1007-1016 | receiving `a + b` is receiving `a` and then, if that succeeded, receiving `b` from where `a` left off |
| Receiver.ReceiveOneMore | source/bricli.c:1007-1016 | one more byte after a successful run is one more `Receive` |
| Receiver.StopsAtRefusal | source/bricli.c:1012-1015 | once a byte is refused, later bytes are never received |
| Receiver.ReceivePlain | source/bricli.c:1007-1016 | ordinary bytes that fit are appended in order, pending grows by their count, and each is echoed when local echo is on |
| Receiver.ReceiveInChunks | Include/bricli/parser.h:40-43 | two successive receives of ordinary bytes leave the same state as one receive of both |
| Receiver.FreshBufferHoldsInput | Include/bricli/parser.h:40-43 | after receiving ordinary bytes into a cleared buffer, the buffer's C string is exactly those bytes |
| Receiver.ChunkedInputConcatenates | Include/bricli/parser.h:40-43 | receiving `"te"` and then `"st\n"` leaves the C string `"test\n"` |
| Receiver.OverflowStopsAtCapacity | Include/bricli/parser.h:40-43 | with a 100-byte buffer, 101 bytes give CopyWouldOverflow with 100 pending |
| Receiver.FullBufferUnterminated | source/bricli.c:956-964 | ordinary bytes up to capacity are all accepted, and the caller's `RxBufferSize` cells then hold no NUL |
| Receiver.FullBufferTerminated | source/bricli.c:956-964 | with the extra cell, a buffer full of ordinary bytes keeps a terminator, and its C string is the whole input |
| Receiver.BackspaceKeepsErasedByte | source/bricli.c:1036-1037 | after `"a\n\b"` one byte is pending but the C string is still `"a\n"` |
| Receiver.ClearBuffer | Include/bricli/parser.h:25-29 | every buffer byte becomes NUL and pending becomes 0; nothing else on the handle changes |
| Receiver.Backspace | source/bricli.c:1024-1043 | the handle's new state is `Erase` of the old one |
| Receiver.ReceiveCharacter | source/bricli.c:944-990 | the result and the new state are those of `Receive` |
| Receiver.StoreByte | source/bricli.c:963-964 | the byte lands at the old pending index, and pending grows by one |
| Receiver.EchoByte | source/bricli.c:980-983 | the byte is written once when local echo is on, and nothing happens otherwise |
| Receiver.ReceiveIndexedArray | source/bricli.c:1002-1018 | the bytes `data[index..index+length]` are received in order, stopping at and returning the first non-Ok result; nothing received returns Unknown |
| Receiver.ReceiveArray | Include/bricli/parser.h:40-43 | behaves as `ReceiveIndexedArray` from index 0 |
| Lines.FindEol | source/bricli.c:855-866 | an EOL is found only when bytes are pending, at the first occurrence in the C string at the start of the buffer; none is reported when nothing is pending or there is no occurrence |
| Lines.Blank | source/bricli.c:875 | blanking keeps the buffer's length |
| Lines.EolCutsCommand | source/bricli.c:873-876 | nulling the found EOL leaves the C string at the front equal to the text before the EOL |
| Lines.BlankCells | source/bricli.c:875 | the `memset` NULs exactly the requested cells |
| Lines.CheckForEol | source/bricli.c:849-881 | the result says whether an EOL was found; only with `replaceEol` are the first occurrence's bytes nulled; pending and everything else are unchanged |
| Lines.SplitSpec | source/bricli.c:890-934 | splitting keeps the buffer's size and terminator, and with nothing pending it finds no command and changes nothing |
| Lines.SplitCountsFields | source/bricli.c:905-928 | the count is the number of non-empty fields between EOL characters, except that a single field whose length equals the pending count counts as 0; the tokens are those fields |
| Lines.NoEolNoCommand | source/bricli.c:924-928 | pending input that forms one whole C string (its `strlen` equals the pending count) with no EOL character makes no command; after a backspace the C string can be longer than what is pending, and then the single token counts as one command |
| Lines.SplitOnEol | source/bricli.c:890-934 | the count and the new buffer are those of `SplitSpec` |
| Lines.ShiftCells | source/bricli.c:612-616 | after the `memmove`, the first `pending - k` bytes are the old bytes from `k`; the next `k` bytes are NUL; the rest is unchanged |
| Lines.Shift | source/bricli.c:612-616 | the shifted buffer keeps its length |
| Lines.ClearCommandSpec | source/bricli.c:597-618 | removing the front command never increases the pending count and keeps the buffer well formed |
| Lines.NextCommandToFront | source/bricli.c:609-617 | after a shift, the C string at the front is the next command, cut at the new pending count |
| Lines.ShiftFront | source/bricli.c:615-616 | a shifted buffer's front C string is the old C string at the shift offset |
| Lines.ClearCommandExample | source/bricli.c:597-618 | `"test\0echo \"Hello\"\0"` with 17 pending leaves 12 pending and `echo "Hello"` at the front |
| Lines.TwoCommandsDrain | source/bricli.c:597-618 | `"test\0test\0"` drains in two calls to nothing pending |
| Lines.MoveDown | source/bricli.c:615-616 | the `memmove` plus `memset` produce `Shift` of the old buffer |
| Lines.ClearCommand | source/bricli.c:597-618 | the handle's new state is `ClearCommandSpec` of the old one |
| Tokenizer.TurnAt | source/bricli.c:127-158 | handling one token keeps the buffer's size and terminator; a kept argument starts before the next search point |
| Tokenizer.ExtractLoop | source/bricli.c:123-166 | the loop collects at most 3 argument starts, each inside the buffer, and the count equals the number collected |
| Tokenizer.Reopened | source/bricli.c:137-141 | restoring the nulled space keeps the buffer's size and terminator |
| Tokenizer.ReopenedFromSave | source/bricli.c:137-141 | restoring the space changes only the cell before the save point |
| Tokenizer.Extract | source/bricli.c:102-170 | `ExtractArguments` returns at most 3 arguments, counted exactly, each starting inside the buffer |
| Tokenizer.PlainArguments | source/bricli.c:118-166 | when none of the first 3 space-separated fields starts with a quote, the arguments are those fields (all of them when there are fewer) and the count is their number; later fields are never looked at, so `a b c "d` gives 3 |
| Tokenizer.PlainLoop | source/bricli.c:123-166 | without quotes, the loop keeps the arguments found so far and adds the upcoming fields up to the limit of 3 |
| Tokenizer.LoopKeepsPlainToken | source/bricli.c:156-165 | an unquoted token is stored and the loop continues with the next `strtok_r` |
| Tokenizer.PlainTurn | source/bricli.c:156-165 | storing an unquoted token keeps earlier arguments intact, and the fields still to come are unchanged |
| Tokenizer.QuoteCloses | source/bricli.c:127-154 | for a quoted token, the nulled space is restored, the next quote after the token becomes NUL, the argument starts after the opening quote, and the search resumes after the closing quote |
| Tokenizer.QuoteJoins | source/bricli.c:137-153 | a quoted argument is the token without its quote, a space, and the text up to the closing quote |
| Tokenizer.QuoteUnclosed | source/bricli.c:143-149 | a quoted token with no quote after it ends extraction with 0 arguments, discarding those already found |
| Tokenizer.EndUnclosed | source/bricli.c:143-149 | a quoted token at the end of the text has no closing quote after it, so extraction gives 0 arguments |
| Tokenizer.CutUnclosed | source/bricli.c:143-149 | a quoted token followed only by text without a quote gives 0 arguments |
| Tokenizer.KeptStays | source/bricli.c:156-165 | an argument stored before the next `strtok_r` keeps its start and its text to the end of extraction, unless extraction ends with 0 |
| Tokenizer.TurnKept | source/bricli.c:156-158 | an argument stored in one turn survives every later turn unchanged, unless extraction ends with 0 |
| Tokenizer.FirstQuoted | source/bricli.c:127-158 | a leading quoted argument closed after the first space (as in `"Hello World" 43`) is returned as the text between the quotes, or extraction returns 0; `Tokenizer.FirstQuotedThenPlain` gives the exact count when no reached field after it starts with a quote, and `Tokenizer.QuoteUnclosed` gives the 0 of a later quote with no closing quote |
| Tokenizer.FirstQuotedThenPlain | source/bricli.c:118-166 | a leading quoted argument closed after the first space, followed by fields none of the first two of which starts with a quote, gives the quoted text and then those fields as the arguments, 3 at most, counted exactly |
| Tokenizer.QuotedExample | test/TestHandlers.cpp:117-131 | `"Hello World" 43` gives two arguments, `Hello World` and `43` |
| Tokenizer.FirstQuoteUnclosed | source/bricli.c:143-149 | a leading quote with no quote after its own token (as in `"Hello" 43`, or an unclosed quote) gives 0 arguments |
| Tokenizer.TakeTurn | source/bricli.c:127-158 | the in-place handling of one token produces `TurnAt` |
| Tokenizer.NextArgument | source/bricli.c:123-166 | one loop iteration, including the next `strtok_r`, keeps the loop's specification: continuing gives the same final result, and giving up gives 0 |
| Tokenizer.ExtractArguments | source/bricli.c:102-170 | the count, the argument starts and the final buffer are those of `Extract` |
| Auth.LoggedOutSeesPublicOnly | source/bricli.c:197-214 | with no scopes granted, exactly the commands requiring no scope are in scope |
| Auth.MoreScopesSeeMore | source/bricli.c:204 | granting more scope bits never takes a command out of scope |
| Auth.FirstIndex | source/bricli.c:372-407 | the table scan finds the first entry with the name, or none when no entry has it |
| Auth.FirstIndexIs | source/bricli.c:372-407 | the scan stops at the first matching entry |
| Auth.Names | source/bricli.c:764-768 | the names of the command table, entry by entry |
| Auth.Usernames | source/bricli.c:373-376 | the user names of the auth table, entry by entry |
| Auth.SystemLines | source/bricli.c:270-284 | one help line per system command, in table order |
| Auth.UserLinesAt | source/bricli.c:287-320 | one help line per listed user command, in order |
| Auth.VisibleIff | source/bricli.c:287-292 | a user command is listed exactly when it is in the table and in scope |
| Auth.HelpListsInScope | source/bricli.c:263-323 | the help text is the 4 system lines followed by one line per in-scope user command, and every in-scope command is listed |
| Auth.ListedAt | source/bricli.c:291-316 | every in-scope user command has its line in the listing |
| Auth.PrintedAllFits | source/bricli.c:1079-1081 | messages that fit the print buffer are all written, each once, in order |
| Auth.ListSystemCommand | source/bricli.c:273-280 | one system help line is printed |
| Auth.ListCommand | source/bricli.c:291-316 | one user command's line is printed when it is in scope, and nothing otherwise |
| Auth.ListSystemCommands | source/bricli.c:270-284 | the system lines are printed in order |
| Auth.ListUserCommands | source/bricli.c:287-320 | the lines of the in-scope user commands are printed in order |
| Auth.Help | source/bricli.c:263-323 | the help handler prints the help listing and returns Ok |
| Auth.PrintHelp | source/bricli.c:1053-1056 | `Bricli_PrintHelp` is the help handler |
| Auth.Clear | source/bricli.c:333-341 | the clear handler writes the clear-screen sequence and returns Ok |
| Auth.Login | source/bricli.c:351-418 | the login handler's result and new state are those of its specification |
| Auth.FindUser | source/bricli.c:372-407 | the scan returns the first auth entry with the given user name |
| Auth.Admit | source/bricli.c:380-393 | the scopes become the entry's and `"Logged in as <user>"` is printed |
| Auth.Complain | source/bricli.c:355-415 | a red error line is written |
| Auth.LoginCodes | source/bricli.c:351-418 | login returns 0, -1 or -2; -1 exactly when there are fewer than 2 arguments or no auth list; a failed login keeps the scopes; the buffer is untouched |
| Auth.LoginSound | source/bricli.c:376-385 | a successful login names an entry whose user name and password match, and grants that entry's scopes |
| Auth.FirstEntryDecides | source/bricli.c:372-402 | the first entry with the user name decides: the right password grants its scopes and returns 0; a wrong one returns -2 with the invalid-login line, and no later entry is tried |
| Auth.LoginGrantsScope | source/bricli.c:372-402 | a successful login with an entry granting only the user scope (include/bricli/auth.h:31) puts user commands in scope and admin-only ones out; an entry granting user and admin puts both in scope |
| Auth.UnknownUserRefused | source/bricli.c:406-415 | an unknown user name returns -2 and writes only the invalid-login line |
| Auth.Logout | source/bricli.c:428-445 | the logout handler's result and new state are those of its specification |
| Auth.LogoutDropsLogin | source/bricli.c:428-445 | logout always returns 0 and leaves no scopes, so only public commands stay in scope; it writes the logged-out message if a login was active, and the no-session message otherwise |
| Dispatcher.ChangeState | source/bricli.c:178-188 | the state becomes the new one; the old and new states are announced once when a state callback is set |
| Dispatcher.Capped | source/bricli.c:723-738 | truncation keeps the prefix of at most the limit, and is the identity on short text |
| Dispatcher.Requested | source/bricli.c:711-739 | the command name is at most 10 bytes and has no space; the argument text is at most 70 bytes |
| Dispatcher.RequestOfLine | source/bricli.c:711-739 | for a line `name args`, the name is the text before the first space cut to 10 bytes, and the arguments are the rest cut to 70 bytes |
| Dispatcher.RequestOfWord | source/bricli.c:729-739 | a line without a space is all name, cut to 10 bytes, with no arguments |
| Dispatcher.ArgumentBuffer | source/bricli.c:685-727 | the corrected argument buffer is NUL-terminated and holds exactly the argument text |
| Dispatcher.ArgumentBufferAsWritten | source/bricli.c:685-727 | the argument buffer as declared has 70 bytes |
| Dispatcher.FullArgumentsUnterminated | source/bricli.c:685-727 | a 70-byte argument text leaves the declared buffer with no NUL at all |
| Dispatcher.ShortArgumentsAgree | source/bricli.c:685-727 | for shorter text, the declared and the corrected buffers agree and both are terminated |
| Dispatcher.Parsed | source/bricli.c:742 | the arguments extracted from the argument text: at most 3, counted exactly |
| Dispatcher.ParseCommandSpec | source/bricli.c:682-838 | parsing a command never changes the receive buffer or the pending count |
| Dispatcher.DispatchKeepsBuffer | source/bricli.c:744-837 | no outcome of the dispatch changes the receive buffer |
| Dispatcher.SystemKeepsBuffer | source/bricli.c:748-755 | a system command leaves the receive buffer and the pending count as they were |
| Dispatcher.UserKeepsBuffer | source/bricli.c:762-837 | the user-table dispatch leaves the receive buffer and the pending count as they were |
| Dispatcher.FindSystemCommand | source/bricli.c:745-760 | the scan of the system table returns the first matching entry |
| Dispatcher.FindUserCommand | source/bricli.c:763-818 | the scan of the user table returns the first entry with the name |
| Dispatcher.ReadRequest | source/bricli.c:711-739 | the name and argument text copied out of the buffer are `Requested` |
| Dispatcher.ArgumentArray | source/bricli.c:685-727 | a fresh argument buffer holds the terminated argument text |
| Dispatcher.SystemHandler | source/bricli.c:744-756 | the system table entry's handler runs |
| Dispatcher.RunSystemCommand | source/bricli.c:748-755 | state moves to HandlerRunning, the handler runs, state moves to Finished, and Ok is returned |
| Dispatcher.RunUserCommand | source/bricli.c:773-796 | the handler runs between the two state changes; a negative result is printed in red and sets `LastError` to Command |
| Dispatcher.CallHandler | source/bricli.c:776-778 | the handler's result is returned verbatim, its call is recorded, and HandlerRunning and then Finished are announced |
| Dispatcher.ReportError | source/bricli.c:781-796 | `"Command returned error: <code>"` is printed in red and `LastError` becomes Command |
| Dispatcher.Refuse | source/bricli.c:798-811 | an out-of-scope command returns Unauthorized, prints `"Unknown Command <name>"` and sets `LastError` to Internal |
| Dispatcher.UnknownCommand | source/bricli.c:820-837 | an unknown name prints `"Unknown Command <name>"` and the help listing, sets `LastError` to Internal, and returns BadCommand |
| Dispatcher.DispatchUser | source/bricli.c:762-837 | the user-table part of the dispatch follows its specification |
| Dispatcher.Dispatch | source/bricli.c:742-837 | the dispatch of a name and argument text follows its specification |
| Dispatcher.ParseCommand | source/bricli.c:682-838 | the result and the new state are those of `ParseCommandSpec` |
| Dispatcher.Advance | source/bricli.c:650-666 | one loop iteration keeps the buffer well formed |
| Dispatcher.Tidied | source/bricli.c:654-666 | tidying after a command keeps the buffer well formed |
| Dispatcher.HandleCommand | source/bricli.c:650-666 | one iteration parses the front command, removes it, returns to Idle, and prompts after the last command |
| Dispatcher.FinishCommand | source/bricli.c:654-666 | the front command is removed, the state returns to Idle, and the prompt follows the last command |
| Dispatcher.RemoveCommand | source/bricli.c:654-657 | `ClearCommand` and then a move to Idle |
| Dispatcher.HandleCommands | source/bricli.c:647-667 | the loop over the counted commands follows its specification and returns the last command's result |
| Dispatcher.Parse | source/bricli.c:626-671 | `Parse`'s result and new state are those of its specification |
| Dispatcher.PromptAlone | source/bricli.c:639-644 | a lone EOL writes the prompt and clears the buffer |
| Dispatcher.HandleLines | source/bricli.c:647-667 | after the split, the counted commands are run in turn on the split buffer |
| Dispatcher.SplitLines | source/bricli.c:647 | the split only changes the buffer and returns `SplitSpec`'s count |
| Dispatcher.Reset | source/bricli.c:1091-1095 | the buffer is cleared and the state returns to Idle |
| Setup.InitCheck | source/bricli.c:456-485 | Init's checks end in Ok or BadParameter |
| Setup.InitCheckOk | source/bricli.c:456-485 | Init accepts exactly the settings that name a buffer of non-zero size, a non-empty command list and a write callback |
| Setup.InitConfig | source/bricli.c:488-522 | the handle takes the settings' buffer size, tables, callbacks and echo flag |
| Setup.InitLineEnd | source/bricli.c:491-494 | output lines end with the settings' EOL or `"\n"`, whatever `SendEol` the settings give |
| Setup.InitConfigValid | source/bricli.c:488-522 | a handle made from complete settings is one the engine accepts, with `">> "` as the prompt when none is given |
| Setup.Init | source/bricli.c:451-527 | the result is that of the checks; on Ok, the handle is new, zeroed, and configured from the settings |
| Outcomes.SystemIndex | source/bricli.c:246-253 | each system command is found at its own entry |
| Outcomes.SystemCommandRuns | source/bricli.c:744-756 | a system command name returns Ok whatever its handler returned, runs no user handler, ends in Finished after the HandlerRunning and Finished notices, keeps the buffer, and only login or logout change the scopes |
| Outcomes.SystemRun | source/bricli.c:748-755 | a system run leaves `LastError` as it was |
| Outcomes.HandlerEffects | source/bricli.c:263-445 | the system handlers change at most the scopes and the output; only login can fail; only login and logout touch the scopes |
| Outcomes.LoginEffects | source/bricli.c:351-418 | login changes at most the scopes and the output, and only appends output |
| Outcomes.UserCommandRuns | source/bricli.c:762-796 | an in-scope user command runs its handler exactly once with the extracted arguments, returns the handler's result verbatim, ends in Finished after the two notices, and sets `LastError` to Command exactly when the result is negative |
| Outcomes.UserCommandChosen | source/bricli.c:762-797 | the first user entry with the name is the one that runs |
| Outcomes.RunUserEffects | source/bricli.c:773-796 | a user handler run returns the handler's result, records the call, keeps the scopes and the buffer, and reports a negative result |
| Outcomes.UserTableDecides | source/bricli.c:744-762 | a name that is not a system command is decided by the user table |
| Outcomes.OutOfScopeRefused | source/bricli.c:798-813 | an out-of-scope command returns Unauthorized; no handler is called, no state is announced, `"Unknown Command <name>"` is written and `LastError` becomes Internal |
| Outcomes.UnknownNameRejected | source/bricli.c:820-837 | a name in neither table returns BadCommand, writes `"Unknown Command <name>"` followed by the help listing, and sets `LastError` to Internal |
| Outcomes.UserDispatchEffects | source/bricli.c:762-837 | user dispatch only appends output, never changes the scopes or the buffer, and either runs one handler with the two notices or runs none and announces nothing |
| Outcomes.ParseCommandEffects | source/bricli.c:682-838 | `ParseCommand` announces Parsing, and the run notices when a handler runs; it calls at most one handler and only appends output; only `login` and `logout` change the scopes |
| Outcomes.AdvanceEffects | source/bricli.c:650-666 | every iteration ends in Idle with at most one handler call, and the last one ends with the prompt |
| Outcomes.LoopEffects | source/bricli.c:647-667 | `n` iterations call at most `n` handlers, only append output, and when `n > 0` end Idle with the prompt last; with `n = 0` nothing happens |
| Outcomes.ParseEffects | source/bricli.c:626-671 | with no EOL, `Parse` returns Ok and changes nothing; a lone EOL writes the prompt and empties the buffer; otherwise at most one handler runs per counted command, and when commands were counted it ends Idle with the prompt last |

## Left out

- The non-reentrant build (`BRICLI_USE_REENTRANT 0`) is not modelled, because it uses `strtok`'s hidden global cursor. The reentrant build, which the configuration enables, is modelled.
- Only glibc's `strtok_r` is modelled: a token that ends at the NUL leaves the save pointer at that NUL (`CStrings.StrTokStep`). BSD and newlib set the save pointer to NULL instead. There the check at `source/bricli.c:138` skips restoring the space, and `strchr(savePointer, '"')` at line 144 dereferences NULL for a quoted last token. `Tokenizer.EndUnclosed` states the glibc outcome (0 arguments) only.
- Escape-sequence handling (`Bricli_ParseEscapeCode`, `IsHandlingEscape`) is left out because it is a stub that returns Ok, and `IsHandlingEscape` is never set. A line starting with `ESC` moves to Parsing and returns Ok; no handler runs (`source/bricli.c:702-709`, `Dispatcher.ParseCommandSpec`).
- NULL checks on the handle, the buffer, the EOL and the tables are left out. The handle comes from `Init`, which refuses missing parts. The checks that `ParseCommand` runs in the wrong order and the NULL dereference in `Bricli_Write` are C undefined behaviour.
- Colour tables and the `Bricli_SetColour` index mapping are left out because they are lookup data. A colour is passed as its escape string.
- `vsnprintf` formatting is a library the model does not have. `PrintF` takes the already formatted message. The `%s` and `%d` texts the engine formats are built explicitly.
- `BRICLI_LOG` diagnostics in `Init` are left out because they are console I/O.
- `BspWrite`, `OnStateChanged` and user handlers are external callbacks. They are modelled as function values and ghost traces; their own side effects are outside the model.
- Setup.Init allocates the handle instead of filling one the caller passes, because Dafny has no caller-owned struct to `memset`. It also gives the buffer one extra NUL cell. The C reads past a full receive buffer in `strstr` (`source/bricli.c:861`), and `strtok_r`, `strchr` and `strlen` would too if reached. That is undefined behaviour, and the extra cell does not capture it: the model sees no EOL and nothing happens. "## Findings" records this defect.
- Integer widths are not modelled: the `uint32_t` pending count, the `uint16_t` command counter and the `uint8_t` argument count. The argument count is at most 3, and the pending count never exceeds the `uint32_t` buffer size. The command counter of `Bricli_SplitOnEol` (`source/bricli.c:892`) stays in range only for buffers under 131 071 bytes. From there on, 65 536 one-byte commands separated by single EOL bytes wrap it, and `Parse` would handle too few commands. `Lines.SplitSpec` returns the unwrapped count, so the model does not capture that wrap.
- Writer.PrintFColoured states the unchanged `LastError` only when a write callback is set. Without one, the callback-less writes set it to Internal, and that case is not stated.
- Application examples, the unfinished rewrite under `src/` and `inc/`, and the duplicate monolithic header are not part of this model.

## Findings

| source | as written | input that shows it | evidently intended | confidence | as-written member | corrected member |
|---|---|---|---|---|---|---|
| source/bricli.c:685-727 | `arguments[BRICLI_ARGUMENT_BUFFER_LEN]` receives up to 70 copied bytes, leaving no NUL for `strtok_r` | a command line with 70 or more bytes after the first space | a buffer of `BRICLI_ARGUMENT_BUFFER_LEN + 1` bytes, always terminated | not executed | Dispatcher.FullArgumentsUnterminated | Dispatcher.ArgumentBuffer |
| source/bricli.c:956-964 | `RxBufferSize` bytes are stored before `CopyWouldOverflow`, and callers pass the array's own size, so a full buffer holds no NUL; `strstr` at line 861 then reads past the array | `RxBufferSize` ordinary bytes with no EOL, with `Bricli_Parse` called after each one | one cell beyond `RxBufferSize`, always NUL, so every C-string search ends inside the buffer | not executed | Receiver.FullBufferUnterminated | Receiver.FullBufferTerminated |
