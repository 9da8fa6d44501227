# ushell in Dafny

A model of the microshell for microcontrollers (`ushell`). The shell reads a raw byte stream
from a UART and keeps one editable 64-byte command line. On ENTER it splits the line in place
into tokens and either runs a built-in (`?`/`h`/`help`, `clear`) or calls the first registered
command whose name is token 0. A command may attach an input handler, which then receives every
byte until it is released. The model also covers the key codes packed by `ushell.h` and the
text encoders of `helper.c`.

Modules, one per concern of the C code:

- `Wrappers`: the `Option` type (a C pointer that may be null).
- `Helper` (`helper.c`): `IsPrintable`, `NibbleToHex`, the in-place `ByteToHex` and `WordToBinary`
  over caller buffers (`array<char>`), and the readers that invert them.
- `Keys` (`ushell.h`): key constants and the `KEY_ESCAPE`/`KEY_ESCAPE4` packing, on `bv32`.
- `ShellSpec` (`ushell.c`, as functions): the state of the shell as a value (`State`), its
  invariant `Wf`, the evaluator (`Evaluate`), the help table, the autocomplete listing, and one
  input byte (`Step`) or a sequence of them (`Feed`).
- `UShell` (`ushell.c`, as it runs): class `Shell` with the globals `command_line` (an
  `array<char>` of 64), `length`, `command_list` and `current_input_handler`. Everything the
  shell writes to the terminal and every call through a function pointer go to two ghost logs,
  `out` and `calls`. Each method is proved to leave the object in the state the matching
  `ShellSpec` function computes, so `InputChar` is `Step` and `InputString` is `Feed`.
- `ShellProperties`: what the shell guarantees, proved about the `ShellSpec` functions.

Terminal output is a trace of `Event`s: `Prompt`, `Echo(c)`, `EraseChar`, `CrLf`, `Text(s)`,
`Warning(msg)`, `Error(msg)`, `ClearScreen`. A command or keystroke handler is foreign code. The
model records its call (`Command(index, cc, argv, line)` or `Keystroke(b)`). A `HandlerEffect`
parameter says whether the handler returned plainly, attached a handler or released one.

Behaviour that C leaves undefined is a precondition, so a caller that meets the precondition
never reaches it. Each one is exhibited by a lemma under "Source defects kept as written":

- `EvaluationDefined`: `cv` overflowing, a null `command_list`, `strcmp` on a null name, or a
  call through a null function pointer of the matching entry (`Entry.handler` is false).
- `StepDefined`: TAB with a null `command_list`.

`UShell.Shell.InputString` also requires fewer than 256 bytes. That case is defined in C but
never terminates: the `uint8_t` index wraps to 0 and the loop starts over
(`InputStringNeverEnds`).

## Model

| member | source | states |
|---|---|---|
| `Helper.IsPrintable` | helper.c:4-8 | true exactly for the bytes from space to `~` (0x20..0x7E) |
| `Helper.NibbleToHex` | helper.c:26-29 | nibble n maps to the n-th character of `0123456789ABCDEF` |
| `Helper.NibbleRoundTrip` | helper.c:26-29 | `HexValue` inverts `nibble2hex`; the two agree on every digit in both directions, so 0..15 maps one-to-one onto the hex digits |
| `Helper.HexPair` | helper.c:38-39 | the two digits written for a byte are hex digits |
| `Helper.HexPairRoundTrip` | helper.c:38-39 | reading the two digits back as a base-16 number gives the byte |
| `Helper.ByteToHex` | helper.c:31-43 | with prefix: `"0x"`, high digit, low digit, `'\0'`; without: the digits overwrite the `"0x"` and the terminator lands at index 2; nothing past the used bytes changes |
| `Helper.BinaryAt` | helper.c:10-24 | character i of the 32-character text is the lowest bit of `value >> (31 - i)`, so `'1'` exactly when bit 31-i is set (most significant bit first) |
| `Helper.BinaryRoundTrip` | helper.c:13-21 | reading the 32 characters back as a base-2 number gives the word |
| `Helper.WordToBinary` | helper.c:10-24 | the loop from i = 31 down to 0 leaves the 32 bit characters in `buffer[0..32)`, `'\0'` at index 32, and the rest of the buffer unchanged |
| `Keys.KeyEscape` | ushell.h:44 | the top byte is `KEY_ESC`, then b, then c, and the low byte is 0 |
| `Keys.KeyEscape4` | ushell.h:45 | the top byte is `KEY_ESC`, then b, c and d, recoverable by shift and mask |
| `Keys.EscapeIsEscape4WithZero` | ushell.h:44-45 | `KEY_ESCAPE(b,c)` is `KEY_ESCAPE4(b,c,0)` |
| `Keys.Escape4Injective` | ushell.h:44-45 | for byte arguments, two packed codes are equal exactly when their bytes are |
| `Keys.Escape4Range` | ushell.h:44-45 | every packed code lies in 0x1B000000..0x1BFFFFFF, so it fits a `uint32_t` and equals no single byte |
| `Keys.EscapeNotSingleKey` | ushell.h:26-45 | no escape code equals BACKSPACE, either ENTER, Ctrl-C, TAB, space or ESC |
| `Keys.CursorKeysDistinct` | ushell.h:47-59 | the cursor, paging, shift-tab, pos1 and end codes start with ESC `'['` and are pairwise distinct |
| `Keys.DelLacksIntroducer` | ushell.h:61 | `KEY_DEL` carries `'3'` where the `'['` belongs, so it differs from ESC `[` `3` `~` |
| `ShellSpec.CString` | ushell.c:137-155 | the C string at an offset: the characters up to the first terminator, none of them `'\0'` |
| `ShellSpec.Lookup` | ushell.c:153-161 | the first entry, in index order, whose name is the command; `None` when no entry has that name |
| `ShellSpec.Step` | ushell.c:209-292 | one input byte keeps the line invariant (`length <= 62`, `command_line[length] == '\0'`, printable text) and never changes the command list |
| `ShellSpec.Feed` | ushell.c:294-301 | feeding bytes one by one keeps the line invariant and the command list |
| `UShell.Shell.constructor` | ushell.c:11-30 | the globals before `ushell_init`: a zero-filled line, length 0, no command list, no handler |
| `UShell.Shell.ClearCommandLine` | ushell.c:23 | length 0 and `'\0'` at offset 0; the rest of the buffer stays |
| `UShell.Shell.Init` | ushell.c:33-37 | installs the command list and clears the line, keeping the invariant |
| `UShell.Shell.AttachInputHandler` | ushell.c:304-307 | a handler is attached; nothing else changes |
| `UShell.Shell.ReleaseInputHandler` | ushell.c:309-313 | detaches and prints the prompt; the line is not cleared |
| `UShell.Shell.RunHandlerEffect` | ushell.c:158 | a handler's own attach or release, applied to the object |
| `UShell.Shell.Help` | ushell.c:52-103 | writes exactly `HelpOutput`: nothing for a null list, else border, rows, border |
| `UShell.Shell.HelpTableRows` | ushell.c:72-92 | the loop writes one row for each entry with a name and a help text, in order |
| `UShell.Shell.Autocomplete` | ushell.c:171-207 | writes exactly `AutocompleteOutput` of the typed text; the line is untouched |
| `UShell.Shell.ListMatches` | ushell.c:177-199 | `matches` is set exactly when some non-null name begins with the input; a fresh line, then each such name on its own line |
| `UShell.Shell.Tokenise` | ushell.c:118-134 | the array holds the split line, and `cv[0..cc)` holds offset 0 plus one past each delimiter, within the 6 slots of `cv` |
| `UShell.Shell.EvaluateLine` | ushell.c:111-166 | the object ends in the state `Evaluate` computes |
| `UShell.Shell.InputChar` | ushell.c:209-292 | the object ends in the state `Step` computes, invariant kept |
| `UShell.Shell.EraseLast` | ushell.c:220-225 | length down by one, a terminator over the last character, one erase on screen |
| `UShell.Shell.Append` | ushell.c:272-279 | the character at the old length, a terminator after it, length up by one, one echo |
| `UShell.Shell.InputString` | ushell.c:294-301 | the object ends in the state `Feed` computes over the bytes before the terminator |
| `ShellSpec.ListingSnoc` | ushell.c:196-197 | one more matching name adds its line at the end of the listing |
| `ShellProperties.FeedConcat` | ushell.c:294-301 | feeding a then b is feeding a + b |
| `ShellProperties.TypeOne` | ushell.c:267-279 | a printable byte that fits is appended and echoed, and the terminator moves one place right |
| `ShellProperties.TypingAppends` | ushell.c:267-279 | typing printable bytes that fit appends them, echoes each one, changes nothing past the terminator and calls nothing |
| `ShellProperties.TypedAt` | ushell.c:275-276 | typed on an empty line, byte k lands at offset k |
| `ShellProperties.BackspaceDropsLast` | ushell.c:218-225 | BACKSPACE removes the last typed character and erases it on screen |
| `ShellProperties.TypeThenBackspace` | ushell.c:218-276 | from an empty line, typing s leaves s; one more BACKSPACE leaves s without its last character |
| `ShellProperties.BackspaceOnEmptyLine` | ushell.c:218-226 | BACKSPACE on an empty line changes nothing |
| `ShellProperties.OtherControlBytesIgnored` | ushell.c:267-270 | a non-printable byte other than BACKSPACE, ENTER, Ctrl-C and TAB changes nothing |
| `ShellProperties.HostedEnterKeyIgnored` | ushell.h:33 | `KEY_ENTER` of the non-EMBEDDED build (0x0A) is not the ENTER of ushell.c and changes nothing |
| `ShellProperties.FullLineAborts` | ushell.c:281-290 | a printable byte on a full line: one warning, the terminator at offset 0, length 0, a prompt |
| `ShellProperties.CancelClears` | ushell.c:253-261 | Ctrl-C empties the line and prints `^C` and the prompt |
| `ShellProperties.EnterClears` | ushell.c:227-252 | ENTER starts with a line break and always ends with an empty line and the prompt, whatever the command did |
| `ShellProperties.CapturedBytesForwarded` | ushell.c:212-216 | while a handler is attached, every byte goes to it unchanged and in order; line, length and output do not change |
| `ShellProperties.ReleaseKeepsLine` | ushell.c:309-313 | a release from inside the handler prints the prompt and keeps the line |
| `ShellProperties.DelimiterStartsExact` | ushell.c:122-134 | an offset is collected exactly when the byte before it is `' '` or `'='` |
| `ShellProperties.DelimiterStartsIncrease` | ushell.c:122-134 | the collected offsets increase |
| `ShellProperties.DelimiterStartsCount` | ushell.c:122-134 | one offset per delimiter |
| `ShellProperties.TokeniserSplitsEveryDelimiter` | ushell.c:118-134 | `cv[0]` is 0; every delimiter at 1..63 becomes `'\0'` and starts a token; offset 0 is never split; `cc` is one more than the number of delimiters |
| `ShellProperties.SetExampleSplit` | ushell.c:118-134 | a buffer holding `set x=5` splits into `set`, `x`, `5` at offsets 0, 4, 6 |
| `ShellProperties.SetExampleArgv` | ushell.c:118-134 | the offsets for `set x=5` are 0, 4 and 6 |
| `ShellProperties.SetExampleStrings` | ushell.c:118-134 | the tokens of `set x=5` are `set`, `x` and `5` |
| `ShellProperties.SetExampleTokens` | ushell.c:118-134 | typed on an empty line, `set x=5` reaches the evaluator as these three tokens |
| `ShellProperties.EmptyLineDoesNothing` | ushell.c:113-115 | an empty line is a no-op |
| `ShellProperties.HelpAliasesSkipLookup` | ushell.c:136-143 | `?`, `h` and `help` print the table and call nothing |
| `ShellProperties.ClearBuiltin` | ushell.c:145-150 | `clear` clears the screen and calls nothing |
| `ShellProperties.FirstMatchInvokedOnce` | ushell.c:152-160 | the first entry named like token 0 is called exactly once, with `(cc, cv)` |
| `ShellProperties.UnknownCommandReported` | ushell.c:163-165 | with no entry named like token 0, exactly one error and no call |
| `ShellProperties.MatchingNamesExact` | ushell.c:177-198 | the listed names are exactly the non-null names that begin with the input |
| `ShellProperties.CStringOfLine` | ushell.c:23 | the C string of a terminated line is the text before the terminator |
| `ShellProperties.TabKeepsLine` | ushell.c:262-266 | TAB never edits the line, and writes nothing exactly when no name begins with the typed text |
| `ShellProperties.RowWidth` | ushell.c:82-91 | a name within 19 characters and a help within 44 give a row as wide as the border, 68 |
| `ShellProperties.HelpRowsExact` | ushell.c:72-92 | the table has a row for each entry with both texts and no other row |
| `ShellProperties.HelpTableAligned` | ushell.c:58-102 | when every listed text fits its column, every row is 68 characters wide |
| `ShellProperties.NullRegistryHelpSilent` | ushell.c:54-56 | with a null command list help prints nothing |
| `ShellProperties.StaleDelimiterAfterCancel` | ushell.c:122 | type `ab c`, Ctrl-C, `x`: the line shows `x`, yet a second token starts at offset 3 |
| `ShellProperties.CancelThenType` | ushell.c:253-279 | Ctrl-C then `x` leaves `x` on the line and a leftover `' '` at offset 2 still splits |
| `ShellProperties.SevenTokensOverflowArgv` | ushell.c:119-133 | `a b c d e f g` typed on an empty line gives 7 tokens for 6 slots of `cv`, so its ENTER is undefined |
| `ShellProperties.SevenTokensLine` | ushell.c:119-133 | a buffer starting with `a b c d e f g` needs more than 6 slots |
| `ShellProperties.NullRegistryLookupUndefined` | ushell.c:153-177 | with a null command list, TAB and any non-built-in command have no defined behaviour, and ENTER on a built-in still does |
| `ShellProperties.NullAheadUndefined` | ushell.c:153-161 | the scan is undefined when it reaches a null name at some index j before any entry named the command |
| `ShellProperties.NullHandlerUndefined` | ushell.c:153-161 | the scan is undefined when the first entry named the command has a null function pointer |
| `ShellProperties.NullNameBeforeMatchUndefined` | ushell.c:153-161 | a null name at any index before the first entry named token 0 makes ENTER undefined, although help and autocomplete skip null names |
| `ShellProperties.NullHandlerMatchUndefined` | ushell.c:156-158 | ENTER is undefined when the first entry named token 0 has a null function pointer |
| `ShellProperties.NextIndex` | ushell.c:296-299 | the `uint8_t` increment of the index: the successor modulo 256, so 255 is followed by 0 |
| `ShellProperties.IndexAfterWraps` | ushell.c:296-299 | after n increments from 0 the index is n modulo 256 |
| `ShellProperties.InputStringNeverEnds` | ushell.c:294-301 | when the first 256 bytes of the string are non-zero, the loop test holds after every number of iterations, so the loop never ends |

## Left out

- Output is not byte-exact. The prompt, the erase sequence and the clear-screen sequence are
  single events, because their ANSI strings come from `ansi.h`, which is not part of this model.
  A write of a string is one `Text` event. Each help border and help row is one `Text` event,
  although the C code writes it one character at a time.
- `warning` and `error` are one event each. Their formatting lives in `syslog.c`, which is not
  part of this model: it depends on `int2str`, which is not available, and it names a global
  that `ushell.c` never defines.
- Command and keystroke handler bodies run through function pointers into foreign code. Only
  the call and its arguments are recorded, plus the `HandlerEffect` each one has on the capture
  state.
- `HandlerEffect` allows one effect per handler call: return, attach or release. A handler that
  releases and then attaches again, or releases twice, within one call is not modelled.
- `beginning_matches` is defined in none of the C sources `ushell.c`, `ushell.h`, `helper.c`
  and `syslog.c`. `BeginningMatches` assumes it means
  "the name starts with the typed text".
- `UShell.Shell.AttachInputHandler` models attaching a non-null handler. Attaching the null
  pointer would detach without printing the prompt; that case is not modelled.
- `Helper.NibbleToHex` requires `n < 16`, as the documentation of `nibble2hex` in helper.h asks.
  For a larger n the C code returns `'A' + n - 10` wrapped to a `char`, which is not modelled.
- `ushell_prompt` and `ushell_clear` are `Prompt` and `ClearScreen` events, not operations of
  their own.
- The `USHELL_DEBUG_INPUT` hex dump and the `USHELL_ACCEPT_NONPRINTABLE` variant are left out;
  the model is the default build.
- The EMBEDDED four-byte `KEY_POS1`/`KEY_END` and `KEY_CTRL_D` (a string, not a number) are left
  out; the non-EMBEDDED `KEY_POS1`/`KEY_END` are modelled.
- There is no escape-sequence decoder, no command history and no echo on/off in the code;
  `ushell_echo_on`/`ushell_echo_off` are declared in ushell.h but defined nowhere. None is
  modelled.
- `MAX_APPS` (16) is declared in ushell.h but enforced nowhere in `ushell.c`. The model bounds
  the command list only by its `uint8_t` count (fewer than 256 entries).
- `length` is an unbounded `nat`. The line invariant keeps it at or below 62, so the `uint8_t`
  of the C code never wraps.

Where the header and the implementation disagree, the model follows `ushell.c`:

- The registry is read as parallel arrays, `command_list->command[i]`, `help_brief[i]` and
  `function[i]` (ushell.c:75-76, 155, 158). ushell.h:91-102 declares
  `ushell_app_list_t { count; apps[] }` instead. `Entry` holds the name and the help of one
  index, and whether its function pointer is non-null.
- The handler global is a `terminal_input_handler_t` set by `ushell_attach_input_handler`
  (ushell.c:30, 304). ushell.h:166-168 declares a `keystroke_handler_t` taking a `uint32_t`,
  with `..._keystroke_handler` functions. The attached handler receives the byte.

The comment at ushell.h:159-165 promises that the shell returns to the prompt only after an
attached hook is released. The code does not keep that promise: after ENTER the line is always
cleared and the prompt printed, even when the command attached a handler (`EnterClears`).

## Source defects kept as written

Each defect is modelled as the code behaves, or as a precondition where C leaves the
behaviour undefined. A lemma exhibits each one.

- The tokeniser scans offsets 1 to 63, past the terminator (ushell.c:122). `' '` or `'='` left
  behind by Ctrl-C or an overflow abort create extra tokens. Shown by
  `StaleDelimiterAfterCancel`.
- `cc` is never checked against `MAX_SUBSTRINGS` before `cv[cc]` is written (ushell.c:119,
  131-133). `UShell.Shell.Tokenise` needs `|Argv| <= 6` to stay inside `cv`, and
  `SevenTokensOverflowArgv` types an ordinary line that breaks it.
- `command_list` is null-checked in help (ushell.c:55) but not in the evaluator or autocomplete
  (ushell.c:153, 177). Shown by `NullRegistryLookupUndefined`.
- The lookup calls `strcmp` on every name it passes, null or not (ushell.c:155). Help and
  autocomplete skip null names. Shown by `NullNameBeforeMatchUndefined`.
- The matching entry's function pointer is called without a null check (ushell.c:158). Shown
  by `NullHandlerMatchUndefined`.
- `ushell_input_string` indexes with a `uint8_t` (ushell.c:296). For a string of 256 bytes or
  more the index wraps to 0 and the loop feeds the string again, forever. Shown by
  `InputStringNeverEnds`. `UShell.Shell.InputString` requires fewer than 256 bytes.
- `ENTER` is 0x0D in ushell.c:18, but `KEY_ENTER` is 0x0A outside the EMBEDDED build
  (ushell.h:33). Shown by `HostedEnterKeyIgnored`.
- `KEY_DEL` omits the `'['` (ushell.h:61). Shown by `DelLacksIntroducer`.
