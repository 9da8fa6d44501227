/**
 * The behaviour of the line-editing shell of ushell.c as functions on a snapshot of its
 * global state: the 64-byte command line, its length, the registered command list, whether
 * an input handler is attached, and what the shell has emitted and invoked so far.
 */
module ShellSpec {
  import opened Wrappers
  import opened Helper

  /** Size of command_line; a line holds at most MAX_LENGTH - 2 characters. */
  const MAX_LENGTH: nat := 64
  /** Size of the argument vector cv of the evaluator. */
  const MAX_SUBSTRINGS: nat := 6

  /** The key bytes ushell.c itself recognises. */
  const BACKSPACE: u8 := 0x7F
  const ENTER: u8 := 0x0D
  const CTRL_C: u8 := 0x03
  const TAB: u8 := 0x09

  const NOT_RECOGNIZED: string := "Command not recognized"
  const TOO_LONG: string := "Aborted. Maximum command line length exceed."

  /** Width of the two columns of the help table, borders included. */
  const NAME_COLUMN: nat := 20
  const HELP_COLUMN: nat := 45

  /**
   * One registered command: its name and its help text, each possibly a null pointer, and
   * whether its function pointer is non-null.
   */
  datatype Entry = Entry(name: Option<string>, help: Option<string>, handler: bool)

  /** What the shell writes to the terminal. */
  datatype Event =
    | Prompt               // ushell_prompt
    | Echo(c: char)        // the echo of a typed character
    | EraseChar            // cursor left, space, cursor left
    | CrLf                 // crlf
    | Text(s: string)      // write of a string
    | Warning(msg: string) // warning(...)
    | Error(msg: string)   // error(...)
    | ClearScreen          // ushell_clear

  /** A call into foreign code through a function pointer. */
  datatype Call =
    | Command(index: nat, argc: nat, argv: seq<nat>, line: seq<char>) // handler of entry index, argv as offsets into line
    | Keystroke(key: u8)                                              // the attached input handler

  /** What a called handler does to the capture state before it returns. */
  datatype HandlerEffect = Returns | Attaches | Releases

  datatype State = State(
    line: seq<char>,
    length: nat,
    registry: Option<seq<Entry>>,
    attached: bool,
    out: seq<Event>,
    calls: seq<Call>)

  predicate IsCString(s: string) { '\0' !in s }

  predicate EntryOk(e: Entry)
  {
    (e.name.Some? ==> IsCString(e.name.value)) && (e.help.Some? ==> IsCString(e.help.value))
  }

  /** The registry counts its entries in a uint8_t and holds C strings. */
  predicate RegistryOk(registry: Option<seq<Entry>>)
  {
    registry.Some? ==> |registry.value| < 0x100 && forall i :: 0 <= i < |registry.value| ==> EntryOk(registry.value[i])
  }

  /**
   * The line invariant: the typed characters are printable, command_line[length] terminates
   * them, and length leaves room for that terminator and one more byte.
   */
  predicate LineOk(line: seq<char>, length: nat)
  {
    |line| == MAX_LENGTH && length <= MAX_LENGTH - 2 && line[length] == '\0' &&
    forall k :: 0 <= k < length ==> ' ' <= line[k] <= '~'
  }

  predicate Wf(s: State)
  {
    LineOk(s.line, s.length) && RegistryOk(s.registry)
  }

  /** The C string starting at offset i of buf: everything up to the first terminator. */
  function CString(buf: seq<char>, i: nat): (r: string)
    requires i <= |buf|
    ensures i + |r| <= |buf| && r == buf[i..i + |r|] && IsCString(r)
    ensures i + |r| < |buf| ==> buf[i + |r|] == '\0'
    decreases |buf| - i
  {
    if i == |buf| || buf[i] == '\0' then [] else [buf[i]] + CString(buf, i + 1)
  }

  // ---------------------------------------------------------------- tokeniser

  predicate IsDelimiter(c: char) { c == ' ' || c == '=' }

  /** The buffer after the tokeniser has overwritten the delimiters at offsets 1..n-1 with terminators. */
  function SplitUpTo(line: seq<char>, n: nat): (r: seq<char>)
    ensures |r| == |line|
  {
    seq(|line|, k requires 0 <= k < |line| => if 1 <= k < n && IsDelimiter(line[k]) then '\0' else line[k])
  }

  /** Offsets i + 1 of the delimiters at offsets lo <= i < hi, in order. */
  function DelimiterStarts(line: seq<char>, lo: nat, hi: nat): seq<nat>
    requires hi <= |line|
  {
    if hi <= lo then []
    else DelimiterStarts(line, lo, hi - 1) + (if IsDelimiter(line[hi - 1]) then [hi] else [])
  }

  /** cv as the evaluator fills it: offset 0, then one offset after each delimiter at 1..63. */
  function Argv(line: seq<char>): (r: seq<nat>)
    requires |line| == MAX_LENGTH
  {
    [0] + DelimiterStarts(line, 1, |line|)
  }

  predicate IsHelpAlias(cmd: string) { cmd == "?" || cmd == "h" || cmd == "help" }

  /**
   * The registry scan never reaches a null name before it finds cmd (strcmp on null is
   * undefined), and the entry it finds has a non-null function pointer to call.
   */
  predicate ScanDefined(es: seq<Entry>, cmd: string, i: nat)
    requires i <= |es|
    decreases |es| - i
  {
    i == |es| ||
    (es[i].name.Some? && (if es[i].name.value == cmd then es[i].handler else ScanDefined(es, cmd, i + 1)))
  }

  /** The first entry at or after i whose name is cmd. */
  function Lookup(es: seq<Entry>, cmd: string, i: nat): (r: Option<nat>)
    requires i <= |es| && ScanDefined(es, cmd, i)
    ensures r.Some? ==> i <= r.value < |es| && es[r.value].name == Some(cmd)
    ensures r.Some? ==> forall j :: i <= j < r.value ==> es[j].name != Some(cmd)
    ensures r.None? ==> forall j :: i <= j < |es| ==> es[j].name != Some(cmd)
    decreases |es| - i
  {
    if i == |es| then None
    else if es[i].name.value == cmd then Some(i)
    else Lookup(es, cmd, i + 1)
  }

  /**
   * The evaluator has defined behaviour on this buffer: it is empty, or its tokens fit cv,
   * and unless the command is built in, the registry is not null, its scan meets no null name
   * and the function pointer it calls is not null.
   */
  predicate EvaluationDefined(line: seq<char>, registry: Option<seq<Entry>>)
  {
    |line| == MAX_LENGTH &&
    (line[0] == '\0' ||
      (|Argv(line)| <= MAX_SUBSTRINGS &&
       var cmd := CString(SplitUpTo(line, |line|), 0);
       IsHelpAlias(cmd) || cmd == "clear" ||
       (registry.Some? && ScanDefined(registry.value, cmd, 0))))
  }

  // ---------------------------------------------------------------- help table

  function Repeat(c: char, n: nat): string
  {
    seq(n, _ => c)
  }

  /** Padding after a text of len characters: the loop runs j from (uint8_t)(1 + len) up to width. */
  function PadCount(len: nat, width: nat): nat
  {
    var j := (1 + len) % 0x100;
    if j < width then width - j else 0
  }

  function Border(): string
  {
    "+" + Repeat('-', NAME_COLUMN) + "+" + Repeat('-', HELP_COLUMN) + "+"
  }

  function Row(name: string, help: string): string
  {
    "| " + name + Repeat(' ', PadCount(|name|, NAME_COLUMN)) +
    "| " + help + Repeat(' ', PadCount(|help|, HELP_COLUMN)) + "|"
  }

  /** The row of one entry; an entry with a null name or help prints nothing. */
  function RowEvents(e: Entry): seq<Event>
  {
    if e.name.Some? && e.help.Some? then [Text(Row(e.name.value, e.help.value)), CrLf] else []
  }

  /** The rows for the first n entries of es, in order. */
  function HelpRows(es: seq<Entry>, n: nat): seq<Event>
    requires n <= |es|
  {
    if n == 0 then [] else HelpRows(es, n - 1) + RowEvents(es[n - 1])
  }

  /** ushell_help: nothing for a null registry, else a bordered table. */
  function HelpOutput(registry: Option<seq<Entry>>): seq<Event>
  {
    match registry
    case None => []
    case Some(es) => [Text(Border()), CrLf] + HelpRows(es, |es|) + [Text(Border()), CrLf]
  }

  // ---------------------------------------------------------------- autocomplete

  /** beginning_matches: the name starts with the typed input. */
  predicate BeginningMatches(input: string, name: string) { input <= name }

  /** The non-null names among the first n entries of es that begin with input, in registry order. */
  function MatchingNames(input: string, es: seq<Entry>, n: nat): seq<string>
    requires n <= |es|
  {
    if n == 0 then []
    else
      var e := es[n - 1];
      MatchingNames(input, es, n - 1) +
      (if e.name.Some? && BeginningMatches(input, e.name.value) then [e.name.value] else [])
  }

  /** writeln of each name. */
  function Listing(names: seq<string>): seq<Event>
  {
    if names == [] then [] else Listing(names[..|names| - 1]) + [Text(names[|names| - 1]), CrLf]
  }

  lemma ListingSnoc(names: seq<string>, name: string)
    ensures Listing(names + [name]) == Listing(names) + [Text(name), CrLf]
  {
  }

  /** autocomplete: the matching names on fresh lines, then the prompt and the input redrawn. */
  function AutocompleteOutput(input: string, es: seq<Entry>): seq<Event>
  {
    var names := MatchingNames(input, es, |es|);
    if names == [] then [] else [CrLf] + Listing(names) + [Prompt, Text(input)]
  }

  // ---------------------------------------------------------------- the state machine

  /** clear_command_line: length 0 and a terminator at offset 0; the rest of the buffer stays. */
  function Cleared(s: State): State
    requires |s.line| == MAX_LENGTH
  {
    s.(length := 0, line := s.line[0 := '\0'])
  }

  /** A handler's own call of attach or release. */
  function ApplyEffect(s: State, eff: HandlerEffect): State
  {
    match eff
    case Returns => s
    case Attaches => s.(attached := true)
    case Releases => s.(attached := false, out := s.out + [Prompt])
  }

  /** command_line_evaluator. */
  function Evaluate(s: State, eff: HandlerEffect): State
    requires RegistryOk(s.registry) && EvaluationDefined(s.line, s.registry)
  {
    if s.line[0] == '\0' then s
    else
      var tokens := SplitUpTo(s.line, |s.line|);
      var argv := Argv(s.line);
      var cmd := CString(tokens, 0);
      var split := s.(line := tokens);
      if IsHelpAlias(cmd) then split.(out := s.out + HelpOutput(s.registry))
      else if cmd == "clear" then split.(out := s.out + [ClearScreen])
      else match Lookup(s.registry.value, cmd, 0)
        case Some(i) => ApplyEffect(split.(calls := s.calls + [Command(i, |argv|, argv, tokens)]), eff)
        case None => split.(out := s.out + [Error(NOT_RECOGNIZED)])
  }

  /** The input byte b has defined behaviour in state s. */
  predicate StepDefined(s: State, b: u8)
  {
    s.attached ||
    ((b == ENTER ==> EvaluationDefined(s.line, s.registry)) && (b == TAB ==> s.registry.Some?))
  }

  /**
   * ushell_input_char: one input byte. eff is what a handler called during this step does to
   * the capture state.
   */
  function Step(s: State, b: u8, eff: HandlerEffect): (r: State)
    requires Wf(s) && StepDefined(s, b)
    ensures Wf(r) && r.registry == s.registry
  {
    if s.attached then
      ApplyEffect(s.(calls := s.calls + [Keystroke(b)]), eff)
    else if b == BACKSPACE then
      if s.length > 0 then
        s.(length := s.length - 1, line := s.line[s.length - 1 := '\0'], out := s.out + [EraseChar])
      else s
    else if b == ENTER then
      var e := Evaluate(s.(out := s.out + [CrLf]), eff);
      var c := Cleared(e);
      c.(out := c.out + [Prompt])
    else if b == CTRL_C then
      var c := Cleared(s);
      c.(out := s.out + [Text("^C"), CrLf, Prompt])
    else if b == TAB then
      s.(out := s.out + AutocompleteOutput(CString(s.line, 0), s.registry.value))
    else if IsPrintable(b) then
      if s.length < MAX_LENGTH - 2 then
        s.(line := s.line[s.length := ToChar(b)][s.length + 1 := '\0'], length := s.length + 1,
           out := s.out + [Echo(ToChar(b))])
      else
        var c := Cleared(s);
        c.(out := s.out + [CrLf, Warning(TOO_LONG), Prompt])
    else s
  }

  /** Every byte of bs, fed in order, has defined behaviour. */
  predicate FeedDefined(s: State, bs: seq<u8>, effs: seq<HandlerEffect>)
    requires Wf(s) && |effs| == |bs|
    decreases |bs|
  {
    |bs| == 0 || (StepDefined(s, bs[0]) && FeedDefined(Step(s, bs[0], effs[0]), bs[1..], effs[1..]))
  }

  /** Feeding the bytes of bs one at a time; effs[k] is the handler effect during byte k. */
  function Feed(s: State, bs: seq<u8>, effs: seq<HandlerEffect>): (r: State)
    requires Wf(s) && |effs| == |bs| && FeedDefined(s, bs, effs)
    ensures Wf(r) && r.registry == s.registry
    decreases |bs|
  {
    if |bs| == 0 then s else Feed(Step(s, bs[0], effs[0]), bs[1..], effs[1..])
  }
}
