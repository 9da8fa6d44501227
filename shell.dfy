/**
 * The global state of ushell.c as one object: command_line, length, command_list and
 * current_input_handler. The terminal output and the calls made through function pointers
 * are recorded in two ghost logs. Each operation is proved to behave as its counterpart
 * in ShellSpec.
 */
module UShell {
  import opened Wrappers
  import opened Helper
  import opened ShellSpec

  class Shell {
    /** command_line[MAX_LENGTH] */
    var line: array<char>
    /** length of the current command line */
    var length: nat
    /** command_list; None is the null pointer */
    var registry: Option<seq<Entry>>
    /** current_input_handler != 0 */
    var attached: bool
    /** everything written to the terminal */
    ghost var out: seq<Event>
    /** every call made through a function pointer */
    ghost var calls: seq<Call>

    ghost function Snapshot(): State
      reads this, line
    {
      State(line[..], length, registry, attached, out, calls)
    }

    ghost predicate Valid()
      reads this, line
    {
      Wf(Snapshot())
    }

    /** The globals before ushell_init: a zero-filled buffer, no command list, no handler. */
    constructor ()
      ensures Valid() && fresh(line)
      ensures Snapshot() == State(seq(MAX_LENGTH, _ => '\0'), 0, None, false, [], [])
    {
      line := new char[MAX_LENGTH](_ => '\0');
      length, registry, attached := 0, None, false;
      out, calls := [], [];
    }

    /** clear_command_line */
    method ClearCommandLine()
      requires line.Length == MAX_LENGTH
      modifies this`length, line
      ensures Snapshot() == Cleared(old(Snapshot()))
    {
      length := 0;
      line[0] := '\0';
    }

    /** ushell_init: installs the command list and empties the line. */
    method Init(config: Option<seq<Entry>>)
      requires Valid() && RegistryOk(config)
      modifies this, line
      ensures Valid() && line == old(line)
      ensures Snapshot() == Cleared(old(Snapshot())).(registry := config)
    {
      registry := config;
      ClearCommandLine();
    }

    /** ushell_attach_input_handler */
    method AttachInputHandler()
      modifies this`attached
      ensures Snapshot() == old(Snapshot()).(attached := true)
    {
      attached := true;
    }

    /** ushell_release_input_handler: detaches and prints the prompt; the line is kept. */
    method ReleaseInputHandler()
      modifies this`attached, this`out
      ensures Snapshot() == old(Snapshot()).(attached := false, out := old(out) + [Prompt])
    {
      attached := false;
      out := out + [Prompt];
    }

    /** What the called handler does before it returns. */
    method RunHandlerEffect(eff: HandlerEffect)
      modifies this`attached, this`out
      ensures Snapshot() == ApplyEffect(old(Snapshot()), eff)
    {
      match eff
      case Returns =>
      case Attaches => AttachInputHandler();
      case Releases => ReleaseInputHandler();
    }

    /** ushell_help: the two borders around the rows of the command list. */
    method Help()
      modifies this`out
      ensures out == old(out) + HelpOutput(registry)
    {
      if registry.None? {
        return;
      }
      var border := [Text(Border()), CrLf];
      out := out + border;
      HelpTableRows(registry.value);
      out := out + border;
    }

    /** The loop of ushell_help over the command list: one row per entry with a name and a help text. */
    method HelpTableRows(es: seq<Entry>)
      modifies this`out
      ensures out == old(out) + HelpRows(es, |es|)
    {
      for i := 0 to |es|
        invariant out == old(out) + HelpRows(es, i)
      {
        var e := es[i];
        if e.name.Some? && e.help.Some? {
          out := out + RowEvents(e);
        }
      }
    }

    /** autocomplete: lists the names that begin with the line; never edits the line. */
    method Autocomplete()
      requires registry.Some?
      modifies this`out
      ensures out == old(out) + AutocompleteOutput(CString(line[..], 0), registry.value)
    {
      var input := CString(line[..], 0);
      var matches := ListMatches(input, registry.value);
      if matches {
        out := out + [Prompt, Text(input)];
      }
    }

    /**
     * The loop of autocomplete: a fresh line before the first match, then one line per
     * non-null name that begins with input.
     */
    method ListMatches(input: string, es: seq<Entry>) returns (matches: bool)
      modifies this`out
      ensures matches <==> MatchingNames(input, es, |es|) != []
      ensures out == old(out) + if matches then [CrLf] + Listing(MatchingNames(input, es, |es|)) else []
    {
      matches := false;
      for i := 0 to |es|
        invariant matches <==> MatchingNames(input, es, i) != []
        invariant out == old(out) + if matches then [CrLf] + Listing(MatchingNames(input, es, i)) else []
      {
        var e := es[i];
        ghost var names := MatchingNames(input, es, i);
        if e.name.Some? && BeginningMatches(input, e.name.value) {
          assert MatchingNames(input, es, i + 1) == names + [e.name.value];
          ListingSnoc(names, e.name.value);
          if !matches {
            out := out + [CrLf];
            matches := true;
          }
          out := out + [Text(e.name.value), CrLf];
        } else {
          assert MatchingNames(input, es, i + 1) == names;
        }
      }
    }

    /**
     * The splitting loop of command_line_evaluator: every ' ' and '=' at offsets 1..63 becomes
     * a terminator, and cv collects offset 0 and the offset after each of them. cv has
     * MAX_SUBSTRINGS slots and the loop does not check cc against it.
     */
    method Tokenise() returns (cc: nat, cv: array<nat>)
      requires line.Length == MAX_LENGTH && |Argv(line[..])| <= MAX_SUBSTRINGS
      modifies line
      ensures line[..] == SplitUpTo(old(line[..]), MAX_LENGTH)
      ensures fresh(cv) && cc <= cv.Length == MAX_SUBSTRINGS && cv[..cc] == Argv(old(line[..]))
    {
      ghost var before := line[..];
      cc := 1;
      cv := new nat[MAX_SUBSTRINGS];
      cv[0] := 0;
      for i := 1 to MAX_LENGTH
        invariant line[..] == SplitUpTo(before, i)
        invariant cc == 1 + |DelimiterStarts(before, 1, i)| <= MAX_SUBSTRINGS
        invariant cv[..cc] == [0] + DelimiterStarts(before, 1, i)
      {
        StartsGrow(before, i + 1);
        if line[i] == ' ' || line[i] == '=' {
          line[i] := '\0';
          cv[cc] := i + 1;
          cc := cc + 1;
        }
        assert line[..] == SplitUpTo(before, i + 1);
      }
    }

    /**
     * command_line_evaluator: an empty line does nothing; otherwise the line is split in place,
     * then help, clear or the first command whose name is token 0 runs.
     */
    method EvaluateLine(eff: HandlerEffect)
      requires line.Length == MAX_LENGTH && RegistryOk(registry) && EvaluationDefined(line[..], registry)
      modifies this, line
      ensures line == old(line) && length == old(length) && registry == old(registry)
      ensures Snapshot() == Evaluate(old(Snapshot()), eff)
    {
      if line[0] == '\0' {
        return;
      }
      var cc, cv := Tokenise();
      ghost var split := old(Snapshot()).(line := line[..]);
      assert Snapshot() == split;
      var cmd := CString(line[..], 0);
      if cmd == "?" || cmd == "h" || cmd == "help" {
        Help();
        return;
      }
      if cmd == "clear" {
        out := out + [ClearScreen];
        return;
      }
      var es := registry.value;
      for i := 0 to |es|
        invariant Snapshot() == split
        invariant ScanDefined(es, cmd, i)
        invariant Lookup(es, cmd, 0) == Lookup(es, cmd, i)
      {
        if es[i].name.value == cmd {
          calls := calls + [Command(i, cc, cv[..cc], line[..])];
          RunHandlerEffect(eff);
          return;
        }
      }
      out := out + [Error(NOT_RECOGNIZED)];
    }

    /** The delimiters before hi are at most those of the whole line. */
    static lemma StartsGrow(line: seq<char>, hi: nat)
      requires hi <= |line| == MAX_LENGTH
      ensures |DelimiterStarts(line, 1, hi)| <= |DelimiterStarts(line, 1, |line|)|
      decreases |line| - hi
    {
      if hi < |line| {
        StartsGrow(line, hi + 1);
      }
    }

    /** ushell_input_char */
    method InputChar(b: u8, eff: HandlerEffect)
      requires Valid() && StepDefined(Snapshot(), b)
      modifies this, line
      ensures Valid() && line == old(line)
      ensures Snapshot() == Step(old(Snapshot()), b, eff)
    {
      if attached {
        calls := calls + [Keystroke(b)];
        RunHandlerEffect(eff);
        return;
      }
      if b == BACKSPACE {
        if length > 0 {
          EraseLast();
        }
      } else if b == ENTER {
        out := out + [CrLf];
        EvaluateLine(eff);
        ClearCommandLine();
        out := out + [Prompt];
      } else if b == CTRL_C {
        out := out + [Text("^C"), CrLf];
        ClearCommandLine();
        out := out + [Prompt];
      } else if b == TAB {
        Autocomplete();
      } else if IsPrintable(b) {
        if length < MAX_LENGTH - 2 {
          Append(ToChar(b));
        } else {
          out := out + [CrLf, Warning(TOO_LONG)];
          ClearCommandLine();
          out := out + [Prompt];
        }
      }
    }

    /** The backspace branch of ushell_input_char on a non-empty line. */
    method EraseLast()
      requires Valid() && length > 0
      modifies this`length, this`out, line
      ensures Valid()
      ensures Snapshot() == old(Snapshot()).(length := old(length) - 1,
        line := old(line[..])[old(length) - 1 := '\0'], out := old(out) + [EraseChar])
    {
      length := length - 1;
      line[length] := '\0';
      out := out + [EraseChar];
    }

    /** The printable branch of ushell_input_char when the character fits. */
    method Append(c: char)
      requires Valid() && length < MAX_LENGTH - 2 && ' ' <= c <= '~'
      modifies this`length, this`out, line
      ensures Valid()
      ensures Snapshot() == old(Snapshot()).(length := old(length) + 1,
        line := old(line[..])[old(length) := c][old(length) + 1 := '\0'], out := old(out) + [Echo(c)])
    {
      line[length] := c;
      length := length + 1;
      line[length] := '\0';
      out := out + [Echo(c)];
    }

    /**
     * ushell_input_string: feeds the bytes before the terminator. The index is a uint8_t, so
     * the string must be shorter than 256 bytes or the index wraps back to 0.
     */
    method InputString(s: seq<u8>, effs: seq<HandlerEffect>)
      requires Valid() && |effs| == |s| && |s| < 0x100
      requires forall k :: 0 <= k < |s| ==> s[k] != 0
      requires FeedDefined(Snapshot(), s, effs)
      modifies this, line
      ensures Valid() && line == old(line)
      ensures Snapshot() == Feed(old(Snapshot()), s, effs)
    {
      var i: u8 := 0;
      while i as int < |s|
        invariant i as int <= |s|
        invariant Valid() && line == old(line)
        invariant FeedDefined(Snapshot(), s[i..], effs[i..])
        invariant Feed(old(Snapshot()), s, effs) == Feed(Snapshot(), s[i..], effs[i..])
        decreases |s| - i as int
      {
        assert s[i..][1..] == s[i + 1..] && effs[i..][1..] == effs[i + 1..];
        InputChar(s[i], effs[i]);
        i := i + 1;
      }
    }
  }
}
