/** What the shell of ushell.c guarantees, proved about the functions of ShellSpec. */
module ShellProperties {
  import opened Wrappers
  import opened Helper
  import Keys
  import opened ShellSpec

  /** A handler effect for every byte when no handler changes the capture state. */
  function Returning(n: nat): (r: seq<HandlerEffect>)
    ensures |r| == n && forall k :: 0 <= k < n ==> r[k] == Returns
  {
    seq(n, _ => Returns)
  }

  function Chars(bs: seq<u8>): (r: string)
    ensures |r| == |bs|
  {
    seq(|bs|, k requires 0 <= k < |bs| => ToChar(bs[k]))
  }

  function Echoes(bs: seq<u8>): (r: seq<Event>)
    ensures |r| == |bs|
  {
    seq(|bs|, k requires 0 <= k < |bs| => Echo(ToChar(bs[k])))
  }

  function Keystrokes(bs: seq<u8>): (r: seq<Call>)
    ensures |r| == |bs|
  {
    seq(|bs|, k requires 0 <= k < |bs| => Keystroke(bs[k]))
  }

  predicate AllPrintable(bs: seq<u8>)
  {
    forall k :: 0 <= k < |bs| ==> IsPrintable(bs[k])
  }

  /** The characters typed so far: command_line up to length. */
  function Typed(s: State): string
    requires Wf(s)
  {
    s.line[..s.length]
  }

  // ---------------------------------------------------------------- feeding bytes

  /** Feeding a + b is feeding a, then b. */
  lemma {:induction false} FeedConcat(s: State, a: seq<u8>, ea: seq<HandlerEffect>, b: seq<u8>, eb: seq<HandlerEffect>)
    requires Wf(s) && |ea| == |a| && |eb| == |b| && FeedDefined(s, a, ea)
    requires FeedDefined(Feed(s, a, ea), b, eb)
    ensures FeedDefined(s, a + b, ea + eb)
    ensures Feed(s, a + b, ea + eb) == Feed(Feed(s, a, ea), b, eb)
    decreases |a|
  {
    if |a| > 0 {
      var next := Step(s, a[0], ea[0]);
      FeedConcat(next, a[1..], ea[1..], b, eb);
      ConsTail(a, b);
      ConsTail(ea, eb);
    } else {
      assert a + b == b && ea + eb == eb;
    }
  }

  lemma ConsTail<T>(a: seq<T>, b: seq<T>)
    requires |a| > 0
    ensures (a + b)[0] == a[0] && (a + b)[1..] == a[1..] + b
  {
  }

  /** A printable byte that fits is appended and echoed; the terminator moves one place right. */
  lemma TypeOne(s: State, b: u8, eff: HandlerEffect)
    requires Wf(s) && !s.attached && s.length < MAX_LENGTH - 2 && IsPrintable(b)
    ensures var r := Step(s, b, eff);
      r.length == s.length + 1 && Typed(r) == Typed(s) + [ToChar(b)] &&
      r.line[r.length + 1..] == s.line[r.length + 1..] &&
      !r.attached && r.calls == s.calls && r.out == s.out + [Echo(ToChar(b))]
  {
  }

  /**
   * Typing printable characters that fit appends them to the line, echoes each one, and
   * touches nothing past the new terminator.
   */
  lemma {:induction false} TypingAppends(s: State, bs: seq<u8>)
    requires Wf(s) && !s.attached && s.length + |bs| <= MAX_LENGTH - 2 && AllPrintable(bs)
    ensures FeedDefined(s, bs, Returning(|bs|))
    ensures var r := Feed(s, bs, Returning(|bs|));
      r.length == s.length + |bs| && Typed(r) == Typed(s) + Chars(bs) &&
      r.line[r.length + 1..] == s.line[r.length + 1..] &&
      !r.attached && r.calls == s.calls && r.out == s.out + Echoes(bs)
    decreases |bs|
  {
    if |bs| > 0 {
      var effs := Returning(|bs|);
      var s1 := Step(s, bs[0], effs[0]);
      TypeOne(s, bs[0], effs[0]);
      assert effs[1..] == Returning(|bs| - 1);
      assert AllPrintable(bs[1..]) by {
        forall k | 0 <= k < |bs| - 1 ensures IsPrintable(bs[1..][k]) {
          assert bs[1..][k] == bs[k + 1];
        }
      }
      TypingAppends(s1, bs[1..]);
      CharsCons(bs);
      var r := Feed(s1, bs[1..], effs[1..]);
      assert Feed(s, bs, effs) == r;
      assert r.line[r.length + 1..] == s1.line[r.length + 1..];
    }
  }

  lemma CharsCons(bs: seq<u8>)
    requires |bs| > 0
    ensures Chars(bs) == [ToChar(bs[0])] + Chars(bs[1..])
    ensures Echoes(bs) == [Echo(ToChar(bs[0]))] + Echoes(bs[1..])
  {
  }

  /** BACKSPACE drops the last typed character and erases it on the terminal. */
  lemma BackspaceDropsLast(s: State, eff: HandlerEffect)
    requires Wf(s) && !s.attached && s.length > 0
    ensures var r := Step(s, BACKSPACE, eff);
      r.length == s.length - 1 && Typed(r) == Typed(s)[..s.length - 1] &&
      r.out == s.out + [EraseChar] && r.calls == s.calls
  {
  }

  /**
   * From an empty line, typing s leaves exactly s on the line; one more BACKSPACE leaves s
   * without its last character.
   */
  lemma TypeThenBackspace(s: State, bs: seq<u8>)
    requires Wf(s) && !s.attached && s.length == 0 && 0 < |bs| <= MAX_LENGTH - 2 && AllPrintable(bs)
    ensures FeedDefined(s, bs, Returning(|bs|))
    ensures Typed(Feed(s, bs, Returning(|bs|))) == Chars(bs)
    ensures FeedDefined(s, bs + [BACKSPACE], Returning(|bs| + 1))
    ensures Typed(Feed(s, bs + [BACKSPACE], Returning(|bs| + 1))) == Chars(bs[..|bs| - 1])
  {
    TypingAppends(s, bs);
    var t := Feed(s, bs, Returning(|bs|));
    BackspaceDropsLast(t, Returns);
    assert Feed(Step(t, BACKSPACE, Returns), [], []) == Step(t, BACKSPACE, Returns);
    assert FeedDefined(t, [BACKSPACE], [Returns]);
    assert Returning(|bs|) + [Returns] == Returning(|bs| + 1);
    FeedConcat(s, bs, Returning(|bs|), [BACKSPACE], [Returns]);
    assert Chars(bs)[..|bs| - 1] == Chars(bs[..|bs| - 1]);
  }

  /** BACKSPACE on an empty line changes nothing. */
  lemma BackspaceOnEmptyLine(s: State, eff: HandlerEffect)
    requires Wf(s) && !s.attached && s.length == 0
    ensures Step(s, BACKSPACE, eff) == s
  {
  }

  /** A non-printable byte other than the four keys the shell knows changes nothing. */
  lemma OtherControlBytesIgnored(s: State, b: u8, eff: HandlerEffect)
    requires Wf(s) && !s.attached && !IsPrintable(b)
    requires b != BACKSPACE && b != ENTER && b != CTRL_C && b != TAB
    ensures Step(s, b, eff) == s
  {
  }

  /**
   * KEY_ENTER of the non-EMBEDDED build is a line feed, which ushell.c does not treat as
   * ENTER: such a terminal can type a line but never submit it.
   */
  lemma HostedEnterKeyIgnored(s: State, eff: HandlerEffect)
    requires Wf(s) && !s.attached
    ensures Keys.KEY_ENTER as int != ENTER as int
    ensures Step(s, Keys.KEY_ENTER as int as u8, eff) == s
  {
  }

  // ---------------------------------------------------------------- clearing

  /**
   * A printable byte on a full line writes nothing but the terminator at offset 0: one
   * warning, an empty line and a fresh prompt.
   */
  lemma FullLineAborts(s: State, b: u8, eff: HandlerEffect)
    requires Wf(s) && !s.attached && s.length == MAX_LENGTH - 2 && IsPrintable(b)
    ensures var r := Step(s, b, eff);
      r.length == 0 && r.line == s.line[0 := '\0'] &&
      r.out == s.out + [CrLf, Warning(TOO_LONG), Prompt] && r.calls == s.calls
  {
  }

  /** Ctrl-C always empties the line and redraws the prompt. */
  lemma CancelClears(s: State, eff: HandlerEffect)
    requires Wf(s) && !s.attached
    ensures var r := Step(s, CTRL_C, eff);
      r.length == 0 && r.line == s.line[0 := '\0'] &&
      r.out == s.out + [Text("^C"), CrLf, Prompt] && r.calls == s.calls
  {
  }

  /**
   * ENTER always ends with an empty line and the prompt, even when the command it ran has
   * attached an input handler.
   */
  lemma EnterClears(s: State, eff: HandlerEffect)
    requires Wf(s) && !s.attached && StepDefined(s, ENTER)
    ensures var r := Step(s, ENTER, eff);
      r.length == 0 && r.line[0] == '\0' && |r.out| >= 2 && r.out[|r.out| - 1] == Prompt &&
      r.out[..|s.out| + 1] == s.out + [CrLf]
  {
  }

  // ---------------------------------------------------------------- capture

  /**
   * While a handler is attached, every byte goes to it unchanged, in order, and the line,
   * its length and the terminal output stay as they were.
   */
  lemma {:induction false} CapturedBytesForwarded(s: State, bs: seq<u8>)
    requires Wf(s) && s.attached
    ensures FeedDefined(s, bs, Returning(|bs|))
    ensures var r := Feed(s, bs, Returning(|bs|));
      r.line == s.line && r.length == s.length && r.out == s.out && r.attached &&
      r.calls == s.calls + Keystrokes(bs)
    decreases |bs|
  {
    if |bs| > 0 {
      assert Returning(|bs|)[1..] == Returning(|bs| - 1);
      CapturedBytesForwarded(Step(s, bs[0], Returns), bs[1..]);
      assert Keystrokes(bs) == [Keystroke(bs[0])] + Keystrokes(bs[1..]);
    }
  }

  /** Releasing from inside the handler prints the prompt and keeps the line as it was. */
  lemma ReleaseKeepsLine(s: State, b: u8)
    requires Wf(s) && s.attached
    ensures var r := Step(s, b, Releases);
      !r.attached && r.line == s.line && r.length == s.length &&
      r.out == s.out + [Prompt] && r.calls == s.calls + [Keystroke(b)]
  {
  }

  // ---------------------------------------------------------------- tokeniser

  function DelimiterSet(line: seq<char>, lo: nat, hi: nat): set<nat>
    requires hi <= |line|
  {
    set k: nat | lo <= k < hi && IsDelimiter(line[k])
  }

  /** The offsets collected for [lo, hi) are exactly one past each delimiter there. */
  lemma {:induction false} DelimiterStartsExact(line: seq<char>, lo: nat, hi: nat)
    requires hi <= |line|
    ensures forall k :: lo <= k < hi ==> (IsDelimiter(line[k]) <==> k + 1 in DelimiterStarts(line, lo, hi))
    ensures forall j :: 0 <= j < |DelimiterStarts(line, lo, hi)| ==>
      lo < DelimiterStarts(line, lo, hi)[j] <= hi && IsDelimiter(line[DelimiterStarts(line, lo, hi)[j] - 1])
    decreases hi
  {
    if hi > lo {
      DelimiterStartsExact(line, lo, hi - 1);
    }
  }

  /** ... in increasing order. */
  lemma {:induction false} DelimiterStartsIncrease(line: seq<char>, lo: nat, hi: nat)
    requires hi <= |line|
    ensures forall j :: 0 <= j < |DelimiterStarts(line, lo, hi)| ==> DelimiterStarts(line, lo, hi)[j] <= hi
    ensures forall i, j :: 0 <= i < j < |DelimiterStarts(line, lo, hi)| ==>
      DelimiterStarts(line, lo, hi)[i] < DelimiterStarts(line, lo, hi)[j]
    decreases hi
  {
    if hi > lo {
      DelimiterStartsIncrease(line, lo, hi - 1);
    }
  }

  /** ... one offset per delimiter. */
  lemma {:induction false} DelimiterStartsCount(line: seq<char>, lo: nat, hi: nat)
    requires hi <= |line|
    ensures |DelimiterStarts(line, lo, hi)| == |DelimiterSet(line, lo, hi)|
    decreases hi
  {
    if hi > lo {
      DelimiterStartsCount(line, lo, hi - 1);
      var smaller := DelimiterSet(line, lo, hi - 1);
      if IsDelimiter(line[hi - 1]) {
        assert DelimiterSet(line, lo, hi) == smaller + {hi - 1};
      } else {
        assert DelimiterSet(line, lo, hi) == smaller;
      }
    } else {
      assert DelimiterSet(line, lo, hi) == {};
    }
  }

  /**
   * The tokeniser: cv[0] is offset 0 (a delimiter at offset 0 is not split); every ' ' or '='
   * at offsets 1..63, typed or left over in the buffer, becomes a terminator and starts a
   * token at the next offset; nothing else changes; cc is one more than the number of them.
   */
  lemma TokeniserSplitsEveryDelimiter(line: seq<char>)
    requires |line| == MAX_LENGTH
    ensures var argv, split := Argv(line), SplitUpTo(line, |line|);
      argv[0] == 0 && split[0] == line[0] &&
      (forall k :: 1 <= k < |line| ==> (IsDelimiter(line[k]) <==> k + 1 in argv)) &&
      (forall k :: 1 <= k < |line| ==> split[k] == if IsDelimiter(line[k]) then '\0' else line[k]) &&
      (forall i, j :: 0 <= i < j < |argv| ==> argv[i] < argv[j]) &&
      |argv| == 1 + |DelimiterSet(line, 1, |line|)|
  {
    DelimiterStartsExact(line, 1, |line|);
    DelimiterStartsIncrease(line, 1, |line|);
    DelimiterStartsCount(line, 1, |line|);
  }

  /** A buffer holding "set x=5" and no delimiter after it splits into "set", "x" and "5". */
  lemma SetExampleSplit(line: seq<char>)
    requires |line| == MAX_LENGTH && line[..8] == "set x=5\0"
    requires forall k :: 7 < k < MAX_LENGTH ==> !IsDelimiter(line[k])
    ensures var split := SplitUpTo(line, MAX_LENGTH);
      Argv(line) == [0, 4, 6] &&
      CString(split, 0) == "set" && CString(split, 4) == "x" && CString(split, 6) == "5"
  {
    SetExampleArgv(line);
    SetExampleStrings(line);
  }

  lemma SetExampleArgv(line: seq<char>)
    requires |line| == MAX_LENGTH && line[..8] == "set x=5\0"
    requires forall k :: 7 < k < MAX_LENGTH ==> !IsDelimiter(line[k])
    ensures Argv(line) == [0, 4, 6]
  {
    var d := DelimiterStarts(line, 1, MAX_LENGTH);
    DelimiterStartsExact(line, 1, MAX_LENGTH);
    DelimiterStartsIncrease(line, 1, MAX_LENGTH);
    DelimiterStartsCount(line, 1, MAX_LENGTH);
    assert forall k :: 0 <= k < 8 ==> line[k] == line[..8][k];
    assert DelimiterSet(line, 1, MAX_LENGTH) == {3, 5};
    assert |d| == 2 && 4 in d && 6 in d;
  }

  lemma SetExampleStrings(line: seq<char>)
    requires |line| == MAX_LENGTH && line[..8] == "set x=5\0"
    ensures var split := SplitUpTo(line, MAX_LENGTH);
      CString(split, 0) == "set" && CString(split, 4) == "x" && CString(split, 6) == "5"
  {
    assert forall k :: 0 <= k < 8 ==> line[k] == line[..8][k];
    var split := SplitUpTo(line, MAX_LENGTH);
    assert split[3] == '\0' && split[5] == '\0' && split[7] == '\0';
    CStringOfLine(split, 0, 3);
    CStringOfLine(split, 4, 5);
    CStringOfLine(split, 6, 7);
  }

  /** Round trip of the example "set x=5": typed on an empty line, it gives three tokens. */
  lemma SetExampleTokens(s: State)
    requires Wf(s) && !s.attached && s.length == 0
    requires forall k :: 7 < k < MAX_LENGTH ==> !IsDelimiter(s.line[k])
    ensures var bs: seq<u8> := [0x73, 0x65, 0x74, 0x20, 0x78, 0x3D, 0x35];
      FeedDefined(s, bs, Returning(7)) &&
      var r := Feed(s, bs, Returning(7));
      var split := SplitUpTo(r.line, MAX_LENGTH);
      Typed(r) == "set x=5" && Argv(r.line) == [0, 4, 6] &&
      CString(split, 0) == "set" && CString(split, 4) == "x" && CString(split, 6) == "5"
  {
    var bs: seq<u8> := [0x73, 0x65, 0x74, 0x20, 0x78, 0x3D, 0x35];
    TypedAt(s, bs);
    TypingAppends(s, bs);
    var r := Feed(s, bs, Returning(7));
    SetExampleText(r.line, bs);
    assert r.line[..8] == r.line[..7] + [r.line[7]];
    forall k | 7 < k < MAX_LENGTH ensures !IsDelimiter(r.line[k]) {
      assert r.line[k] == r.line[8..][k - 8] == s.line[k];
    }
    SetExampleSplit(r.line);
  }

  /** The bytes of "set x=5" spell it. */
  lemma SetExampleText(line: seq<char>, bs: seq<u8>)
    requires bs == [0x73, 0x65, 0x74, 0x20, 0x78, 0x3D, 0x35]
    requires |line| == MAX_LENGTH && forall k :: 0 <= k < |bs| ==> line[k] == ToChar(bs[k])
    ensures line[..7] == "set x=5"
  {
  }

  // ---------------------------------------------------------------- resolution

  /** The command an evaluation resolves: token 0 of the split line. */
  function Token0(line: seq<char>): string
    requires |line| == MAX_LENGTH
  {
    CString(SplitUpTo(line, |line|), 0)
  }

  /** An empty line is a no-op for the evaluator. */
  lemma EmptyLineDoesNothing(s: State, eff: HandlerEffect)
    requires RegistryOk(s.registry) && |s.line| == MAX_LENGTH && s.line[0] == '\0'
    ensures EvaluationDefined(s.line, s.registry) && Evaluate(s, eff) == s
  {
  }

  /** "?", "h" and "help" print the help table and call nothing, whatever the registry holds. */
  lemma HelpAliasesSkipLookup(s: State, eff: HandlerEffect)
    requires RegistryOk(s.registry) && EvaluationDefined(s.line, s.registry) && s.line[0] != '\0'
    requires IsHelpAlias(Token0(s.line))
    ensures var r := Evaluate(s, eff);
      r.out == s.out + HelpOutput(s.registry) && r.calls == s.calls && r.attached == s.attached
  {
  }

  /** "clear" clears the screen and calls nothing. */
  lemma ClearBuiltin(s: State, eff: HandlerEffect)
    requires RegistryOk(s.registry) && EvaluationDefined(s.line, s.registry) && s.line[0] != '\0'
    requires Token0(s.line) == "clear"
    ensures var r := Evaluate(s, eff);
      r.out == s.out + [ClearScreen] && r.calls == s.calls && r.attached == s.attached
  {
  }

  /** Otherwise the first entry named like token 0 is called exactly once with (cc, cv). */
  lemma FirstMatchInvokedOnce(s: State, eff: HandlerEffect, i: nat)
    requires RegistryOk(s.registry) && EvaluationDefined(s.line, s.registry) && s.line[0] != '\0'
    requires !IsHelpAlias(Token0(s.line)) && Token0(s.line) != "clear" && s.registry.Some?
    requires i < |s.registry.value| && s.registry.value[i].name == Some(Token0(s.line))
    requires forall j :: 0 <= j < i ==> s.registry.value[j].name != Some(Token0(s.line))
    ensures var r := Evaluate(s, eff);
      r.calls == s.calls + [Command(i, |Argv(s.line)|, Argv(s.line), SplitUpTo(s.line, MAX_LENGTH))] &&
      r.out == ApplyEffect(s, eff).out
  {
  }

  /** A command no entry names produces exactly one error and calls nothing. */
  lemma UnknownCommandReported(s: State, eff: HandlerEffect)
    requires RegistryOk(s.registry) && EvaluationDefined(s.line, s.registry) && s.line[0] != '\0'
    requires !IsHelpAlias(Token0(s.line)) && Token0(s.line) != "clear" && s.registry.Some?
    requires forall j :: 0 <= j < |s.registry.value| ==> s.registry.value[j].name != Some(Token0(s.line))
    ensures var r := Evaluate(s, eff);
      r.out == s.out + [Error(NOT_RECOGNIZED)] && r.calls == s.calls && r.attached == s.attached
  {
  }

  // ---------------------------------------------------------------- autocomplete

  /** The names autocomplete lists are exactly the non-null names that begin with the input. */
  lemma {:induction false} MatchingNamesExact(input: string, es: seq<Entry>, n: nat)
    requires n <= |es|
    ensures forall name :: name in MatchingNames(input, es, n) <==>
      exists j :: 0 <= j < n && es[j].name == Some(name) && BeginningMatches(input, name)
  {
    if n > 0 {
      MatchingNamesExact(input, es, n - 1);
    }
  }

  /** The C string of the command line is what has been typed. */
  lemma CStringOfLine(line: seq<char>, i: nat, length: nat)
    requires i <= length < |line| && line[length] == '\0'
    requires forall k :: i <= k < length ==> line[k] != '\0'
    ensures CString(line, i) == line[i..length]
  {
  }

  /** Tab never edits the line; it writes nothing exactly when no name begins with the line. */
  lemma TabKeepsLine(s: State, eff: HandlerEffect)
    requires Wf(s) && !s.attached && s.registry.Some?
    ensures var r := Step(s, TAB, eff);
      r.line == s.line && r.length == s.length && r.calls == s.calls &&
      (r.out == s.out <==>
        forall j :: 0 <= j < |s.registry.value| && s.registry.value[j].name.Some? ==>
          !BeginningMatches(Typed(s), s.registry.value[j].name.value))
  {
    var es := s.registry.value;
    CStringOfLine(s.line, 0, s.length);
    MatchingNamesExact(Typed(s), es, |es|);
    var names := MatchingNames(Typed(s), es, |es|);
    if names != [] {
      assert names[0] in names;
    }
  }

  // ---------------------------------------------------------------- help table

  /** A row is as wide as the borders when the name fits 19 characters and the help 44. */
  lemma RowWidth(name: string, help: string)
    requires |name| <= NAME_COLUMN - 1 && |help| <= HELP_COLUMN - 1
    ensures |Row(name, help)| == |Border()| == 68
  {
  }

  /**
   * The table has one row for each entry whose name and help are both non-null and no other
   * row.
   */
  lemma {:induction false} HelpRowsExact(es: seq<Entry>, n: nat)
    requires n <= |es|
    ensures forall t :: Text(t) in HelpRows(es, n) <==>
      exists j :: 0 <= j < n && es[j].name.Some? && es[j].help.Some? && t == Row(es[j].name.value, es[j].help.value)
  {
    if n > 0 {
      HelpRowsExact(es, n - 1);
    }
  }

  /** With every listed name within 19 characters and every help within 44, the table is aligned. */
  lemma {:induction false} HelpTableAligned(es: seq<Entry>, n: nat)
    requires n <= |es|
    requires forall j :: 0 <= j < n && es[j].name.Some? && es[j].help.Some? ==>
      |es[j].name.value| < NAME_COLUMN && |es[j].help.value| < HELP_COLUMN
    ensures forall k :: 0 <= k < |HelpRows(es, n)| && HelpRows(es, n)[k].Text? ==> |HelpRows(es, n)[k].s| == |Border()| == 68
  {
    if n > 0 {
      HelpTableAligned(es, n - 1);
      var e := es[n - 1];
      if e.name.Some? && e.help.Some? {
        RowWidth(e.name.value, e.help.value);
      }
    }
  }

  /** With a null command list ushell_help prints nothing. */
  lemma NullRegistryHelpSilent()
    ensures HelpOutput(None) == []
  {
  }

  // ---------------------------------------------------------------- defects kept as written

  /** Typing onto an empty line puts byte k at offset k. */
  lemma TypedAt(s: State, bs: seq<u8>)
    requires Wf(s) && !s.attached && s.length == 0 && |bs| <= MAX_LENGTH - 2 && AllPrintable(bs)
    ensures FeedDefined(s, bs, Returning(|bs|))
    ensures var r := Feed(s, bs, Returning(|bs|));
      !r.attached && r.length == |bs| && forall k :: 0 <= k < |bs| ==> r.line[k] == ToChar(bs[k])
  {
    TypingAppends(s, bs);
    var r := Feed(s, bs, Returning(|bs|));
    forall k | 0 <= k < |bs| ensures r.line[k] == ToChar(bs[k]) {
      assert Typed(r)[k] == r.line[k];
    }
  }

  /**
   * The tokeniser scans offsets 1 to 63, past the terminator. Type "ab c", cancel with Ctrl-C and
   * type "x": the line shows "x", yet the ' ' left at offset 2 starts a second token at 3.
   */
  lemma StaleDelimiterAfterCancel(s: State)
    requires Wf(s) && !s.attached && s.length == 0
    ensures FeedDefined(s, [0x61, 0x62, 0x20, 0x63], Returning(4))
    ensures var typed := Feed(s, [0x61, 0x62, 0x20, 0x63], Returning(4));
      var r := Step(Step(typed, CTRL_C, Returns), 0x78, Returns);
      Typed(r) == "x" && 3 in Argv(r.line) && |Argv(r.line)| >= 2
  {
    var bs: seq<u8> := [0x61, 0x62, 0x20, 0x63];
    TypedAt(s, bs);
    var typed := Feed(s, bs, Returning(4));
    assert typed.line[2] == ToChar(bs[2]);
    CancelThenType(typed);
  }

  /** Ctrl-C, then 'x': the line shows "x", and whatever stood at offset 2 is still there. */
  lemma CancelThenType(t: State)
    requires Wf(t) && !t.attached && t.line[2] == ' '
    ensures var r := Step(Step(t, CTRL_C, Returns), 0x78, Returns);
      Typed(r) == "x" && 3 in Argv(r.line) && |Argv(r.line)| >= 2
  {
    var cancelled := Step(t, CTRL_C, Returns);
    assert cancelled.line[2] == ' ' && cancelled.length == 0;
    var r := Step(cancelled, 0x78, Returns);
    assert r.line[2] == ' ' && r.length == 1 && r.line[0] == 'x';
    assert Typed(r) == [r.line[0]];
    DelimiterStartsExact(r.line, 1, MAX_LENGTH);
  }

  lemma SubsetCardinality(a: set<nat>, b: set<nat>)
    requires a <= b
    ensures |a| <= |b|
  {
    assert b == a + (b - a);
  }

  /**
   * cc is never checked against MAX_SUBSTRINGS: the 13 typed characters "a b c d e f g" give
   * seven tokens, so the evaluator would write cv[6], past the end of cv. Such an ENTER has
   * no defined behaviour.
   */
  lemma SevenTokensOverflowArgv(s: State)
    requires Wf(s) && !s.attached && s.length == 0
    ensures var bs: seq<u8> := [0x61, 0x20, 0x62, 0x20, 0x63, 0x20, 0x64, 0x20, 0x65, 0x20, 0x66, 0x20, 0x67];
      FeedDefined(s, bs, Returning(13)) &&
      var r := Feed(s, bs, Returning(13));
      Typed(r) == "a b c d e f g" && |Argv(r.line)| > MAX_SUBSTRINGS && !StepDefined(r, ENTER)
  {
    var bs: seq<u8> := [0x61, 0x20, 0x62, 0x20, 0x63, 0x20, 0x64, 0x20, 0x65, 0x20, 0x66, 0x20, 0x67];
    TypedAt(s, bs);
    var line := Feed(s, bs, Returning(13)).line;
    SevenTokensText(line, bs);
    SevenTokensLine(line);
  }

  /** The bytes of "a b c d e f g" spell it. */
  lemma SevenTokensText(line: seq<char>, bs: seq<u8>)
    requires bs == [0x61, 0x20, 0x62, 0x20, 0x63, 0x20, 0x64, 0x20, 0x65, 0x20, 0x66, 0x20, 0x67]
    requires |line| == MAX_LENGTH && forall k :: 0 <= k < |bs| ==> line[k] == ToChar(bs[k])
    ensures line[..13] == "a b c d e f g"
  {
  }

  /** A buffer starting with the seven words "a b c d e f g" holds seven tokens. */
  lemma SevenTokensLine(line: seq<char>)
    requires |line| == MAX_LENGTH && line[..13] == "a b c d e f g"
    ensures |Argv(line)| > MAX_SUBSTRINGS
  {
    var odd: set<nat> := {1, 3, 5, 7, 9, 11};
    var delims := DelimiterSet(line, 1, MAX_LENGTH);
    assert odd <= delims by {
      forall k | k in odd ensures k in delims {
        assert line[k] == line[..13][k] == ' ';
      }
    }
    SubsetCardinality(odd, delims);
    DelimiterStartsCount(line, 1, MAX_LENGTH);
  }

  /**
   * The registry pointer is not checked before the lookup: with no command list, any command
   * other than the built-ins has no defined behaviour; so has TAB.
   */
  lemma NullRegistryLookupUndefined(s: State)
    requires Wf(s) && !s.attached && s.registry.None? && s.line[0] != '\0'
    requires |Argv(s.line)| <= MAX_SUBSTRINGS
    ensures !StepDefined(s, TAB)
    ensures StepDefined(s, ENTER) <==> IsHelpAlias(Token0(s.line)) || Token0(s.line) == "clear"
  {
  }

  /**
   * A null name that the scan reaches before any entry named cmd makes the scan undefined:
   * strcmp is called on it.
   */
  lemma {:induction false} NullAheadUndefined(es: seq<Entry>, cmd: string, i: nat, j: nat)
    requires i <= j < |es| && es[j].name.None?
    requires forall k :: i <= k < j ==> es[k].name != Some(cmd)
    ensures !ScanDefined(es, cmd, i)
    decreases j - i
  {
    if i < j {
      NullAheadUndefined(es, cmd, i + 1, j);
    }
  }

  /**
   * The first entry named cmd, reached without passing a null name, is called through its
   * function pointer; when that pointer is null the scan is undefined.
   */
  lemma {:induction false} NullHandlerUndefined(es: seq<Entry>, cmd: string, i: nat, j: nat)
    requires i <= j < |es| && es[j].name == Some(cmd) && !es[j].handler
    requires forall k :: i <= k < j ==> es[k].name != Some(cmd)
    ensures !ScanDefined(es, cmd, i)
    decreases j - i
  {
    if i < j {
      NullHandlerUndefined(es, cmd, i + 1, j);
    }
  }

  /**
   * The lookup compares token 0 with every name it passes, null or not: a null name at any
   * index before the first entry named token 0 leaves ENTER without defined behaviour,
   * although help and autocomplete skip null names.
   */
  lemma NullNameBeforeMatchUndefined(s: State, j: nat)
    requires Wf(s) && !s.attached && s.line[0] != '\0' && |Argv(s.line)| <= MAX_SUBSTRINGS
    requires !IsHelpAlias(Token0(s.line)) && Token0(s.line) != "clear"
    requires s.registry.Some? && j < |s.registry.value| && s.registry.value[j].name.None?
    requires forall k :: 0 <= k < j ==> s.registry.value[k].name != Some(Token0(s.line))
    ensures !StepDefined(s, ENTER)
  {
    NullAheadUndefined(s.registry.value, Token0(s.line), 0, j);
  }

  /** The evaluator calls the matching entry's function pointer without checking it for null. */
  lemma NullHandlerMatchUndefined(s: State, j: nat)
    requires Wf(s) && !s.attached && s.line[0] != '\0' && |Argv(s.line)| <= MAX_SUBSTRINGS
    requires !IsHelpAlias(Token0(s.line)) && Token0(s.line) != "clear"
    requires s.registry.Some? && j < |s.registry.value|
    requires s.registry.value[j].name == Some(Token0(s.line)) && !s.registry.value[j].handler
    requires forall k :: 0 <= k < j ==> s.registry.value[k].name != Some(Token0(s.line))
    ensures !StepDefined(s, ENTER)
  {
    NullHandlerUndefined(s.registry.value, Token0(s.line), 0, j);
  }

  /** The uint8_t index of ushell_input_string after one increment: 255 wraps to 0. */
  function NextIndex(i: u8): (r: u8)
    ensures r as int == (i as int + 1) % 0x100
  {
    if i == 0xFF then 0 else i + 1
  }

  /** The value of that index after n increments from 0. */
  function IndexAfter(n: nat): u8
  {
    if n == 0 then 0 else NextIndex(IndexAfter(n - 1))
  }

  lemma {:induction false} IndexAfterWraps(n: nat)
    ensures IndexAfter(n) as int == n % 0x100
  {
    if n > 0 {
      IndexAfterWraps(n - 1);
    }
  }

  /**
   * A string whose first 256 bytes are all non-zero keeps the loop test of
   * ushell_input_string true forever: after every number of iterations the index points at
   * one of those bytes, so the loop never terminates.
   */
  lemma InputStringNeverEnds(s: seq<u8>)
    requires 0x100 <= |s| && forall k :: 0 <= k < 0x100 ==> s[k] != 0
    ensures forall n: nat :: s[IndexAfter(n)] != 0
  {
    forall n: nat
      ensures s[IndexAfter(n)] != 0
    {
      IndexAfterWraps(n);
    }
  }
}
