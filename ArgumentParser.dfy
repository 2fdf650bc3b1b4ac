/**
  The command-line parser of ArgumentParser.h and ArgumentParser.cpp: the
  options table, the configuration it fills, the decoding of delimiter and
  line-count values, and the loop over the arguments.
 */
module ArgumentParser {
  import opened Wrappers
  import opened ErrorMessage
  import opened Stoi

  const kDefaultDelimiter: char := '\n'

  /** `std::numeric_limits<uint64_t>::max()`: the line limit when none is given. */
  const kDefaultLinesValue: nat := 0xFFFF_FFFF_FFFF_FFFF

  /** The option names (struct Arguments). */
  const kLines := "--lines"
  const kLinesShort := "-l"
  const kDelimiter := "--delimiter"
  const kDelimiterShort := "-d"
  const kTail := "--tail"
  const kTailShort := "-t"

  /** The spellings that carry their value inline (struct ArgumentsWithValue). */
  const kLinesWithValue := "--lines="
  const kLinesShortWithValue := "-l="
  const kDelimiterWithValue := "--delimiter="
  const kDelimiterShortWithValue := "-d="

  /** struct Config; `filename` is None while the C++ pointer is still null. */
  datatype Config = Config(lines: nat, tail: bool, delimiter: char, filename: Option<string>)

  const DefaultConfig := Config(kDefaultLinesValue, false, kDefaultDelimiter, None)

  // ---------------------------------------------------------------------------
  // Escapes: GetSpecialChar

  /** The two-character escape that stands for `c`, for the five characters that have one. */
  function EscapeOf(c: char): Option<string> {
    if c == '\n' then Some("\\n")
    else if c == '\t' then Some("\\t")
    else if c == '\\' then Some("\\\\")
    else if c == '"' then Some("\\\"")
    else if c == '\'' then Some("\\'")
    else None
  }

  /**
    GetSpecialChar: the character whose escape the first two characters of
    `ch` are; anything that starts with no escape is a wrong delimiter.
   */
  function GetSpecialChar(ch: string): (r: Result<char>)
    ensures r.Ok? ==> |ch| >= 2 && EscapeOf(r.value) == Some(ch[..2])
    ensures r.Err? ==> r.code == WrongDelimiter
    ensures r.Err? ==> forall c :: EscapeOf(c).Some? ==> !(EscapeOf(c).value <= ch)
  {
    if "\\n" <= ch then assert ch[..2] == "\\n"; Ok('\n')
    else if "\\t" <= ch then assert ch[..2] == "\\t"; Ok('\t')
    else if "\\\\" <= ch then assert ch[..2] == "\\\\"; Ok('\\')
    else if "\\\"" <= ch then assert ch[..2] == "\\\""; Ok('"')
    else if "\\'" <= ch then assert ch[..2] == "\\'"; Ok('\'')
    else Err(WrongDelimiter)
  }

  /** Every escape decodes to its character, whatever follows it. */
  lemma GetSpecialCharOfEscape(c: char, rest: string)
    requires EscapeOf(c).Some?
    ensures GetSpecialChar(EscapeOf(c).value + rest) == Ok(c)
  {
    var e := EscapeOf(c).value;
    assert (e + rest)[..2] == e;
  }

  // ---------------------------------------------------------------------------
  // Delimiter values: the case analysis of GetDelimiter

  /**
    The delimiter a value of `--delimiter`/`-d` denotes: a value that starts
    with a quote is read as `'x'` (length 3, the closing quote is not
    checked) or `'\x'` (length 4); any other value is a single character or
    a two-character escape.
   */
  function DelimiterOf(value: string): (r: Result<char>)
    ensures r.Err? ==> r.code == WrongDelimiter
    ensures r.Ok? ==>
      || (value == [r.value] && r.value != '\'')
      || (|value| == 2 && value[0] != '\'' && EscapeOf(r.value) == Some(value))
      || (|value| == 3 && value[0] == '\'' && value[1] == r.value)
      || (|value| == 4 && value[0] == '\'' && EscapeOf(r.value) == Some(value[1..3]))
  {
    if |value| >= 1 && value[0] == '\'' then
      if |value| == 3 then Ok(value[1])
      else if |value| == 4 then assert value[1..][..2] == value[1..3]; GetSpecialChar(value[1..])
      else Err(WrongDelimiter)
    else if |value| == 1 then Ok(value[0])
    else if |value| == 2 then assert value[..2] == value; GetSpecialChar(value)
    else Err(WrongDelimiter)
  }

  /**
    Every character can be given as a delimiter: quoted as `'c'` (with any
    third character), bare unless it is the quote, and, for the five with an
    escape, as the bare or quoted escape.
   */
  lemma DelimiterOfForms(c: char, close: char)
    ensures DelimiterOf(['\'', c, close]) == Ok(c)
    ensures c != '\'' ==> DelimiterOf([c]) == Ok(c)
    ensures EscapeOf(c).Some? ==> DelimiterOf(EscapeOf(c).value) == Ok(c)
    ensures EscapeOf(c).Some? ==> DelimiterOf(['\''] + EscapeOf(c).value + [close]) == Ok(c)
  {
    if EscapeOf(c).Some? {
      var e := EscapeOf(c).value;
      GetSpecialCharOfEscape(c, []);
      assert e + [] == e;
      var quoted := ['\''] + e + [close];
      assert quoted[1..] == e + [close];
      GetSpecialCharOfEscape(c, [close]);
    }
  }

  /** Values of length 0 or above 4, and a lone or doubled quote, are rejected. */
  lemma DelimiterOfRejects(value: string)
    requires |value| == 0 || |value| > 4 || (|value| <= 2 && value[0] == '\'')
    ensures DelimiterOf(value) == Err(WrongDelimiter)
  {
  }

  // ---------------------------------------------------------------------------
  // Option values: the sourcing half of GetLines and GetDelimiter

  /** A value and the index of the last argument it took. */
  datatype Taken<T> = Taken(value: T, index: nat)

  /**
    The value of the option at `argv[i]`: the rest of the argument after
    its inline spelling `inline` or `inlineShort`, leaving the index where
    it is; otherwise the next argument, advancing the index to it; and a
    missing value when there is no next argument.
   */
  function TakeValue(argv: seq<string>, i: nat, inline: string, inlineShort: string)
      : (r: Result<Taken<string>>)
    requires i < |argv|
    ensures r.Ok? ==> r.value.index < |argv|
    ensures (inline <= argv[i] || inlineShort <= argv[i]) <==> (r.Ok? && r.value.index == i)
    ensures r.Ok? && r.value.index == i ==>
      argv[i] == inline + r.value.value || argv[i] == inlineShort + r.value.value
    ensures r.Ok? && r.value.index != i ==> r.value.index == i + 1 && r.value.value == argv[i + 1]
    ensures r.Err? <==> !(inline <= argv[i]) && !(inlineShort <= argv[i]) && i + 1 == |argv|
    ensures r.Err? ==> r.code == ValueMissing
  {
    if inline <= argv[i] then Ok(Taken(argv[i][|inline|..], i))
    else if inlineShort <= argv[i] then Ok(Taken(argv[i][|inlineShort|..], i))
    else if i + 1 < |argv| then Ok(Taken(argv[i + 1], i + 1))
    else Err(ValueMissing)
  }

  /** The line count `std::stoi` reads from `text`, which must not be negative. */
  function LinesCount(text: string): (r: Result<nat>)
    ensures r.Err? ==> r.code == WrongLinesCount
    ensures r.Ok? <==> StringToInt(text).Some? && StringToInt(text).value >= 0
    ensures r.Ok? ==> StringToInt(text) == Some(r.value as int)
  {
    match StringToInt(text)
    case None => Err(WrongLinesCount)
    case Some(v) => if v >= 0 then Ok(v) else Err(WrongLinesCount)
  }

  /** A count written in decimal digits is accepted as the number they spell. */
  lemma LinesCountOfDigits(text: string, ds: string)
    requires |ds| >= 1 && AllDigits(ds) && ds <= text
    requires |text| == |ds| || !IsDigit(text[|ds|])
    ensures LinesCount(text) == Ok(DecimalValue(ds))
  {
    StringToIntOfDigits(text, ds);
  }

  /** A count with a minus sign before non-zero digits is a wrong lines count. */
  lemma LinesCountOfNegative(text: string, ds: string)
    requires |ds| >= 1 && AllDigits(ds) && DecimalValue(ds) > 0
    requires |text| > |ds| && text[0] == '-' && ds <= text[1..]
    requires |text| == |ds| + 1 || !IsDigit(text[|ds| + 1])
    ensures LinesCount(text) == Err(WrongLinesCount)
  {
    StringToIntOfSignedDigits(text, ds);
  }

  /** GetLines without its effects: the count and the index of the argument that held it. */
  function LinesArgument(argv: seq<string>, i: nat): (r: Result<Taken<nat>>)
    requires i < |argv|
    ensures r.Ok? ==> r.value.index == i || r.value.index == i + 1
    ensures r.Err? ==> r.code == ValueMissing || r.code == WrongLinesCount
    ensures r.Err? && r.code == ValueMissing <==> TakeValue(argv, i, kLinesWithValue, kLinesShortWithValue).Err?
    ensures var tv := TakeValue(argv, i, kLinesWithValue, kLinesShortWithValue);
      r.Ok? ==> tv.Ok? && r.value.index == tv.value.index && LinesCount(tv.value.value) == Ok(r.value.value)
    ensures var tv := TakeValue(argv, i, kLinesWithValue, kLinesShortWithValue);
      tv.Ok? ==> (r.Ok? <==> LinesCount(tv.value.value).Ok?)
  {
    match TakeValue(argv, i, kLinesWithValue, kLinesShortWithValue)
    case Err(e) => Err(e)
    case Ok(t) =>
      match LinesCount(t.value)
      case Err(e) => Err(e)
      case Ok(n) => Ok(Taken(n, t.index))
  }

  /** GetDelimiter without its effects: the delimiter and the index of the argument that held it. */
  function DelimiterArgument(argv: seq<string>, i: nat): (r: Result<Taken<char>>)
    requires i < |argv|
    ensures r.Ok? ==> r.value.index == i || r.value.index == i + 1
    ensures r.Err? ==> r.code == ValueMissing || r.code == WrongDelimiter
    ensures r.Err? && r.code == ValueMissing <==> TakeValue(argv, i, kDelimiterWithValue, kDelimiterShortWithValue).Err?
    ensures var tv := TakeValue(argv, i, kDelimiterWithValue, kDelimiterShortWithValue);
      r.Ok? ==> tv.Ok? && r.value.index == tv.value.index && DelimiterOf(tv.value.value) == Ok(r.value.value)
    ensures var tv := TakeValue(argv, i, kDelimiterWithValue, kDelimiterShortWithValue);
      tv.Ok? ==> (r.Ok? <==> DelimiterOf(tv.value.value).Ok?)
  {
    match TakeValue(argv, i, kDelimiterWithValue, kDelimiterShortWithValue)
    case Err(e) => Err(e)
    case Ok(t) =>
      match DelimiterOf(t.value)
      case Err(e) => Err(e)
      case Ok(c) => Ok(Taken(c, t.index))
  }

  // ---------------------------------------------------------------------------
  // The argument loop: ParseArguments

  /** The flag tests of ParseArguments; each is a test on a prefix of the argument. */
  predicate IsOption(arg: string) { "-" <= arg }
  predicate IsHelp(arg: string) { "-h" <= arg || "--help" <= arg }
  predicate IsTail(arg: string) { kTailShort <= arg || kTail <= arg }
  predicate IsDelimiterOption(arg: string) { kDelimiterShort <= arg || kDelimiter <= arg }
  predicate IsLinesOption(arg: string) { kLinesShort <= arg || kLines <= arg }

  /** The parser's state: the configuration and the two flags of class ArgumentParser. */
  datatype ParserState = ParserState(config: Config, isLinesSet: bool, isFilenameSet: bool)

  /** The state after the constructor, with the default configuration `main` passes in. */
  const InitialState := ParserState(DefaultConfig, false, false)

  /** How parsing ends: a configuration, the help text (exit status 0), or an error. */
  datatype Outcome = Parsed(config: Config) | Help | Failed(code: ErrorCode)

  /** One pass of the loop: the new state and the index of the last argument used, or the end of parsing. */
  datatype Step = Next(state: ParserState, index: nat) | Stop(outcome: Outcome)

  /** The whole loop: the final state, or how parsing stopped early. */
  datatype Progress = Finished(state: ParserState) | Stopped(outcome: Outcome)

  /**
    One pass of ParseArguments' loop over `argv[i]`. The flag tests are
    tried in the order help, tail, delimiter, lines; an argument that starts
    with '-' and matches none is a wrong argument; any other argument is
    the file name.
   */
  function ParseStep(argv: seq<string>, i: nat, st: ParserState): (r: Step)
    requires i < |argv|
    ensures r.Next? ==> i <= r.index < |argv|
    ensures r.Stop? ==> !r.outcome.Parsed?
    ensures !IsOption(argv[i]) ==>
      r == Next(st.(config := st.config.(filename := Some(argv[i])), isFilenameSet := true), i)
    ensures r.Next? && IsOption(argv[i]) ==>
      r.state.config.filename == st.config.filename && r.state.isFilenameSet == st.isFilenameSet
    ensures r.Next? && r.state.config.tail && !st.config.tail ==> st.isLinesSet
    ensures r.Next? && st.isLinesSet ==> r.state.isLinesSet
    ensures IsHelp(argv[i]) ==> r == Stop(Help)
    ensures (IsOption(argv[i]) && !IsHelp(argv[i]) && !IsTail(argv[i])
             && !IsDelimiterOption(argv[i]) && !IsLinesOption(argv[i])) ==> r == Stop(Failed(WrongArgument))
    ensures IsDelimiterOption(argv[i]) && !IsHelp(argv[i]) && !IsTail(argv[i]) ==>
      r == match DelimiterArgument(argv, i)
           case Ok(t) => Next(st.(config := st.config.(delimiter := t.value)), t.index)
           case Err(e) => Stop(Failed(e))
    ensures IsLinesOption(argv[i]) && !IsHelp(argv[i]) && !IsTail(argv[i]) && !IsDelimiterOption(argv[i]) ==>
      r == match LinesArgument(argv, i)
           case Ok(t) => Next(st.(config := st.config.(lines := t.value), isLinesSet := true), t.index)
           case Err(e) => Stop(Failed(e))
  {
    var arg := argv[i];
    assert (IsHelp(arg) || IsDelimiterOption(arg) || IsLinesOption(arg)) ==> IsOption(arg) by {
      if IsHelp(arg) || IsDelimiterOption(arg) || IsLinesOption(arg) {
        assert arg[0] == '-';
      }
    }
    if IsOption(arg) then
      if IsHelp(arg) then Stop(Help)
      else if IsTail(arg) then
        if !st.isLinesSet then Stop(Failed(TailWithoutLines))
        else Next(st.(config := st.config.(tail := true)), i)
      else if IsDelimiterOption(arg) then
        match DelimiterArgument(argv, i)
        case Err(e) => Stop(Failed(e))
        case Ok(t) => Next(st.(config := st.config.(delimiter := t.value)), t.index)
      else if IsLinesOption(arg) then
        match LinesArgument(argv, i)
        case Err(e) => Stop(Failed(e))
        case Ok(t) => Next(st.(config := st.config.(lines := t.value), isLinesSet := true), t.index)
      else Stop(Failed(WrongArgument))
    else Next(st.(config := st.config.(filename := Some(arg)), isFilenameSet := true), i)
  }

  /** The loop from index `i` on. */
  function Run(argv: seq<string>, i: nat, st: ParserState): (r: Progress)
    ensures r.Stopped? ==> !r.outcome.Parsed?
    decreases |argv| - i
  {
    if i >= |argv| then Finished(st)
    else
      match ParseStep(argv, i, st)
      case Stop(o) => Stopped(o)
      case Next(st', j) => Run(argv, j + 1, st')
  }

  /** A pass that goes on continues the loop after the last argument it used. */
  lemma RunNext(argv: seq<string>, i: nat, st: ParserState, step: Step)
    requires i < |argv| && step.Next? && step == ParseStep(argv, i, st)
    ensures Run(argv, i, st) == Run(argv, step.index + 1, step.state)
  {
  }

  /** After the loop: a missing file name is an error. */
  function Finish(p: Progress): (r: Outcome)
    ensures p.Stopped? ==> r == p.outcome
    ensures p.Finished? ==> (r.Parsed? <==> p.state.isFilenameSet)
    ensures p.Finished? && r.Parsed? ==> r.config == p.state.config
    ensures p.Finished? && !p.state.isFilenameSet ==> r == Failed(FilenameMissing)
  {
    match p
    case Stopped(o) => o
    case Finished(st) => if st.isFilenameSet then Parsed(st.config) else Failed(FilenameMissing)
  }

  /** What `ArgumentParser(argc, argv, config).ParseArguments()` does, `argv[0]` being the program name. */
  function Parse(argv: seq<string>): (r: Outcome)
    ensures |argv| <= 1 ==> r == Failed(FilenameMissing)
    ensures r.Parsed? ==> r.config.filename.Some?
  {
    RunKeepsConsistent(argv, 1, InitialState);
    Finish(Run(argv, 1, InitialState))
  }

  /** `st` with `name` as the file name. */
  function Named(st: ParserState, name: string): ParserState {
    st.(config := st.config.(filename := Some(name)), isFilenameSet := true)
  }

  /** What the parser's flags say about its configuration. */
  predicate Consistent(st: ParserState) {
    && (st.config.tail ==> st.isLinesSet)
    && (st.isFilenameSet <==> st.config.filename.Some?)
  }

  /** The loop keeps the flags in step with the configuration. */
  lemma {:induction false} RunKeepsConsistent(argv: seq<string>, i: nat, st: ParserState)
    requires Consistent(st)
    ensures Run(argv, i, st).Finished? ==> Consistent(Run(argv, i, st).state)
    decreases |argv| - i
  {
    if i < |argv| {
      var step := ParseStep(argv, i, st);
      if step.Next? {
        assert Consistent(step.state);
        RunKeepsConsistent(argv, step.index + 1, step.state);
      }
    }
  }

  /**
    A successful parse names a file, and it chose tail mode only after a
    lines option had been seen.
   */
  lemma ParseConsistent(argv: seq<string>)
    ensures Run(argv, 1, InitialState).Finished? ==> Consistent(Run(argv, 1, InitialState).state)
    ensures Parse(argv).Parsed? ==> Parse(argv).config.filename.Some?
  {
    RunKeepsConsistent(argv, 1, InitialState);
  }

  /** Without arguments after the program name the file name is missing. */
  lemma ParseNoArguments(argv: seq<string>)
    requires |argv| <= 1
    ensures Parse(argv) == Failed(FilenameMissing)
  {
  }

  /** A tail flag is accepted exactly when a lines option came before it. */
  lemma TailNeedsLines(argv: seq<string>, i: nat, st: ParserState)
    requires i < |argv| && IsTail(argv[i])
    ensures ParseStep(argv, i, st) == Stop(Failed(TailWithoutLines)) <==> !st.isLinesSet
    ensures st.isLinesSet ==> ParseStep(argv, i, st) == Next(st.(config := st.config.(tail := true)), i)
  {
    var arg := argv[i];
    assert IsOption(arg) by {
      assert arg[0] == '-';
    }
    assert !IsHelp(arg) by {
      if kTailShort <= arg {
        assert arg[1] == 't';
      } else {
        assert arg[1] == '-' && arg[2] == 't';
      }
    }
  }

  /** A value that the arguments so far supply is not changed by appending an argument. */
  lemma TakeValueExtends(argv: seq<string>, f: string, i: nat, inline: string, inlineShort: string)
    requires i < |argv| && TakeValue(argv, i, inline, inlineShort).Ok?
    ensures TakeValue(argv + [f], i, inline, inlineShort) == TakeValue(argv, i, inline, inlineShort)
  {
    assert (argv + [f])[i] == argv[i];
    if i + 1 < |argv| {
      assert (argv + [f])[i + 1] == argv[i + 1];
    }
  }

  lemma StepExtends(argv: seq<string>, f: string, i: nat, st: ParserState)
    requires i < |argv| && ParseStep(argv, i, st).Next?
    ensures ParseStep(argv + [f], i, st) == ParseStep(argv, i, st)
  {
    var arg := argv[i];
    assert (argv + [f])[i] == arg;
    if IsOption(arg) && !IsHelp(arg) && !IsTail(arg) {
      if IsDelimiterOption(arg) {
        TakeValueExtends(argv, f, i, kDelimiterWithValue, kDelimiterShortWithValue);
      } else {
        TakeValueExtends(argv, f, i, kLinesWithValue, kLinesShortWithValue);
      }
    }
  }

  /** Appending a file name to arguments that parse to the end only replaces the file name. */
  lemma {:induction false} RunAppendFilename(argv: seq<string>, f: string, i: nat, st: ParserState)
    requires i <= |argv| && Run(argv, i, st).Finished? && !IsOption(f)
    ensures Run(argv + [f], i, st) == Finished(Named(Run(argv, i, st).state, f))
    decreases |argv| - i
  {
    if i == |argv| {
      assert (argv + [f])[i] == f;
    } else {
      StepExtends(argv, f, i, st);
      match ParseStep(argv, i, st)
      case Next(st', j) => RunAppendFilename(argv, f, j + 1, st');
    }
  }

  /** The last file name given wins. */
  lemma ParseLastFilenameWins(argv: seq<string>, f: string)
    requires |argv| >= 1 && Run(argv, 1, InitialState).Finished? && !IsOption(f)
    ensures Parse(argv + [f]) == Parsed(Run(argv, 1, InitialState).state.config.(filename := Some(f)))
  {
    RunAppendFilename(argv, f, 1, InitialState);
  }

  lemma {:induction false} RunOnlyFilenames(argv: seq<string>)
    requires |argv| >= 2 && forall j :: 1 <= j < |argv| ==> !IsOption(argv[j])
    ensures Run(argv, 1, InitialState) == Finished(Named(InitialState, argv[|argv| - 1]))
  {
    if |argv| > 2 {
      var front := argv[..|argv| - 1];
      assert forall j :: 1 <= j < |front| ==> front[j] == argv[j];
      RunOnlyFilenames(front);
      assert front + [argv[|argv| - 1]] == argv;
      RunAppendFilename(front, argv[|argv| - 1], 1, InitialState);
    }
  }

  /** Arguments without options select the last of them as the file, with the defaults for the rest. */
  lemma ParseOnlyFilenames(argv: seq<string>)
    requires |argv| >= 2 && forall j :: 1 <= j < |argv| ==> !IsOption(argv[j])
    ensures Parse(argv) == Parsed(DefaultConfig.(filename := Some(argv[|argv| - 1])))
  {
    RunOnlyFilenames(argv);
  }

  /** Which flag tests a long option `--d…` or `--l…` passes. */
  lemma LongOptionDispatch(arg: string)
    requires |arg| >= 3 && arg[0] == '-' && arg[1] == '-' && (arg[2] == 'd' || arg[2] == 'l')
    ensures IsOption(arg) && !IsHelp(arg) && !IsTail(arg)
    ensures arg[2] == 'l' ==> !IsDelimiterOption(arg)
  {
  }

  lemma InlineLinesStep(argv: seq<string>, i: nat, st: ParserState)
    requires i < |argv| && argv[i] == "--lines=2"
    ensures ParseStep(argv, i, st) == Next(st.(config := st.config.(lines := 2), isLinesSet := true), i)
  {
    var arg := argv[i];
    LongOptionDispatch(arg);
    assert kLinesWithValue <= arg && arg[|kLinesWithValue|..] == "2";
    LinesCountOfDigits("2", "2");
  }

  lemma InlineDelimiterStep(argv: seq<string>, i: nat, st: ParserState)
    requires i < |argv| && argv[i] == "--delimiter=','"
    ensures ParseStep(argv, i, st) == Next(st.(config := st.config.(delimiter := ',')), i)
  {
    var arg := argv[i];
    LongOptionDispatch(arg);
    assert kDelimiterWithValue <= arg && arg[|kDelimiterWithValue|..] == "','";
  }

  /** Inline values, a quoted delimiter and tail mode after the lines option. */
  lemma ParseExampleInline()
    ensures Parse(["prog", "--lines=2", "-t", "--delimiter=','", "notes.txt"])
         == Parsed(Config(2, true, ',', Some("notes.txt")))
  {
    var argv := ["prog", "--lines=2", "-t", "--delimiter=','", "notes.txt"];
    InlineLinesStep(argv, 1, InitialState);
    var st1 := InitialState.(config := InitialState.config.(lines := 2), isLinesSet := true);
    TailNeedsLines(argv, 2, st1);
    var st2 := st1.(config := st1.config.(tail := true));
    InlineDelimiterStep(argv, 3, st2);
    var st3 := st2.(config := st2.config.(delimiter := ','));
    assert !IsOption(argv[4]) by { assert argv[4][0] == 'n'; }
    assert ParseStep(argv, 4, st3) == Next(Named(st3, "notes.txt"), 4);
  }

  /** A tail flag before the lines option is refused. */
  lemma ParseExampleTailFirst()
    ensures Parse(["prog", "-t", "-l", "2", "notes.txt"]) == Failed(TailWithoutLines)
  {
    TailNeedsLines(["prog", "-t", "-l", "2", "notes.txt"], 1, InitialState);
  }

  /** A delimiter value in the next argument that is two characters but no escape. */
  lemma ParseExampleWrongDelimiter()
    ensures Parse(["prog", "-d", "ab", "notes.txt"]) == Failed(WrongDelimiter)
  {
    var argv := ["prog", "-d", "ab", "notes.txt"];
    assert !IsHelp(argv[1]) && !IsTail(argv[1]) && !(kDelimiterWithValue <= argv[1]) by {
      assert argv[1][1] == 'd' && |argv[1]| == 2;
    }
    assert !("\\n" <= argv[2]) by { assert argv[2][0] == 'a'; }
    assert ParseStep(argv, 1, InitialState) == Stop(Failed(WrongDelimiter));
  }

  /** An unknown option, and an option whose value is missing. */
  lemma ParseExampleUnknownAndMissing()
    ensures Parse(["prog", "-x"]) == Failed(WrongArgument)
    ensures Parse(["prog", "-l"]) == Failed(ValueMissing)
  {
    var a := ["prog", "-x"];
    assert !IsHelp(a[1]) && !IsTail(a[1]) && !IsDelimiterOption(a[1]) && !IsLinesOption(a[1]) by {
      assert a[1][1] == 'x' && |a[1]| == 2;
    }
    assert ParseStep(a, 1, InitialState) == Stop(Failed(WrongArgument));
    var b := ["prog", "-l"];
    assert !IsHelp(b[1]) && !IsTail(b[1]) && !IsDelimiterOption(b[1]) && !(kLinesWithValue <= b[1]) by {
      assert b[1][1] == 'l' && |b[1]| == 2;
    }
    assert ParseStep(b, 1, InitialState) == Stop(Failed(ValueMissing));
  }

  /** Help ends parsing wherever it appears, even after a file name. */
  lemma ParseExampleHelp()
    ensures Parse(["prog", "notes.txt", "--help"]) == Help
  {
    var argv := ["prog", "notes.txt", "--help"];
    assert !IsOption(argv[1]) by { assert argv[1][0] == 'n'; }
    assert IsOption(argv[2]) && IsHelp(argv[2]);
    assert ParseStep(argv, 2, Named(InitialState, "notes.txt")) == Stop(Help);
  }

  // ---------------------------------------------------------------------------
  // The parser object

  /**
    The parser of `argv`: it fills in the configuration and remembers
    whether a lines option and a file name were seen.
   */
  class ArgumentParser {
    const argv: seq<string>
    var config: Config
    var isLinesSet: bool
    var isFilenameSet: bool

    function State(): ParserState
      reads this
    {
      ParserState(config, isLinesSet, isFilenameSet)
    }

    constructor (argv: seq<string>)
      ensures this.argv == argv && State() == InitialState
    {
      this.argv := argv;
      config := DefaultConfig;
      isLinesSet := false;
      isFilenameSet := false;
    }

    /**
      GetLines for the option at `argv[idx]`: `next` is the index of the
      last argument it used; on an error nothing but `config` may differ.
     */
    method GetLines(arg: string, idx: nat) returns (next: nat, error: Option<ErrorCode>)
      requires idx < |argv| && arg == argv[idx]
      modifies this
      ensures isLinesSet == old(isLinesSet) && isFilenameSet == old(isFilenameSet)
      ensures match LinesArgument(argv, idx)
        case Ok(t) => error == None && next == t.index && config == old(config).(lines := t.value)
        case Err(e) => error == Some(e)
    {
      var text: string;
      if kLinesWithValue <= arg {
        text := arg[|kLinesWithValue|..];
        next := idx;
      } else if kLinesShortWithValue <= arg {
        text := arg[|kLinesShortWithValue|..];
        next := idx;
      } else {
        next := idx + 1;
        if next < |argv| {
          text := argv[next];
        } else {
          return next, Some(ValueMissing);
        }
      }
      assert TakeValue(argv, idx, kLinesWithValue, kLinesShortWithValue) == Ok(Taken(text, next));
      match StringToInt(text)
      case None =>
        error := Some(WrongLinesCount);
      case Some(lines) =>
        if lines >= 0 {
          config := config.(lines := lines);
          error := None;
        } else {
          error := Some(WrongLinesCount);
        }
    }

    /**
      GetDelimiter for the option at `argv[i]`: `next` is the index of the
      last argument it used.
     */
    method GetDelimiter(arg: string, i: nat) returns (next: nat, error: Option<ErrorCode>)
      requires i < |argv| && arg == argv[i]
      modifies this
      ensures isLinesSet == old(isLinesSet) && isFilenameSet == old(isFilenameSet)
      ensures match DelimiterArgument(argv, i)
        case Ok(t) => error == None && next == t.index && config == old(config).(delimiter := t.value)
        case Err(e) => error == Some(e)
    {
      var value: string;
      if kDelimiterWithValue <= arg {
        value := arg[|kDelimiterWithValue|..];
        next := i;
      } else if kDelimiterShortWithValue <= arg {
        value := arg[|kDelimiterShortWithValue|..];
        next := i;
      } else {
        next := i + 1;
        if next < |argv| {
          value := argv[next];
        } else {
          return next, Some(ValueMissing);
        }
      }
      var c: Result<char>;
      if "'" <= value {
        if |value| == 3 {
          c := Ok(value[1]);
        } else if |value| == 4 {
          c := GetSpecialChar(value[1..]);
        } else {
          c := Err(WrongDelimiter);
        }
      } else if |value| == 1 {
        c := Ok(value[0]);
      } else if |value| == 2 {
        c := GetSpecialChar(value);
      } else {
        c := Err(WrongDelimiter);
      }
      match c
      case Err(e) =>
        error := Some(e);
      case Ok(d) =>
        config := config.(delimiter := d);
        error := None;
    }

    /**
      One pass of ParseArguments' loop over `argv[i]`: either `stop` holds
      how parsing ends, or the object holds the new state and `next` is the
      index of the last argument used.
     */
    method ParseArgument(i: nat) returns (next: nat, stop: Option<Outcome>)
      requires i < |argv|
      modifies this
      ensures match ParseStep(argv, i, old(State()))
        case Next(st, j) => stop == None && State() == st && next == j
        case Stop(o) => stop == Some(o)
    {
      next := i;
      stop := None;
      var arg := argv[i];
      if "-" <= arg {
        if "-h" <= arg || "--help" <= arg {
          stop := Some(Help);
        } else if kTailShort <= arg || kTail <= arg {
          if !isLinesSet {
            stop := Some(Failed(TailWithoutLines));
          } else {
            config := config.(tail := true);
          }
        } else if kDelimiterShort <= arg || kDelimiter <= arg {
          var error;
          next, error := GetDelimiter(arg, i);
          if error.Some? {
            stop := Some(Failed(error.value));
          }
        } else if kLinesShort <= arg || kLines <= arg {
          isLinesSet := true;
          var error;
          next, error := GetLines(arg, i);
          if error.Some? {
            stop := Some(Failed(error.value));
          }
        } else {
          stop := Some(Failed(WrongArgument));
        }
      } else {
        isFilenameSet := true;
        config := config.(filename := Some(arg));
      }
    }

    /**
      ParseArguments: runs through `argv` from index 1 and ends as the
      specification of the loop says; when it gets through all the
      arguments the object holds the loop's final state.
     */
    method ParseArguments() returns (outcome: Outcome)
      modifies this
      ensures outcome == Finish(Run(argv, 1, old(State())))
      ensures Run(argv, 1, old(State())).Finished? ==> State() == Run(argv, 1, old(State())).state
    {
      var i := 1;
      while i < |argv|
        invariant 1 <= i
        invariant Run(argv, i, State()) == Run(argv, 1, old(State()))
        decreases |argv| - i
      {
        ghost var before := State();
        var next, stop := ParseArgument(i);
        if stop.Some? {
          return stop.value;
        }
        RunNext(argv, i, before, Next(State(), next));
        i := next + 1;
      }
      if !isFilenameSet {
        return Failed(FilenameMissing);
      }
      return Parsed(config);
    }
  }
}
