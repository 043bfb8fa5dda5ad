/**
 * Command-line arguments (cli/src/args.ts): reading them word by word, and writing them
 * so that they read back.
 */
module Args {
  import opened Wrappers
  import opened Text

  datatype FlagValue = On | Given(value: string)

  type Flags = map<string, FlagValue>

  datatype Parsed = Parsed(command: string, subcommand: Option<string>, positionals: seq<string>, flags: Flags)

  // ----- Words -----

  predicate StartsWithDash(word: string) {
    word != "" && word[0] == '-'
  }

  predicate IsLong(word: string) {
    |word| >= 2 && word[0] == '-' && word[1] == '-'
  }

  /** A dash and one more UTF-16 unit, so a character outside the basic plane is too long. */
  predicate IsShort(word: string) {
    |word| == 2 && word[0] == '-' && word[1] as int < 0x10000
  }

  /** `isOptionValue` of the next word, if there is one. */
  predicate IsOptionValue(next: Option<string>) {
    next.Some? && (next.value == "-" || !StartsWithDash(next.value))
  }

  /** indexOf("="), or the length of the word. */
  function EqualsAt(word: string): nat {
    Span(word, c => c != '=')
  }

  /** What the first words of a command line are read as. */
  datatype Token =
    | Flag(key: string, value: FlagValue, words: seq<string>)
    | Positional(word: string)
    | Rest(positionals: seq<string>)   // behind "--"

  function Words(t: Token): seq<string> {
    match t
    case Flag(_, _, words) => words
    case Positional(word) => [word]
    case Rest(positionals) => ["--"] + positionals
  }

  /** A flag without "=": with the next word as its value, or alone. */
  function FlagToken(key: string, argv: seq<string>): Token
    requires argv != []
  {
    if |argv| >= 2 && IsOptionValue(Some(argv[1])) then Flag(key, Given(argv[1]), argv[..2])
          else Flag(key, On, argv[..1])
  }

  function Head(argv: seq<string>): (t: Token)
    requires argv != []
    ensures Words(t) != [] && Words(t) <= argv
  {
    var arg := argv[0];
    if arg == "--" then
      assert argv == ["--"] + argv[1..];
      Rest(argv[1..])
    else if IsLong(arg) then
      var n := EqualsAt(arg);
      if n < |arg| then Flag(arg[2..n], Given(arg[n + 1..]), [arg]) else FlagToken(arg[2..], argv)
    else if arg == "-h" then Flag("help", On, [arg])
    else if IsShort(arg) then FlagToken(arg[1..], argv)
    else Positional(arg)
  }

  // ----- Reading -----

  datatype State = State(flags: Flags, positionals: seq<string>)

  /** `flags[key] = value`; on the key `__proto__` it sets no property. */
  function Assign(flags: Flags, key: string, value: FlagValue): Flags {
    if key == "__proto__" then flags else flags[key := value]
  }

  function Apply(s: State, t: Token): State {
    match t
    case Flag(key, value, _) => s.(flags := Assign(s.flags, key, value))
    case Positional(word) => s.(positionals := s.positionals + [word])
    case Rest(positionals) => s.(positionals := s.positionals + positionals)
  }

  function Tokens(argv: seq<string>): seq<Token>
    decreases |argv|
  {
    if argv == [] then [] else [Head(argv)] + Tokens(argv[|Words(Head(argv))|..])
  }

  function ApplyAll(s: State, tokens: seq<Token>): State
    decreases |tokens|
  {
    if tokens == [] then s else ApplyAll(Apply(s, tokens[0]), tokens[1..])
  }

  function AllWords(tokens: seq<Token>): seq<string> {
    if tokens == [] then [] else Words(tokens[0]) + AllWords(tokens[1..])
  }

  lemma AllWordsCons(t: Token, tokens: seq<Token>)
    ensures AllWords([t] + tokens) == Words(t) + AllWords(tokens)
  {
    assert ([t] + tokens)[1..] == tokens;
  }

  /** Every word is read exactly once and in order. */
  lemma {:induction false} TokensCoverTheWords(argv: seq<string>)
    ensures AllWords(Tokens(argv)) == argv
    decreases |argv|
  {
    if argv != [] {
      var t := Head(argv);
      TokensCoverTheWords(argv[|Words(t)|..]);
      AllWordsCons(t, Tokens(argv[|Words(t)|..]));
    }
  }

  /** The command, the subcommand and the rest. */
  function Finish(s: State): Parsed {
    if s.positionals == [] then Parsed("", None, [], s.flags)
    else
      var rest := s.positionals[1..];
      if rest != [] && !StartsWithDash(rest[0]) then Parsed(s.positionals[0], Some(rest[0]), rest[1..], s.flags)
      else Parsed(s.positionals[0], None, rest, s.flags)
  }

  function Scan(s: State, argv: seq<string>): State {
    ApplyAll(s, Tokens(argv))
  }

  lemma ScanOn(s: State, argv: seq<string>)
    requires argv != []
    ensures Scan(s, argv) == Scan(Apply(s, Head(argv)), argv[|Words(Head(argv))|..])
  {
    assert Tokens(argv)[1..] == Tokens(argv[|Words(Head(argv))|..]);
  }

  function Parse(argv: seq<string>): Parsed {
    Finish(Scan(State(map[], []), argv))
  }

  lemma ScanNothing(s: State)
    ensures Scan(s, []) == s
  {
  }

  /** One turn of the loop: reads the words from `i` up to `i'`. */
  method ReadWords(argv: seq<string>, i: nat, flags: Flags, positionals: seq<string>)
    returns (flags': Flags, positionals': seq<string>, i': nat)
    requires i < |argv|
    ensures State(flags', positionals') == Apply(State(flags, positionals), Head(argv[i..]))
    ensures i' == i + |Words(Head(argv[i..]))|
  {
    flags', positionals', i' := flags, positionals, i + 1;
    var arg := argv[i];
    if arg == "--" {
      positionals' := positionals + argv[i + 1..];
      assert argv[i..][1..] == argv[i + 1..];
      return flags, positionals', |argv|;
    }
    var next := if i + 1 < |argv| then Some(argv[i + 1]) else None;
    if IsLong(arg) {
      var eqIdx := EqualsAt(arg);
      if eqIdx < |arg| {
        flags' := Assign(flags, arg[2..eqIdx], Given(arg[eqIdx + 1..]));
      } else if IsOptionValue(next) {
        flags', i' := Assign(flags, arg[2..], Given(next.value)), i + 2;
      } else {
        flags' := Assign(flags, arg[2..], On);
      }
    } else if arg == "-h" {
      flags' := Assign(flags, "help", On);
    } else if IsShort(arg) {
      if IsOptionValue(next) {
        flags', i' := Assign(flags, arg[1..], Given(next.value)), i + 2;
      } else {
        flags' := Assign(flags, arg[1..], On);
      }
    } else {
      positionals' := positionals + [arg];
    }
  }

  /** After one turn the rest of the words goes on from the new state. */
  method ReadOn(argv: seq<string>, i: nat, flags: Flags, positionals: seq<string>)
    returns (flags': Flags, positionals': seq<string>, i': nat)
    requires i < |argv|
    ensures i < i' <= |argv|
    ensures Scan(State(flags', positionals'), argv[i'..]) == Scan(State(flags, positionals), argv[i..])
  {
    ghost var here := argv[i..];
    ghost var n, s := |Words(Head(here))|, State(flags, positionals);
    flags', positionals', i' := ReadWords(argv, i, flags, positionals);
    assert argv[i'..] == here[n..];
    assert Scan(State(flags', positionals'), here[n..]) == Scan(s, here) by {
      ScanOn(s, here);
    }
  }

  /** The loop of `parseArgs`. */
  method ReadAll(argv: seq<string>) returns (flags: Flags, positionals: seq<string>)
    ensures State(flags, positionals) == Scan(State(map[], []), argv)
  {
    flags, positionals := map[], [];
    ghost var goal := Scan(State(flags, positionals), argv);
    var i := 0;
    assert argv[0..] == argv;
    while i < |argv|
      invariant 0 <= i <= |argv|
      invariant Scan(State(flags, positionals), argv[i..]) == goal
    {
      flags, positionals, i := ReadOn(argv, i, flags, positionals);
    }
    assert argv[i..] == [];
    ScanNothing(State(flags, positionals));
  }

  /** `parseArgs` */
  method ParseArgs(argv: seq<string>) returns (parsed: Parsed)
    ensures parsed == Parse(argv)
  {
    var flags, positionals := ReadAll(argv);
    var command := "";
    if positionals != [] {
      command, positionals := positionals[0], positionals[1..];
    }
    var subcommand := None;
    if positionals != [] && !StartsWithDash(positionals[0]) {
      subcommand, positionals := Some(positionals[0]), positionals[1..];
    }
    parsed := Parsed(command, subcommand, positionals, flags);
  }

  // ----- Writing -----

  datatype Setting = Setting(key: string, value: FlagValue)

  function SettingWord(f: Setting): string {
    "--" + f.key + match f.value { case On => "" case Given(v) => "=" + v }
  }

  function SettingWords(settings: seq<Setting>): seq<string> {
    if settings == [] then [] else [SettingWord(settings[0])] + SettingWords(settings[1..])
  }

  function Positionals(command: string, subcommand: Option<string>, positionals: seq<string>): seq<string> {
    [command] + (if subcommand.Some? then [subcommand.value] else []) + positionals
  }

  /** The settings in any order, then "--" and the rest. */
  function Write(settings: seq<Setting>, command: string, subcommand: Option<string>,
        positionals: seq<string>): seq<string> {
    SettingWords(settings) + ["--"] + Positionals(command, subcommand, positionals)
  }

  predicate DistinctSettings(settings: seq<Setting>) {
    forall i, j | 0 <= i < j < |settings| :: settings[i].key != settings[j].key
  }

  /** The flags a list of settings means, a later one before an earlier one. */
  function FlagsOf(flags: Flags, settings: seq<Setting>): Flags
    decreases |settings|
  {
    if settings == [] then flags else FlagsOf(flags[settings[0].key := settings[0].value], settings[1..])
  }

  /** A flag that can be written: no "=" in its key, which is not empty if the flag is just on. */
  predicate Writable(key: string, value: FlagValue) {
    '=' !in key && key != "__proto__" && (value.On? ==> key != "")
  }

  /** How a long word reads by itself. */
  function Reading(word: string): Token
    requires IsLong(word)
  {
    var n := EqualsAt(word);
    if 2 <= n < |word| then Flag(word[2..n], Given(word[n + 1..]), [word]) else Flag(word[2..], On, [word])
  }

  /** It does, if no value can follow it. */
  lemma HeadOfLong(word: string, rest: seq<string>)
    requires IsLong(word) && word != "--" && (rest == [] || IsLong(rest[0]))
    ensures Head([word] + rest) == Reading(word)
  {
    KeyOfLong(word);
  }

  /** What comes before the first "=" has none. */
  lemma KeyOfLong(word: string)
    requires IsLong(word)
    ensures var n := EqualsAt(word); n >= 2 && '=' !in word[2..n]
  {
  }

  lemma OnWord(key: string)
    ensures var word := SettingWord(Setting(key, On)); IsLong(word) && word[2..] == key
    ensures '=' !in key ==> EqualsAt(SettingWord(Setting(key, On))) == |key| + 2
  {
    var word := SettingWord(Setting(key, On));
    assert word == "--" + key;
    if '=' !in key {
      SpanOf(word, "", c => c != '=');
      assert word + "" == word;
    }
  }

  /** The reading of a written setting, except for the word "--". */
  lemma ReadingOfSetting(f: Setting)
    requires SettingWord(f) != "--"
    ensures IsLong(SettingWord(f))
    ensures var t := Reading(SettingWord(f));
            && '=' !in t.key && (t.value.On? ==> t.key != "")
            && ('=' !in f.key ==> t.key == f.key && t.value == f.value)
  {
    var word := SettingWord(f);
    SettingWordIsLong(f);
    KeyOfLong(word);
    if f.value.On? {
      OnWord(f.key);
    } else if '=' !in f.key {
      GivenWord(f.key, f.value.value);
    }
  }

  lemma GivenWord(key: string, v: string)
    requires '=' !in key
    ensures var word := "--" + key + ("=" + v);
            EqualsAt(word) == |key| + 2 && word[2..|key| + 2] == key && word[|key| + 3..] == v
  {
    SpanOf("--" + key, "=" + v, c => c != '=');
  }

  lemma SettingWordIsLong(f: Setting)
    ensures IsLong(SettingWord(f))
  {
  }

  /** The written settings before "--" and other words. */
  function Line(settings: seq<Setting>, words: seq<string>): seq<string> {
    if settings == [] then ["--"] + words else [SettingWord(settings[0])] + Line(settings[1..], words)
  }

  lemma {:induction false} LineIsWritten(settings: seq<Setting>, words: seq<string>)
    ensures SettingWords(settings) + ["--"] + words == Line(settings, words)
  {
    if settings != [] {
      LineIsWritten(settings[1..], words);
      Regroup(SettingWord(settings[0]), SettingWords(settings[1..]), words);
    }
  }

  lemma Regroup(word: string, words: seq<string>, rest: seq<string>)
    ensures [word] + words + ["--"] + rest == [word] + (words + ["--"] + rest)
  {
  }

  lemma LineIsLong(settings: seq<Setting>, words: seq<string>)
    ensures Line(settings, words) != [] && IsLong(Line(settings, words)[0])
  {
    if settings != [] {
      SettingWordIsLong(settings[0]);
    }
  }

  lemma TakeLong(s: State, word: string, rest: seq<string>)
    requires IsLong(word) && word != "--" && rest != [] && IsLong(rest[0])
    ensures var t := Reading(word);
            Scan(s, [word] + rest) == Scan(s.(flags := Assign(s.flags, t.key, t.value)), rest)
  {
    var argv := [word] + rest;
    HeadOfLong(word, rest);
    ScanOn(s, argv);
    assert argv[1..] == rest;
  }

  lemma ScanRest(s: State, words: seq<string>)
    ensures Scan(s, ["--"] + words) == s.(positionals := s.positionals + words)
  {
    var argv := ["--"] + words;
    ScanOn(s, argv);
    assert argv[1..] == words && argv[|argv|..] == [];
  }

  lemma {:induction false} WritableSettingsBack(s: State, settings: seq<Setting>, words: seq<string>)
    requires forall i | 0 <= i < |settings| :: Writable(settings[i].key, settings[i].value)
    ensures Scan(s, Line(settings, words)) == State(FlagsOf(s.flags, settings), s.positionals + words)
    decreases |settings|
  {
    if settings == [] {
      ScanRest(s, words);
    } else {
      var f := settings[0];
      SettingIsNotBare(f);
      ReadingOfSetting(f);
      LineIsLong(settings[1..], words);
      TakeLong(s, SettingWord(f), Line(settings[1..], words));
      WritableSettingsBack(s.(flags := s.flags[f.key := f.value]), settings[1..], words);
    }
  }

  lemma SettingIsNotBare(f: Setting)
    ensures SettingWord(f) == "--" <==> f.key == "" && f.value.On?
  {
    if f.value.Given? || f.key != "" {
      assert |SettingWord(f)| > 2;
    }
  }

  ghost predicate AllWritable(flags: Flags) {
    forall k | k in flags :: Writable(k, flags[k])
  }

  /** A setting that is not "--" adds at most a writable flag. */
  lemma TakeSetting(s: State, f: Setting, rest: seq<string>) returns (next: State)
    requires AllWritable(s.flags) && SettingWord(f) != "--" && rest != [] && IsLong(rest[0])
    ensures AllWritable(next.flags) && Scan(s, [SettingWord(f)] + rest) == Scan(next, rest)
  {
    ReadingOfSetting(f);
    TakeLong(s, SettingWord(f), rest);
    var t := Reading(SettingWord(f));
    next := s.(flags := Assign(s.flags, t.key, t.value));
  }

  /** Whatever the settings were, only writable flags come back. */
  lemma {:induction false} OnlyWritableComesBack(s: State, settings: seq<Setting>, words: seq<string>)
    requires AllWritable(s.flags)
    ensures AllWritable(Scan(s, Line(settings, words)).flags)
    decreases |settings|
  {
    if settings == [] {
      ScanRest(s, words);
    } else {
      var word, rest := SettingWord(settings[0]), Line(settings[1..], words);
      if word == "--" {
        ScanRest(s, rest);
      } else {
        LineIsLong(settings[1..], words);
        var next := TakeSetting(s, settings[0], rest);
        OnlyWritableComesBack(next, settings[1..], words);
      }
    }
  }

  /** FlagsOf has every setting, if the keys are distinct. */
  lemma {:induction false} FlagsOfAll(flags: Flags, settings: seq<Setting>)
    requires DistinctSettings(settings)
    ensures forall i | 0 <= i < |settings| ::
              settings[i].key in FlagsOf(flags, settings) && FlagsOf(flags, settings)[settings[i].key]
                    == settings[i].value
    ensures forall k | k in flags && (forall i | 0 <= i < |settings| :: settings[i].key != k) ::
              k in FlagsOf(flags, settings) && FlagsOf(flags, settings)[k] == flags[k]
    decreases |settings|
  {
    if settings != [] {
      FlagsOfAll(flags[settings[0].key := settings[0].value], settings[1..]);
      assert forall i | 0 < i < |settings| :: settings[i] == settings[1..][i - 1];
    }
  }

  /** A subcommand that is read as one, or none that could be. */
  predicate PlainSubcommand(subcommand: Option<string>, positionals: seq<string>) {
    match subcommand
    case Some(s) => !StartsWithDash(s)
    case None => positionals == [] || StartsWithDash(positionals[0])
  }

  lemma FinishExactly(command: string, subcommand: Option<string>, positionals: seq<string>, flags: Flags)
    ensures Finish(State(flags, Positionals(command, subcommand, positionals)))
                == Parsed(command, subcommand, positionals, flags)
            <==> PlainSubcommand(subcommand, positionals)
  {
    var all := Positionals(command, subcommand, positionals);
    match subcommand {
      case Some(s) =>
        assert all[1..] == [s] + positionals && all[1..][1..] == positionals;
      case None =>
        assert all[1..] == positionals;
        assert positionals != [] ==> |positionals[1..]| < |positionals|;
    }
  }

  predicate AllSettingsWritable(settings: seq<Setting>) {
    forall i | 0 <= i < |settings| :: Writable(settings[i].key, settings[i].value)
  }

  /** A setting that cannot be written is missing from what comes back. */
  lemma UnwritableIsLost(settings: seq<Setting>, words: seq<string>)
    requires DistinctSettings(settings) && !AllSettingsWritable(settings)
    ensures Scan(State(map[], []), SettingWords(settings) + ["--"] + words).flags != FlagsOf(map[], settings)
  {
    LineIsWritten(settings, words);
    OnlyWritableComesBack(State(map[], []), settings, words);
    FlagsOfAll(map[], settings);
    var i :| 0 <= i < |settings| && !Writable(settings[i].key, settings[i].value);
  }

  lemma WritableComesBack(settings: seq<Setting>, words: seq<string>)
    requires AllSettingsWritable(settings)
    ensures Scan(State(map[], []), SettingWords(settings) + ["--"] + words) == State(FlagsOf(map[], settings), words)
  {
    LineIsWritten(settings, words);
    WritableSettingsBack(State(map[], []), settings, words);
    assert [] + words == words;
  }

  lemma FinishKeepsFlags(s: State)
    ensures Finish(s).flags == s.flags
  {
  }

  /** Written arguments read back as they were exactly if every flag is writable and the subcommand is plain. */
  lemma ArgumentsComeBackExactly(settings: seq<Setting>, command: string, subcommand: Option<string>,
        positionals: seq<string>)
    requires DistinctSettings(settings)
    ensures Parse(Write(settings, command, subcommand, positionals))
              == Parsed(command, subcommand, positionals, FlagsOf(map[], settings))
            <==> AllSettingsWritable(settings) && PlainSubcommand(subcommand, positionals)
  {
    var words := Positionals(command, subcommand, positionals);
    var scanned := Scan(State(map[], []), SettingWords(settings) + ["--"] + words);
    if AllSettingsWritable(settings) {
      WritableComesBack(settings, words);
      FinishExactly(command, subcommand, positionals, FlagsOf(map[], settings));
    } else {
      UnwritableIsLost(settings, words);
      FinishKeepsFlags(scanned);
    }
  }

  /** Without any positional there is no command; the flags are read all the same. */
  lemma NoCommand(argv: seq<string>)
    requires Scan(State(map[], []), argv).positionals == []
    ensures Parse(argv) == Parsed("", None, [], Scan(State(map[], []), argv).flags)
  {
  }

  // ----- Words as people write them -----

  /** A word that can be the value of the flag before it: "-" or anything without a dash in front. */
  predicate CanBeValue(word: string) {
    word == "-" || word == "" || word[0] != '-'
  }

  /** `--key` or `-k`, and the key it sets; "-h" is no such word. */
  predicate NamesFlag(word: string, key: string) {
    || (word == "--" + key && key != "" && '=' !in key)
    || (word == "-" + key && |key| == 1 && key != "-" && key != "h" && key[0] as int < 0x10000)
  }

  lemma HeadOfFlag(word: string, key: string, rest: seq<string>)
    requires NamesFlag(word, key)
    ensures Head([word] + rest) == FlagToken(key, [word] + rest)
  {
    if word == "--" + key {
      SpanOf(word, "", c => c != '=');
      assert word + "" == word && word[2..] == key;
    } else {
      assert word[1..] == key;
    }
  }

  /** `--to alice`, `-t alice` and `-o -` take the next word as their value. */
  lemma NextWordIsValue(s: State, word: string, key: string, v: string, rest: seq<string>)
    requires NamesFlag(word, key) && CanBeValue(v)
    ensures Scan(s, [word, v] + rest) == Scan(s.(flags := Assign(s.flags, key, Given(v))), rest)
  {
    var argv := [word, v] + rest;
    assert argv == [word] + ([v] + rest);
    HeadOfFlag(word, key, [v] + rest);
    ScanOn(s, argv);
    assert argv[2..] == rest && argv[..2] == [word, v];
  }

  /** With another dashed word or nothing behind it, the flag is just on. */
  lemma FlagAloneIsOn(s: State, word: string, key: string, rest: seq<string>)
    requires NamesFlag(word, key) && (rest == [] || !CanBeValue(rest[0]))
    ensures Scan(s, [word] + rest) == Scan(s.(flags := Assign(s.flags, key, On)), rest)
  {
    var argv := [word] + rest;
    HeadOfFlag(word, key, rest);
    ScanOn(s, argv);
    assert argv[1..] == rest && argv[..1] == [word];
  }

  /** "-h" asks for help and never takes a value. */
  lemma HelpTakesNoValue(s: State, rest: seq<string>)
    ensures Scan(s, ["-h"] + rest) == Scan(s.(flags := s.flags["help" := On]), rest)
  {
    var argv := ["-h"] + rest;
    ScanOn(s, argv);
    assert argv[1..] == rest;
  }

  /** A word without a dash, "-" itself, and a dash with more than one unit behind it are positionals. */
  lemma OtherWordsArePositionals(s: State, word: string, rest: seq<string>)
    requires CanBeValue(word) || (|word| >= 2 && word[0] == '-' && word[1] != '-'
                                  && (|word| > 2 || word[1] as int >= 0x10000))
    ensures Scan(s, [word] + rest) == Scan(s.(positionals := s.positionals + [word]), rest)
  {
    var argv := [word] + rest;
    ScanOn(s, argv);
    assert argv[1..] == rest;
  }
}
