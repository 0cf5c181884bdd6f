/**
  The shell commands in the modeling prompt (modeling_plane/prompt.rs), read back by the shell's
  token recognition and by the option parser of the command line.
*/
module ShellQuote {
  import opened Text
  import opened CommandLine

  // ----- quoting -----------------------------------------------------------------------

  /** `value.replace('\'', "'\\''")`. */
  function EscapeQuotes(value: string): string {
    if value == "" then ""
    else (if value[0] == '\'' then "'\\''" else [value[0]]) + EscapeQuotes(value[1..])
  }

  /** `shell_quote_arg`: none for a blank value or one with a forbidden control character. */
  function ShellQuoteArg(value: string): Option<string> {
    if Blank(value) || '\0' in value || '\n' in value || '\r' in value then None
    else Some("'" + EscapeQuotes(value) + "'")
  }

  // ----- the shell -----------------------------------------------------------------------

  /**
    Characters that mean something to the shell outside quotes, other than a backslash, a single
    quote and blanks (POSIX.1-2017, Shell Command Language, sections 2.2 and 2.3).
  */
  const SPECIAL: set<char> := {
    '|', '&', ';', '<', '>', '(', ')', '$', '`', '"', '\n', '*', '?', '[', ']', '#', '~', '=', '%', '!', '{', '}', '\0' }

  predicate Special(c: char) { c in SPECIAL }

  function Append(word: Option<string>, text: string): Option<string> {
    Some((if word.Some? then word.value else "") + text)
  }

  /**
    Splits a line into words: blanks separate words (section 2.3), a backslash keeps the next
    character (2.2.1), single quotes keep everything between them (2.2.2). None for a line that
    ends inside quotes or needs any other rule of the shell.
  */
  function Words(line: string, word: Option<string>, quoted: bool): Option<seq<string>>
    decreases |line|
  {
    if line == "" then
      if quoted then None else Some(if word.Some? then [word.value] else [])
    else if quoted then
      if line[0] == '\'' then Words(line[1..], word, false)
      else if line[0] == '\0' then None
      else Words(line[1..], Append(word, [line[0]]), true)
    else if line[0] == '\'' then Words(line[1..], Append(word, ""), true)
    else if line[0] == '\\' then
      if |line| < 2 || line[1] in {'\n', '\0'} then None
      else Words(line[2..], Append(word, [line[1]]), false)
    else if line[0] in {' ', '\t'} then
      match Words(line[1..], None, false)
      case None => None
      case Some(rest) => Some((if word.Some? then [word.value] else []) + rest)
    else if Special(line[0]) then None
    else Words(line[1..], Append(word, [line[0]]), false)
  }

  lemma {:induction false} QuotedTextIsKept(value: string, word: string, line: string)
    requires '\0' !in value
    ensures Words(EscapeQuotes(value) + "'" + line, Some(word), true) == Words(line, Some(word + value), false)
    decreases |value|
  {
    hide Special;
    if value == "" {
      assert "" + "'" + line == "'" + line;
      assert ("'" + line)[1..] == line;
      assert word + value == word;
    } else {
      var rest := EscapeQuotes(value[1..]) + "'" + line;
      var text := EscapeQuotes(value) + "'" + line;
      assert value == [value[0]] + value[1..];
      assert word + [value[0]] + value[1..] == word + value;
      if value[0] == '\'' {
        assert text == "'\\''" + rest;
        assert text[0] == '\'' && text[1] == '\\' && text[2] == '\'' && text[3] == '\'';
        assert text[1..][2..] == text[3..] && text[3..][1..] == rest;
        assert word + "'" + "" == word + "'";
        assert Words(text, Some(word), true) == Words(text[1..], Some(word), false);
        assert Words(text[1..], Some(word), false) == Words(text[3..], Some(word + "'"), false);
        assert Words(text[3..], Some(word + "'"), false) == Words(rest, Some(word + "'"), true);
      } else {
        assert text == [value[0]] + rest && text[1..] == rest;
      }
      QuotedTextIsKept(value[1..], word + [value[0]], line);
    }
  }

  /** A quoted argument becomes one word, character by character. */
  lemma QuotedArgumentIsOneWord(value: string, line: string)
    requires ShellQuoteArg(value).Some?
    ensures Words(ShellQuoteArg(value).value + line, None, false) == Words(line, Some(value), false)
  {
    hide Blank, Special;
    var text := ShellQuoteArg(value).value + line;
    assert "" + "" == "";
    assert text == "'" + (EscapeQuotes(value) + "'" + line);
    assert text[1..] == EscapeQuotes(value) + "'" + line;
    QuotedTextIsKept(value, "", line);
    assert "" + value == value;
  }

  predicate Plain(text: string) {
    forall i :: 0 <= i < |text| ==> !Special(text[i]) && text[i] !in {'\'', '\\', ' ', '\t'}
  }

  lemma {:induction false} PlainTextIsKept(text: string, word: string, line: string)
    requires Plain(text)
    ensures Words(text + line, Some(word), false) == Words(line, Some(word + text), false)
    decreases |text|
  {
    hide Special;
    if text == "" {
      assert text + line == line && word + text == word;
    } else {
      assert (text + line)[1..] == text[1..] + line;
      assert word + [text[0]] + text[1..] == word + text;
      PlainTextIsKept(text[1..], word + [text[0]], line);
    }
  }

  lemma PlainWord(text: string, line: string)
    requires Plain(text) && text != ""
    ensures Words(text + line, None, false) == Words(line, Some(text), false)
  {
    hide Special;
    assert (text + line)[1..] == text[1..] + line;
    assert "" + [text[0]] == [text[0]];
    PlainTextIsKept(text[1..], [text[0]], line);
    assert [text[0]] + text[1..] == text;
  }

  // ----- commands --------------------------------------------------------------------------

  datatype Setting = Setting(key: string, value: string)

  predicate Quotable(settings: seq<Setting>) {
    forall i :: 0 <= i < |settings| ==> ShellQuoteArg(settings[i].value).Some?
  }

  /** ` --key 'value'` for every setting. */
  function Options(settings: seq<Setting>): string
    requires Quotable(settings)
  {
    if settings == [] then ""
    else " --" + settings[0].key + " " + ShellQuoteArg(settings[0].value).value + Options(settings[1..])
  }

  function WordsOf(settings: seq<Setting>): seq<string> {
    if settings == [] then [] else ["--" + settings[0].key, settings[0].value] + WordsOf(settings[1..])
  }

  predicate PlainKeys(settings: seq<Setting>) {
    forall i :: 0 <= i < |settings| ==> Plain(settings[i].key) && settings[i].key != ""
  }

  /** ` --key 'value'` ends the word before it and is two words. */
  lemma OptionIsTwoWords(setting: Setting, word: string, rest: string)
    requires ShellQuoteArg(setting.value).Some? && Plain(setting.key) && setting.key != ""
    ensures Words(" --" + setting.key + " " + ShellQuoteArg(setting.value).value + rest, Some(word), false)
            == match Words(rest, Some(setting.value), false)
               case None => None
               case Some(words) => Some([word, "--" + setting.key] + words)
  {
    var key, quoted := "--" + setting.key, ShellQuoteArg(setting.value).value;
    var line := " --" + setting.key + " " + quoted + rest;
    assert line[1..] == key + (" " + quoted + rest);
    DashesArePlain(setting.key);
    hide Special, Plain, ShellQuoteArg;
    PlainWord(key, " " + quoted + rest);
    assert (" " + quoted + rest)[1..] == quoted + rest;
    QuotedArgumentIsOneWord(setting.value, rest);
    var words := Words(rest, Some(setting.value), false);
    if words.Some? {
      assert [word] + ([key] + words.value) == [word, key] + words.value;
    }
  }

  lemma DashesArePlain(key: string)
    requires Plain(key)
    ensures Plain("--" + key)
  {
  }

  /** The shell reads the options back as they were. */
  lemma {:induction false} OptionsAreWords(settings: seq<Setting>, word: string)
    requires Quotable(settings) && PlainKeys(settings)
    ensures Words(Options(settings), Some(word), false) == Some([word] + WordsOf(settings))
  {
    if settings == [] {
      assert [word] + WordsOf(settings) == [word];
    } else {
      hide Words, ShellQuoteArg;
      OptionIsTwoWords(settings[0], word, Options(settings[1..]));
      OptionsAreWords(settings[1..], settings[0].value);
      assert [word, "--" + settings[0].key] + ([settings[0].value] + WordsOf(settings[1..]))
          == [word] + WordsOf(settings);
    }
  }

  /** A command line reaches the program as the name and its arguments. */
  lemma CommandIsWords(name: string, settings: seq<Setting>)
    requires Plain(name) && name != "" && Quotable(settings) && PlainKeys(settings)
    ensures Words(name + Options(settings), None, false) == Some([name] + WordsOf(settings))
  {
    PlainWord(name, Options(settings));
    OptionsAreWords(settings, name);
  }

  // ----- back through the option parser ---------------------------------------------------

  function ItemsOf(settings: seq<Setting>): seq<Item> {
    if settings == [] then [] else [Separate(settings[0].key, settings[0].value)] + ItemsOf(settings[1..])
  }

  predicate KeysOk(settings: seq<Setting>, used: set<string>) {
    settings != [] ==>
      && settings[0].key != "" && '=' !in settings[0].key
      && settings[0].key != "pretty" && settings[0].key != "json" && settings[0].key !in used
      && KeysOk(settings[1..], used + {settings[0].key})
  }

  function MapOf(settings: seq<Setting>, values: map<string, string>): map<string, string> {
    if settings == [] then values else MapOf(settings[1..], values[settings[0].key := settings[0].value])
  }

  /** The settings come back exactly when no value begins with two dashes. */
  lemma {:induction false} WordsParseIff(settings: seq<Setting>, values: map<string, string>)
    requires KeysOk(settings, values.Keys)
    ensures ParseFrom(WordsOf(settings), false, values, None) == Parsed(false, MapOf(settings, values))
            <==> forall i :: 0 <= i < |settings| ==> !StartsWith(settings[i].value, "--")
    ensures ParseFrom(WordsOf(settings), false, values, None).Parsed?
            <==> forall i :: 0 <= i < |settings| ==> !StartsWith(settings[i].value, "--")
  {
    if settings != [] {
      var key, value := settings[0].key, settings[0].value;
      var args := WordsOf(settings);
      SeparateKeyIsRead(key, false, values);
      assert args[1..] == [value] + WordsOf(settings[1..]);
      assert args[1..][1..] == WordsOf(settings[1..]);
      if StartsWith(value, "--") {
        assert Read(value, false, values, Some(key)) == Stopped(MissingValue(key));
        assert ParseFrom(args[1..], false, values, Some(key)) == Refused(MissingValue(key));
      } else {
        assert values[key := value].Keys == values.Keys + {key};
        WordsParseIff(settings[1..], values[key := value]);
        assert forall i :: 1 <= i < |settings| ==> settings[i] == settings[1..][i - 1];
      }
    }
  }

  // ----- the session-state command -----------------------------------------------------------

  /** What `render_modeling_turn_input` is given, as far as the session-state command depends on it. */
  datatype TurnInput =
    TurnInput(request: string, appDataDir: string, sessionId: string, runId: string, revisionId: Option<string>)

  /** The command in the turn input; none when the request is blank, the directory is not an absolute path or a value,
      the revision included, is refused. */
  function SessionStateCommand(input: TurnInput): Option<string> {
    var settings := SessionStateSettings(input.appDataDir, input.sessionId, input.runId);
    if !Blank(input.request) && StartsWith(input.appDataDir, "/") && Quotable(settings)
       && (input.revisionId.Some? ==> ShellQuoteArg(input.revisionId.value).Some?)
    then Some("cadgen-ax-session-state" + Options(settings)) else None
  }

  function SessionStateSettings(appDataDir: string, sessionId: string, runId: string): seq<Setting> {
    [Setting("app-data-dir", appDataDir), Setting("session", sessionId), Setting("run", runId)]
  }

  /** What the shell and then the option parser make of a line: the arguments after the name. */
  function ReadBack(line: string): Option<ParseResult> {
    match Words(line, None, false)
    case None => None
    case Some(words) => if words == [] then None else Some(Parse(words[1..]))
  }

  lemma AbsolutePathHasNoDashes(path: string)
    requires StartsWith(path, "/")
    ensures !StartsWith(path, "--")
  {
    assert "/"[0] != "--"[0];
  }

  /** Words of the command, and what the option parser makes of them. */
  lemma SettingsRoundTripIff(appDataDir: string, sessionId: string, runId: string)
    requires Quotable(SessionStateSettings(appDataDir, sessionId, runId))
    ensures var settings := SessionStateSettings(appDataDir, sessionId, runId);
            ReadBack("cadgen-ax-session-state" + Options(settings))
            == Some(Parsed(false, map["app-data-dir" := appDataDir, "session" := sessionId, "run" := runId]))
            <==> forall i :: 0 <= i < |settings| ==> !StartsWith(settings[i].value, "--")
  {
    hide Options, WordsOf, MapOf, Words, Parse, ParseFrom, Plain, PlainKeys, KeysOk, StartsWith, ShellQuoteArg;
    var settings := SessionStateSettings(appDataDir, sessionId, runId);
    KeysAreOk(appDataDir, sessionId, runId);
    CommandIsWords("cadgen-ax-session-state", settings);
    var none: map<string, string> := map[];
    assert none.Keys == {};
    WordsParseIff(settings, none);
    ParseIsParseFrom(WordsOf(settings));
    assert (["cadgen-ax-session-state"] + WordsOf(settings))[1..] == WordsOf(settings);
  }

  /** Through the shell and the option parser, the three values come back unchanged exactly when neither identifier
      begins with two dashes; the path is absolute and cannot. */
  lemma SessionStateRoundTripIff(input: TurnInput)
    requires SessionStateCommand(input).Some?
    ensures ReadBack(SessionStateCommand(input).value)
            == Some(Parsed(false, map["app-data-dir" := input.appDataDir, "session" := input.sessionId,
                                      "run" := input.runId]))
            <==> !StartsWith(input.sessionId, "--") && !StartsWith(input.runId, "--")
  {
    hide Options, ReadBack, StartsWith, ShellQuoteArg, Quotable;
    SettingsRoundTripIff(input.appDataDir, input.sessionId, input.runId);
    AbsolutePathHasNoDashes(input.appDataDir);
    ThreeValues(input.appDataDir, input.sessionId, input.runId);
  }

  lemma ThreeValues(appDataDir: string, sessionId: string, runId: string)
    ensures var settings := SessionStateSettings(appDataDir, sessionId, runId);
            (forall i :: 0 <= i < |settings| ==> !StartsWith(settings[i].value, "--"))
            <==> !StartsWith(appDataDir, "--") && !StartsWith(sessionId, "--") && !StartsWith(runId, "--")
  {
    hide StartsWith;
    var settings := SessionStateSettings(appDataDir, sessionId, runId);
    assert settings[0].value == appDataDir && settings[1].value == sessionId && settings[2].value == runId;
  }

  lemma ParseIsParseFrom(args: seq<string>)
    ensures Parse(args) == ParseFrom(args, false, map[], None)
  {
  }

  predicate Lowercase(text: string) {
    forall i :: 0 <= i < |text| ==> 'a' <= text[i] <= 'z' || text[i] == '-'
  }

  lemma LowercaseIsPlain(text: string)
    requires Lowercase(text)
    ensures Plain(text) && '=' !in text
  {
  }

  lemma KeysAreOk(appDataDir: string, sessionId: string, runId: string)
    ensures var settings := SessionStateSettings(appDataDir, sessionId, runId);
            && KeysOk(settings, {}) && PlainKeys(settings) && Plain("cadgen-ax-session-state")
            && MapOf(settings, map[]) == map["app-data-dir" := appDataDir, "session" := sessionId, "run" := runId]
  {
    hide Plain, Lowercase;
    KeysArePlain();
    var settings := SessionStateSettings(appDataDir, sessionId, runId);
    assert settings[0].key == "app-data-dir" && settings[1].key == "session" && settings[2].key == "run";
    forall i | 0 <= i < |settings| ensures Plain(settings[i].key) && settings[i].key != "" {
      assert i == 0 || i == 1 || i == 2;
    }
    var two, one := settings[1..], settings[1..][1..];
    assert two == [Setting("session", sessionId), Setting("run", runId)] && one == [Setting("run", runId)];
    assert one[1..] == [];
    assert {"app-data-dir"} + {"session"} == {"app-data-dir", "session"};
    assert {} + {"app-data-dir"} == {"app-data-dir"};
    var m1 := map["app-data-dir" := appDataDir];
    var m2 := m1["session" := sessionId];
    assert MapOf(settings, map[]) == MapOf(two, m1) == MapOf(one, m2) == m2["run" := runId];
    assert KeysOk(one, {"app-data-dir", "session"});
    assert KeysOk(two, {"app-data-dir"});
  }

  lemma KeysArePlain()
    ensures Plain("cadgen-ax-session-state")
    ensures Plain("app-data-dir") && '=' !in "app-data-dir"
    ensures Plain("session") && '=' !in "session"
    ensures Plain("run") && '=' !in "run"
  {
    hide Plain;
    LowercaseIsPlain("cadgen-ax-session-state");
    LowercaseIsPlain("app-data-dir");
    LowercaseIsPlain("session");
    LowercaseIsPlain("run");
  }

  /** Neither blank nor with a NUL or a line break. */
  predicate Allowed(value: string) {
    (exists i :: 0 <= i < |value| && value[i] !in WHITE_SPACE) && '\0' !in value && '\n' !in value && '\r' !in value
  }

  lemma QuotedIffAllowed(value: string)
    ensures ShellQuoteArg(value).Some? <==> Allowed(value)
  {
  }

  /** The command exists exactly for allowed values: a quote, a dollar sign or any other character is no obstacle. */
  lemma CommandExistsIff(input: TurnInput)
    ensures SessionStateCommand(input).Some?
            <==> && !Blank(input.request) && StartsWith(input.appDataDir, "/")
                 && Allowed(input.appDataDir) && Allowed(input.sessionId) && Allowed(input.runId)
                 && (input.revisionId.Some? ==> Allowed(input.revisionId.value))
  {
    var TurnInput(_, appDataDir, sessionId, runId, revisionId) := input;
    if revisionId.Some? {
      QuotedIffAllowed(revisionId.value);
    }
    QuotedIffAllowed(appDataDir);
    QuotedIffAllowed(sessionId);
    QuotedIffAllowed(runId);
    var settings := SessionStateSettings(appDataDir, sessionId, runId);
    QuotableMeans(settings, appDataDir, sessionId, runId);
    hide Allowed, ShellQuoteArg, SessionStateSettings, Quotable;
  }

  lemma QuotableMeans(settings: seq<Setting>, appDataDir: string, sessionId: string, runId: string)
    requires settings == SessionStateSettings(appDataDir, sessionId, runId)
    ensures Quotable(settings)
            <==> ShellQuoteArg(appDataDir).Some? && ShellQuoteArg(sessionId).Some? && ShellQuoteArg(runId).Some?
  {
    hide ShellQuoteArg;
    assert settings[0].value == appDataDir && settings[1].value == sessionId && settings[2].value == runId;
  }
}
