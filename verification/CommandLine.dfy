/** The option parser of the command line (cli/support.rs, `parse_args`). */
module CommandLine {
  import opened Text

  datatype ArgError =
    | MissingValue(key: string)
    | DuplicateOption(key: string)
    | InvalidOption(arg: string)
    | EmptyOption
    | PositionalArgument(arg: string)

  datatype ParseResult = Parsed(pretty: bool, values: map<string, string>) | Refused(error: ArgError)

  predicate StartsWith(text: string, prefix: string) {
    |prefix| <= |text| && text[..|prefix|] == prefix
  }

  /** Rust's `split_once` for one character. */
  function SplitOnce(text: string, at: char): Option<(string, string)> {
    if text == "" then None
    else if text[0] == at then Some(("", text[1..]))
    else match SplitOnce(text[1..], at)
      case None => None
      case Some((before, after)) => Some(([text[0]] + before, after))
  }

  /** What one turn of the loop leaves: its three variables, or an error. */
  datatype Progress = Going(pretty: bool, values: map<string, string>, pending: Option<string>) | Stopped(error: ArgError)

  function Insert(pretty: bool, values: map<string, string>, key: string, value: string): Progress {
    if key in values then Stopped(DuplicateOption(key)) else Going(pretty, values[key := value], None)
  }

  function Read(arg: string, pretty: bool, values: map<string, string>, pending: Option<string>): Progress {
    match pending
    case Some(key) =>
      if StartsWith(arg, "--") then Stopped(MissingValue(key)) else Insert(pretty, values, key, arg)
    case None =>
      if arg == "--pretty" then Going(true, values, None)
      else if arg == "--json" then Going(pretty, values, None)
      else if StartsWith(arg, "--") then
        match SplitOnce(arg[2..], '=')
        case Some((key, value)) =>
          if key == "" || value == "" then Stopped(InvalidOption(arg)) else Insert(pretty, values, key, value)
        case None =>
          if arg[2..] == "" then Stopped(EmptyOption) else Going(pretty, values, Some(arg[2..]))
      else Stopped(PositionalArgument(arg))
  }

  function ParseFrom(args: seq<string>, pretty: bool, values: map<string, string>, pending: Option<string>): ParseResult {
    if args == [] then
      match pending
      case Some(key) => Refused(MissingValue(key))
      case None => Parsed(pretty, values)
    else
      match Read(args[0], pretty, values, pending)
      case Stopped(error) => Refused(error)
      case Going(p, v, k) => ParseFrom(args[1..], p, v, k)
  }

  function Parse(args: seq<string>): ParseResult {
    ParseFrom(args, false, map[], None)
  }

  /** `parse_args`. */
  method ParseArgs(args: seq<string>) returns (result: ParseResult)
    ensures result == Parse(args)
  {
    var pretty, values, pending := false, map[], None;
    var i := 0;
    while i < |args|
      invariant 0 <= i <= |args|
      invariant Parse(args) == ParseFrom(args[i..], pretty, values, pending)
    {
      assert args[i..][1..] == args[i + 1..];
      var arg := args[i];
      if pending.Some? {
        var key := pending.value;
        pending := None;
        if StartsWith(arg, "--") {
          return Refused(MissingValue(key));
        }
        if key in values {
          return Refused(DuplicateOption(key));
        }
        values := values[key := arg];
      } else if arg == "--pretty" {
        pretty := true;
      } else if arg == "--json" {
        // JSON is the default.
      } else if StartsWith(arg, "--") {
        var rest := arg[2..];
        var split := SplitOnce(rest, '=');
        if split.Some? {
          var (key, value) := split.value;
          if key == "" || value == "" {
            return Refused(InvalidOption(arg));
          }
          if key in values {
            return Refused(DuplicateOption(key));
          }
          values := values[key := value];
        } else if rest == "" {
          return Refused(EmptyOption);
        } else {
          pending := Some(rest);
        }
      } else {
        return Refused(PositionalArgument(arg));
      }
      i := i + 1;
    }
    if pending.Some? {
      return Refused(MissingValue(pending.value));
    }
    result := Parsed(pretty, values);
  }

  // ----- the language that is accepted -------------------------------------------------

  /** One option as a caller writes it: `--pretty`, `--json`, `--key value` or `--key=value`. */
  datatype Item = PrettyFlag | JsonFlag | Separate(key: string, value: string) | Joined(key: string, value: string)

  function PrintItem(item: Item): seq<string> {
    match item
    case PrettyFlag => ["--pretty"]
    case JsonFlag => ["--json"]
    case Separate(key, value) => ["--" + key, value]
    case Joined(key, value) => ["--" + key + "=" + value]
  }

  function Print(items: seq<Item>): seq<string> {
    if items == [] then [] else PrintItem(items[0]) + Print(items[1..])
  }

  predicate HasKey(item: Item) { item.Separate? || item.Joined? }

  predicate ItemOk(item: Item) {
    && (HasKey(item) ==> item.key != "" && '=' !in item.key)
    && (item.Separate? ==> item.key != "pretty" && item.key != "json" && !StartsWith(item.value, "--"))
    && (item.Joined? ==> item.value != "")
  }

  /** Well-formed options, none of which repeats a key of another or of `used`. */
  predicate WellFormed(items: seq<Item>, used: set<string>) {
    items != [] ==>
      && ItemOk(items[0])
      && (HasKey(items[0]) ==> items[0].key !in used)
      && WellFormed(items[1..], if HasKey(items[0]) then used + {items[0].key} else used)
  }

  function Meaning(items: seq<Item>, values: map<string, string>): map<string, string> {
    if items == [] then values
    else Meaning(items[1..], if HasKey(items[0]) then values[items[0].key := items[0].value] else values)
  }

  lemma {:induction false} SplitFindsTheFirst(before: string, after: string, at: char)
    requires at !in before
    ensures SplitOnce(before + [at] + after, at) == Some((before, after))
  {
    if before != "" {
      SplitFindsTheFirst(before[1..], after, at);
      assert (before + [at] + after)[1..] == before[1..] + [at] + after;
      assert before == [before[0]] + before[1..];
    }
  }

  lemma {:induction false} SplitMeans(text: string, at: char)
    ensures SplitOnce(text, at).None? <==> at !in text
    ensures SplitOnce(text, at).Some? ==>
              var (before, after) := SplitOnce(text, at).value; text == before + [at] + after && at !in before
  {
    if text != "" {
      SplitMeans(text[1..], at);
      assert text == [text[0]] + text[1..];
    }
  }

  /** Reading the words of one well-formed option. */
  lemma ItemIsRead(item: Item, rest: seq<string>, pretty: bool, values: map<string, string>)
    requires ItemOk(item) && (HasKey(item) ==> item.key !in values)
    ensures ParseFrom(PrintItem(item) + rest, pretty, values, None)
            == ParseFrom(rest, pretty || item.PrettyFlag?,
                         if HasKey(item) then values[item.key := item.value] else values, None)
  {
    var args := PrintItem(item) + rest;
    match item
    case PrettyFlag => assert args[1..] == rest;
    case JsonFlag => assert args[1..] == rest;
    case Separate(key, value) =>
      assert args[0] == "--" + key && args[1..] == [value] + rest;
      assert ([value] + rest)[1..] == rest;
      SeparateKeyIsRead(key, pretty, values);
    case Joined(key, value) =>
      assert args[0] == "--" + key + "=" + value && args[1..] == rest;
      JoinedIsRead(key, value, pretty, values);
  }

  lemma SeparateKeyIsRead(key: string, pretty: bool, values: map<string, string>)
    requires ItemOk(Separate(key, ""))
    ensures Read("--" + key, pretty, values, None) == Going(pretty, values, Some(key))
  {
    var arg := "--" + key;
    assert arg[2..] == key && arg[..2] == "--";
    assert "--pretty"[2..] == "pretty" && "--json"[2..] == "json";
    SplitMeans(key, '=');
  }

  lemma JoinedIsRead(key: string, value: string, pretty: bool, values: map<string, string>)
    requires ItemOk(Joined(key, value)) && key !in values
    ensures Read("--" + key + "=" + value, pretty, values, None) == Going(pretty, values[key := value], None)
  {
    var arg := "--" + key + "=" + value;
    assert arg[2..] == key + ['='] + value && arg[..2] == "--";
    assert arg[2 + |key|] == '=';
    SplitFindsTheFirst(key, value, '=');
  }

  /** Well-formed options mean what they say. */
  lemma {:induction false} PrintedOptionsParse(items: seq<Item>, pretty: bool, values: map<string, string>)
    requires WellFormed(items, values.Keys)
    ensures ParseFrom(Print(items), pretty, values, None)
            == Parsed(pretty || PrettyFlag in items, Meaning(items, values))
  {
    if items != [] {
      var item := items[0];
      var values' := if HasKey(item) then values[item.key := item.value] else values;
      ItemIsRead(item, Print(items[1..]), pretty, values);
      assert values'.Keys == (if HasKey(item) then values.Keys + {item.key} else values.Keys);
      PrintedOptionsParse(items[1..], pretty || item.PrettyFlag?, values');
      assert items == [item] + items[1..];
    }
  }

  /** Nothing else is accepted. */
  lemma {:induction false} ParsedArgsArePrinted(args: seq<string>, pretty: bool, values: map<string, string>)
    returns (items: seq<Item>)
    requires ParseFrom(args, pretty, values, None).Parsed?
    ensures WellFormed(items, values.Keys) && Print(items) == args
    decreases |args|
  {
    if args == [] {
      return [];
    }
    var item, n := FirstItem(args, pretty, values);
    var values' := if HasKey(item) then values[item.key := item.value] else values;
    ItemIsRead(item, args[n..], pretty, values);
    assert PrintItem(item) + args[n..] == args;
    var rest := ParsedArgsArePrinted(args[n..], pretty || item.PrettyFlag?, values');
    assert values'.Keys == (if HasKey(item) then values.Keys + {item.key} else values.Keys);
    items := [item] + rest;
    assert items[1..] == rest;
  }

  lemma FirstItem(args: seq<string>, pretty: bool, values: map<string, string>) returns (item: Item, n: nat)
    requires args != [] && ParseFrom(args, pretty, values, None).Parsed?
    ensures 1 <= n <= |args| && PrintItem(item) == args[..n]
    ensures ItemOk(item) && (HasKey(item) ==> item.key !in values)
  {
    hide SplitOnce, StartsWith, ItemOk, ParseFrom, Read;
    AcceptedWord(args, pretty, values);
    var arg := args[0];
    n := 1;
    assert args[..1] == [arg];
    if arg == "--pretty" || arg == "--json" {
      item := FlagItem(arg);
    } else if SplitOnce(arg[2..], '=').Some? {
      item := JoinedItem(arg, pretty, values);
    } else {
      item := SeparateItem(args, pretty, values);
      n := 2;
      assert args[..2] == [arg, args[1]];
    }
  }

  /** The first word is a flag or an option that is read without an error. */
  lemma AcceptedWord(args: seq<string>, pretty: bool, values: map<string, string>)
    requires args != [] && ParseFrom(args, pretty, values, None).Parsed?
    ensures Read(args[0], pretty, values, None).Going?
    ensures Read(args[0], pretty, values, None).pending.Some? ==>
              |args| >= 2 && Read(args[1], pretty, values, Read(args[0], pretty, values, None).pending).Going?
    ensures args[0] != "--pretty" && args[0] != "--json" ==> |args[0]| >= 2 && StartsWith(args[0], "--")
  {
    hide SplitOnce;
    if |args| >= 2 {
      assert args[1..][0] == args[1];
    }
  }

  lemma FlagItem(arg: string) returns (item: Item)
    requires arg == "--pretty" || arg == "--json"
    ensures PrintItem(item) == [arg] && ItemOk(item) && !HasKey(item)
  {
    item := if arg == "--pretty" then PrettyFlag else JsonFlag;
  }

  lemma JoinedItem(arg: string, pretty: bool, values: map<string, string>) returns (item: Item)
    requires arg != "--pretty" && arg != "--json" && StartsWith(arg, "--") && SplitOnce(arg[2..], '=').Some?
    requires Read(arg, pretty, values, None).Going?
    ensures PrintItem(item) == [arg] && ItemOk(item) && item.Joined? && item.key !in values
  {
    hide SplitOnce;
    assert arg == "--" + arg[2..];
    SplitMeans(arg[2..], '=');
    var (key, value) := SplitOnce(arg[2..], '=').value;
    item := Joined(key, value);
    assert arg == "--" + key + "=" + value;
  }

  lemma SeparateItem(args: seq<string>, pretty: bool, values: map<string, string>) returns (item: Item)
    requires args != []
    requires args[0] != "--pretty" && args[0] != "--json" && StartsWith(args[0], "--") && SplitOnce(args[0][2..], '=').None?
    requires Read(args[0], pretty, values, None).Going?
    requires Read(args[0], pretty, values, None).pending.Some? ==>
               |args| >= 2 && Read(args[1], pretty, values, Read(args[0], pretty, values, None).pending).Going?
    ensures |args| >= 2 && PrintItem(item) == [args[0], args[1]]
    ensures ItemOk(item) && item.Separate? && item.key !in values
  {
    hide SplitOnce;
    var key := args[0][2..];
    assert args[0] == "--" + key;
    SplitMeans(key, '=');
    assert Read(args[0], pretty, values, None).pending == Some(key);
    item := Separate(key, args[1]);
  }

  /** The words that are accepted are exactly the well-formed options. */
  lemma AcceptedIff(args: seq<string>)
    ensures Parse(args).Parsed? <==> exists items :: WellFormed(items, {}) && Print(items) == args
  {
    var none: map<string, string> := map[];
    assert none.Keys == {};
    if Parse(args).Parsed? {
      var items := ParsedArgsArePrinted(args, false, none);
      assert WellFormed(items, {}) && Print(items) == args;
    }
    forall items | WellFormed(items, {}) && Print(items) == args ensures Parse(args).Parsed? {
      PrintedOptionsParse(items, false, none);
    }
  }

  // ----- what is refused, and why -----------------------------------------------------------

  /** `--key` announces a value in the next word. */
  predicate Announces(word: string, key: string) {
    word == "--" + key && key != "" && '=' !in key && key != "pretty" && key != "json"
  }

  predicate Joins(word: string, key: string, value: string) {
    word == "--" + key + "=" + value && '=' !in key
  }

  /** The words begin with a mistake, after options that set the keys `used`. */
  ghost predicate Mistake(words: seq<string>, used: set<string>, error: ArgError) {
    && words != []
    && match error
       case MissingValue(key) => Announces(words[0], key) && (|words| == 1 || StartsWith(words[1], "--"))
       case DuplicateOption(key) =>
         && key in used
         && ((Announces(words[0], key) && |words| > 1 && !StartsWith(words[1], "--"))
             || exists value :: Joins(words[0], key, value) && key != "" && value != "")
       case InvalidOption(arg) =>
         arg == words[0] && exists key, value :: Joins(arg, key, value) && (key == "" || value == "")
       case EmptyOption => words[0] == "--"
       case PositionalArgument(arg) => arg == words[0] && !StartsWith(arg, "--")
  }

  lemma AnnouncedIsRead(word: string, key: string, pretty: bool, values: map<string, string>)
    requires StartsWith(word, "--") && word != "--pretty" && word != "--json"
    ensures SplitOnce(word[2..], '=').None? <==> '=' !in word[2..]
    ensures word == "--" + word[2..]
    ensures Announces(word, key) <==> key == word[2..] && key != "" && '=' !in key
    ensures Announces(word, key) ==> Read(word, pretty, values, None) == Going(pretty, values, Some(key))
  {
    SplitMeans(word[2..], '=');
    hide SplitOnce;
    assert ("--" + key)[2..] == key;
    assert "--pretty"[2..] == "pretty" && "--json"[2..] == "json";
  }

  lemma NotTheFlags(key: string)
    ensures Announces("--" + key, key) ==> "--" + key != "--pretty" && "--" + key != "--json"
    ensures StartsWith("--" + key, "--")
  {
    assert ("--" + key)[2..] == key && ("--" + key)[..2] == "--";
    assert "--pretty"[2..] == "pretty" && "--json"[2..] == "json";
  }

  lemma JoinedWord(word: string, key: string, value: string)
    requires Joins(word, key, value)
    ensures StartsWith(word, "--") && word != "--pretty" && word != "--json"
    ensures SplitOnce(word[2..], '=') == Some((key, value))
  {
    assert word[2..] == key + ['='] + value && word[..2] == "--";
    assert word[2 + |key|] == '=';
    SplitFindsTheFirst(key, value, '=');
  }

  /** The mistake is reported. */
  lemma MistakeIsRefused(words: seq<string>, pretty: bool, values: map<string, string>, error: ArgError)
    requires Mistake(words, values.Keys, error)
    ensures ParseFrom(words, pretty, values, None) == Refused(error)
  {
    hide SplitOnce, StartsWith;
    match error
    case MissingValue(key) => AnnouncedMistake(words, key, pretty, values);
    case DuplicateOption(key) =>
      if Announces(words[0], key) && |words| > 1 && !StartsWith(words[1], "--") {
        AnnouncedMistake(words, key, pretty, values);
      } else {
        var value :| Joins(words[0], key, value) && key != "" && value != "";
        JoinedWord(words[0], key, value);
      }
    case InvalidOption(arg) =>
      var key, value :| Joins(arg, key, value) && (key == "" || value == "");
      JoinedWord(arg, key, value);
    case EmptyOption =>
      NothingAfterTheDashes();
    case PositionalArgument(arg) =>
      FlagsStartWithDashes();
  }

  lemma AnnouncedMistake(words: seq<string>, key: string, pretty: bool, values: map<string, string>)
    requires words != [] && Announces(words[0], key)
    ensures |words| == 1 || StartsWith(words[1], "--") ==>
              ParseFrom(words, pretty, values, None) == Refused(MissingValue(key))
    ensures |words| > 1 && !StartsWith(words[1], "--") && key in values ==>
              ParseFrom(words, pretty, values, None) == Refused(DuplicateOption(key))
  {
    NotTheFlags(key);
    AnnouncedIsRead(words[0], key, pretty, values);
    hide SplitOnce, StartsWith;
    var rest := words[1..];
    assert ParseFrom(words, pretty, values, None) == ParseFrom(rest, pretty, values, Some(key));
    if |words| > 1 {
      assert rest[0] == words[1];
    }
  }

  lemma NothingAfterTheDashes()
    ensures "--"[2..] == "" && SplitOnce("", '=').None? && StartsWith("--", "--")
  {
  }

  lemma FlagsStartWithDashes()
    ensures StartsWith("--pretty", "--") && StartsWith("--json", "--")
  {
  }

  /** Options before the rest of the words are read as they stand. */
  lemma {:induction false} OptionsAreReadFirst(items: seq<Item>, rest: seq<string>, pretty: bool, values: map<string, string>)
    requires WellFormed(items, values.Keys)
    ensures ParseFrom(Print(items) + rest, pretty, values, None)
            == ParseFrom(rest, pretty || PrettyFlag in items, Meaning(items, values), None)
  {
    if items == [] {
      assert Print(items) + rest == rest;
    } else {
      var item := items[0];
      var values' := if HasKey(item) then values[item.key := item.value] else values;
      ItemIsRead(item, Print(items[1..]) + rest, pretty, values);
      assert Print(items) + rest == PrintItem(item) + (Print(items[1..]) + rest);
      assert values'.Keys == (if HasKey(item) then values.Keys + {item.key} else values.Keys);
      OptionsAreReadFirst(items[1..], rest, pretty || item.PrettyFlag?, values');
      assert items == [item] + items[1..];
    }
  }

  /** The first word is a mistake, or begins an option. */
  lemma FirstWord(args: seq<string>, pretty: bool, values: map<string, string>) returns (item: Option<Item>, n: nat)
    requires args != [] && ParseFrom(args, pretty, values, None).Refused?
    ensures item.Some? ==>
              && 1 <= n <= |args| && PrintItem(item.value) == args[..n]
              && ItemOk(item.value) && (HasKey(item.value) ==> item.value.key !in values)
    ensures item.None? ==> Mistake(args, values.Keys, ParseFrom(args, pretty, values, None).error)
  {
    var word := args[0];
    assert args[..1] == [word];
    FlagsStartWithDashes();
    hide SplitOnce, StartsWith, ParseFrom;
    item, n := None, 1;
    if word == "--pretty" || word == "--json" {
      var flag := FlagItem(word);
      item := Some(flag);
    } else if !StartsWith(word, "--") {
      MistakeIsRefused(args, pretty, values, PositionalArgument(word));
    } else if SplitOnce(word[2..], '=').Some? {
      item := FirstJoined(args, pretty, values);
    } else if word == "--" {
      MistakeIsRefused(args, pretty, values, EmptyOption);
    } else {
      item := FirstSeparate(args, pretty, values);
      n := if item.Some? then 2 else 1;
    }
  }

  lemma FirstJoined(args: seq<string>, pretty: bool, values: map<string, string>) returns (item: Option<Item>)
    requires args != [] && ParseFrom(args, pretty, values, None).Refused?
    requires StartsWith(args[0], "--") && args[0] != "--pretty" && args[0] != "--json" && SplitOnce(args[0][2..], '=').Some?
    ensures item.Some? ==> PrintItem(item.value) == [args[0]] && ItemOk(item.value) && item.value.Joined? && item.value.key !in values
    ensures item.None? ==> Mistake(args, values.Keys, ParseFrom(args, pretty, values, None).error)
  {
    var word := args[0];
    var key, value := JoinedParts(word);
    hide SplitOnce, StartsWith, ParseFrom, Joins;
    if key == "" || value == "" {
      JoinedMistakes(args, values.Keys, key, value);
      MistakeIsRefused(args, pretty, values, InvalidOption(word));
      item := None;
    } else if key in values {
      JoinedMistakes(args, values.Keys, key, value);
      MistakeIsRefused(args, pretty, values, DuplicateOption(key));
      item := None;
    } else {
      JoinedIsAnItem(word, key, value);
      item := Some(Joined(key, value));
    }
  }

  lemma JoinedParts(word: string) returns (key: string, value: string)
    requires StartsWith(word, "--") && SplitOnce(word[2..], '=').Some?
    ensures Joins(word, key, value)
  {
    SplitMeans(word[2..], '=');
    hide SplitOnce;
    key, value := SplitOnce(word[2..], '=').value.0, SplitOnce(word[2..], '=').value.1;
    assert word == "--" + word[2..];
    assert word == "--" + key + "=" + value;
  }

  lemma JoinedMistakes(args: seq<string>, used: set<string>, key: string, value: string)
    requires args != [] && Joins(args[0], key, value)
    ensures key == "" || value == "" ==> Mistake(args, used, InvalidOption(args[0]))
    ensures key != "" && value != "" && key in used ==> Mistake(args, used, DuplicateOption(key))
  {
    hide Joins, Announces, StartsWith;
  }

  lemma JoinedIsAnItem(word: string, key: string, value: string)
    requires Joins(word, key, value) && key != "" && value != ""
    ensures PrintItem(Joined(key, value)) == [word] && ItemOk(Joined(key, value))
  {
  }

  lemma FirstSeparate(args: seq<string>, pretty: bool, values: map<string, string>) returns (item: Option<Item>)
    requires args != [] && ParseFrom(args, pretty, values, None).Refused?
    requires StartsWith(args[0], "--") && args[0] != "--pretty" && args[0] != "--json" && args[0] != "--"
    requires SplitOnce(args[0][2..], '=').None?
    ensures item.Some? ==> |args| >= 2 && PrintItem(item.value) == args[..2] && ItemOk(item.value) && item.value.Separate?
                           && item.value.key !in values
    ensures item.None? ==> Mistake(args, values.Keys, ParseFrom(args, pretty, values, None).error)
  {
    var word := args[0];
    var key := word[2..];
    AnnouncedIsRead(word, key, pretty, values);
    assert word == "--" + key;
    assert Announces(word, key);
    hide SplitOnce, StartsWith, ParseFrom;
    if |args| == 1 || StartsWith(args[1], "--") {
      MistakeIsRefused(args, pretty, values, MissingValue(key));
      item := None;
    } else if key in values {
      MistakeIsRefused(args, pretty, values, DuplicateOption(key));
      item := None;
    } else {
      item := Some(Separate(key, args[1]));
      assert args[..2] == [word, args[1]];
    }
  }

  /** What is refused is a list of well-formed options and then the mistake that is reported. */
  lemma {:induction false} RefusedHasMistake(args: seq<string>, pretty: bool, values: map<string, string>)
    returns (items: seq<Item>, words: seq<string>)
    requires ParseFrom(args, pretty, values, None).Refused?
    ensures WellFormed(items, values.Keys) && args == Print(items) + words
    ensures Mistake(words, Meaning(items, values).Keys, ParseFrom(args, pretty, values, None).error)
    decreases |args|
  {
    var item, n := FirstWord(args, pretty, values);
    if item.None? {
      items, words := [], args;
    } else {
      var first := item.value;
      var values' := if HasKey(first) then values[first.key := first.value] else values;
      assert PrintItem(first) + args[n..] == args;
      ItemIsRead(first, args[n..], pretty, values);
      var rest, tail := RefusedHasMistake(args[n..], pretty || first.PrettyFlag?, values');
      assert values'.Keys == (if HasKey(first) then values.Keys + {first.key} else values.Keys);
      items, words := [first] + rest, tail;
      assert items[1..] == rest;
      hide Mistake, ParseFrom;
    }
  }

  ghost predicate FailsAt(args: seq<string>, items: seq<Item>, words: seq<string>, error: ArgError) {
    WellFormed(items, {}) && args == Print(items) + words && Mistake(words, Meaning(items, map[]).Keys, error)
  }

  /** The words are refused with an error exactly if they are well-formed options up to a mistake of that kind. */
  lemma RefusedIff(args: seq<string>, error: ArgError)
    ensures Parse(args) == Refused(error) <==> exists items, words :: FailsAt(args, items, words, error)
  {
    var none: map<string, string> := map[];
    assert none.Keys == {};
    hide Mistake, ParseFrom;
    if Parse(args) == Refused(error) {
      var items, words := RefusedHasMistake(args, false, none);
      assert FailsAt(args, items, words, error);
    }
    forall items, words | FailsAt(args, items, words, error) ensures Parse(args) == Refused(error) {
      OptionsAreReadFirst(items, words, false, none);
      MistakeIsRefused(words, false || PrettyFlag in items, Meaning(items, none), error);
    }
  }

  /** The values of well-formed options: each key has the value of the one option that sets it. */
  lemma {:induction false} MeaningIs(items: seq<Item>, values: map<string, string>, key: string, value: string)
    requires WellFormed(items, values.Keys)
    ensures key in Meaning(items, values) && Meaning(items, values)[key] == value <==>
            || (key in values && values[key] == value)
            || (exists i :: 0 <= i < |items| && HasKey(items[i]) && items[i].key == key && items[i].value == value)
  {
    if items != [] {
      var item := items[0];
      var values' := if HasKey(item) then values[item.key := item.value] else values;
      assert values'.Keys == (if HasKey(item) then values.Keys + {item.key} else values.Keys);
      MeaningIs(items[1..], values', key, value);
      assert items == [item] + items[1..];
      hide WellFormed, Meaning;
    }
  }
}
