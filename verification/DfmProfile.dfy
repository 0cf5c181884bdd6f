/**
  The profile editor (ui/src/dfmProfile.ts): parsing a slicer profile and replacing one setting in its text.
  Whether a `bed_shape` value can be read as coordinates is a parameter.
*/
module DfmProfile {
  import opened Text

  datatype Entry = Entry(key: string, value: string)

  datatype ProfileError =
    | ExpectedKeyValue(line: nat)
    | InvalidKey(line: nat, key: string)
    | DuplicateKey(line: nat, key: string)
    | BadBedShape(line: nat)
    | MissingSetting(key: string)
    | EmptySetting(key: string)

  datatype SyntaxResult = SyntaxResult(entries: seq<Entry>, errors: seq<ProfileError>)

  const BED_SHAPE := "bed_shape"

  const REQUIRED: seq<string> :=
    ["printer_technology", "nozzle_diameter", "filament_diameter", "layer_height", "gcode_flavor"]

  // ----- text ---------------------------------------------------------------------------

  /** What JavaScript's `trim` removes: white space and line terminators of ECMAScript. */
  const JS_SPACE: set<char> := {
    '\t', '\n', '\U{0B}', '\U{0C}', '\r', ' ', '\U{A0}', '\U{1680}',
    '\U{2000}', '\U{2001}', '\U{2002}', '\U{2003}', '\U{2004}', '\U{2005}', '\U{2006}',
    '\U{2007}', '\U{2008}', '\U{2009}', '\U{200A}', '\U{2028}', '\U{2029}', '\U{202F}',
    '\U{205F}', '\U{3000}', '\U{FEFF}' }

  predicate IsSpace(c: char) { c in JS_SPACE }

  function TrimStart(text: string): string {
    if text != "" && IsSpace(text[0]) then TrimStart(text[1..]) else text
  }

  function TrimEnd(text: string): string {
    if text != "" && IsSpace(text[|text| - 1]) then TrimEnd(text[..|text| - 1]) else text
  }

  function Trim(text: string): string { TrimEnd(TrimStart(text)) }

  /** `replace(/\r\n?/g, "\n")`. */
  function NormalizeBreaks(text: string): string {
    if text == "" then ""
    else if text[0] == '\r' then
      "\n" + NormalizeBreaks(if |text| > 1 && text[1] == '\n' then text[2..] else text[1..])
    else [text[0]] + NormalizeBreaks(text[1..])
  }

  /** `split("\n")`. */
  function Split(text: string): (lines: seq<string>)
    ensures lines != []
  {
    if text == "" then [""]
    else
      var rest := Split(text[1..]);
      if text[0] == '\n' then [""] + rest else [[text[0]] + rest[0]] + rest[1..]
  }

  /** `join("\n")`. */
  function Join(lines: seq<string>): string
    requires lines != []
  {
    if |lines| == 1 then lines[0] else lines[0] + "\n" + Join(lines[1..])
  }

  function LinesOf(contents: string): seq<string> { Split(NormalizeBreaks(contents)) }

  predicate OneLine(text: string) { '\n' !in text && '\r' !in text }

  lemma {:induction false} NoReturnsLeft(text: string)
    ensures '\r' !in NormalizeBreaks(text)
    decreases |text|
  {
    if text != "" {
      NoReturnsLeft(if text[0] == '\r' && |text| > 1 && text[1] == '\n' then text[2..] else text[1..]);
    }
  }

  lemma {:induction false} NothingToNormalize(text: string)
    requires '\r' !in text
    ensures NormalizeBreaks(text) == text
  {
    if text != "" {
      NothingToNormalize(text[1..]);
      assert text == [text[0]] + text[1..];
    }
  }

  lemma {:induction false} SplitGivesLines(text: string)
    requires '\r' !in text
    ensures forall i :: 0 <= i < |Split(text)| ==> OneLine(Split(text)[i])
  {
    if text != "" {
      SplitGivesLines(text[1..]);
    }
  }

  lemma {:induction false} SplitUndoesJoin(lines: seq<string>)
    requires lines != [] && forall i :: 0 <= i < |lines| ==> OneLine(lines[i])
    ensures Split(Join(lines)) == lines && '\r' !in Join(lines)
    decreases |lines|, |lines[0]|
  {
    var first := lines[0];
    if first == "" {
      if |lines| > 1 {
        SplitUndoesJoin(lines[1..]);
        assert Join(lines) == "\n" + Join(lines[1..]);
        assert Join(lines)[1..] == Join(lines[1..]);
        assert lines == [""] + lines[1..];
      }
    } else {
      var shorter := lines[0 := first[1..]];
      assert first == [first[0]] + first[1..];
      assert OneLine(first[1..]);
      SplitUndoesJoin(shorter);
      assert shorter[1..] == lines[1..];
      assert Join(lines) == [first[0]] + Join(shorter);
      assert Join(lines)[1..] == Join(shorter);
      assert lines == [first] + lines[1..];
    }
  }

  // ----- lines -----------------------------------------------------------------------------

  /** The first `=`, as `indexOf` finds it. */
  function IndexOfEquals(line: string): (index: Option<nat>)
    ensures index.None? <==> '=' !in line
    ensures index.Some? ==> index.value < |line| && line[index.value] == '=' && '=' !in line[..index.value]
  {
    if line == "" then None
    else if line[0] == '=' then Some(0)
    else match IndexOfEquals(line[1..])
      case None => None
      case Some(i) => assert line == [line[0]] + line[1..]; assert line[..i + 1] == [line[0]] + line[1..][..i]; Some(i + 1)
  }

  predicate KeyCharacter(c: char) {
    'A' <= c <= 'Z' || 'a' <= c <= 'z' || '0' <= c <= '9' || c == '_' || c == '.' || c == '-'
  }

  /** `/^[A-Za-z0-9_.-]+$/`. */
  predicate ValidKey(key: string) {
    key != "" && forall i :: 0 <= i < |key| ==> KeyCharacter(key[i])
  }

  datatype LineKind = Skipped | NoSeparator | BadKey(key: string) | Setting(key: string, value: string)

  /** What one line says, before it is compared with other lines. */
  function Classify(line: string): LineKind {
    var trimmed := Trim(line);
    if trimmed == "" || trimmed[0] == '#' || trimmed[0] == ';' then Skipped
    else
      var separator := IndexOfEquals(line);
      if separator.None? || separator.value < 1 then NoSeparator
      else
        var key := Trim(line[..separator.value]);
        if ValidKey(key) then Setting(key, Trim(line[separator.value + 1..])) else BadKey(key)
  }

  datatype Reading = Reading(entries: seq<Entry>, errors: seq<ProfileError>, seen: set<string>)

  function ReadLine(before: Reading, kind: LineKind, line: nat, bedShapeOk: string -> bool): Reading {
    match kind
    case Skipped => before
    case NoSeparator => before.(errors := before.errors + [ExpectedKeyValue(line)])
    case BadKey(key) => before.(errors := before.errors + [InvalidKey(line, key)])
    case Setting(key, value) =>
      if key in before.seen then before.(errors := before.errors + [DuplicateKey(line, key)])
      else if key == BED_SHAPE && !bedShapeOk(value) then
        before.(seen := before.seen + {key}, errors := before.errors + [BadBedShape(line)])
      else Reading(before.entries + [Entry(key, value)], before.errors, before.seen + {key})
  }

  /** The first `n` lines. */
  function ReadLines(lines: seq<string>, n: nat, bedShapeOk: string -> bool): Reading
    requires n <= |lines|
  {
    if n == 0 then Reading([], [], {})
    else ReadLine(ReadLines(lines, n - 1, bedShapeOk), Classify(lines[n - 1]), n, bedShapeOk)
  }

  function ValueOf(entries: seq<Entry>, key: string): Option<string> {
    if entries == [] then None
    else if entries[0].key == key then Some(entries[0].value)
    else ValueOf(entries[1..], key)
  }

  function RequiredErrors(entries: seq<Entry>, n: nat): seq<ProfileError>
    requires n <= |REQUIRED|
  {
    if n == 0 then [] else
      var key := REQUIRED[n - 1];
      RequiredErrors(entries, n - 1)
        + match ValueOf(entries, key)
          case None => [MissingSetting(key)]
          case Some(value) => if value == "" then [EmptySetting(key)] else []
  }

  function Parse(contents: string, bedShapeOk: string -> bool): SyntaxResult {
    var lines := LinesOf(contents);
    var reading := ReadLines(lines, |lines|, bedShapeOk);
    SyntaxResult(reading.entries, reading.errors + RequiredErrors(reading.entries, |REQUIRED|))
  }

  /** `parseDfmProfile`. */
  method ParseDfmProfile(contents: string, bedShapeOk: string -> bool) returns (result: SyntaxResult)
    ensures result == Parse(contents, bedShapeOk)
  {
    hide Trim, ValidKey;
    var entries: seq<Entry>, errors: seq<ProfileError>, seen: set<string> := [], [], {};
    var lines := LinesOf(contents);
    for index := 0 to |lines|
      invariant Reading(entries, errors, seen) == ReadLines(lines, index, bedShapeOk)
    {
      var line := lines[index];
      var trimmed := Trim(line);
      if trimmed == "" || trimmed[0] == '#' || trimmed[0] == ';' {
        continue;
      }
      var separator := IndexOfEquals(line);
      if separator.None? || separator.value < 1 {
        errors := errors + [ExpectedKeyValue(index + 1)];
        continue;
      }
      var key := Trim(line[..separator.value]);
      var value := Trim(line[separator.value + 1..]);
      if !ValidKey(key) {
        errors := errors + [InvalidKey(index + 1, key)];
        continue;
      }
      if key in seen {
        errors := errors + [DuplicateKey(index + 1, key)];
        continue;
      }
      seen := seen + {key};
      if key == BED_SHAPE && !bedShapeOk(value) {
        errors := errors + [BadBedShape(index + 1)];
        continue;
      }
      entries := entries + [Entry(key, value)];
    }
    ghost var fromLines := errors;
    for r := 0 to |REQUIRED|
      invariant errors == fromLines + RequiredErrors(entries, r)
    {
      var value := ValueOf(entries, REQUIRED[r]);
      if value.None? {
        errors := errors + [MissingSetting(REQUIRED[r])];
      } else if value.value == "" {
        errors := errors + [EmptySetting(REQUIRED[r])];
      }
    }
    result := SyntaxResult(entries, errors);
  }

  // ----- the update ------------------------------------------------------------------------

  predicate Names(line: string, key: string) {
    var separator := IndexOfEquals(line);
    separator.Some? && separator.value >= 1 && Trim(line[..separator.value]) == key
  }

  function ReplaceIn(line: string, key: string, value: string): string {
    if Names(line, key) then line[..IndexOfEquals(line).value + 1] + " " + value else line
  }

  /** How many of the first `n` lines name the key. */
  function CountNamed(lines: seq<string>, n: nat, key: string): nat
    requires n <= |lines|
  {
    if n == 0 then 0 else CountNamed(lines, n - 1, key) + (if Names(lines[n - 1], key) then 1 else 0)
  }

  function ReplaceAll(lines: seq<string>, key: string, value: string): (r: seq<string>)
    ensures |r| == |lines|
  {
    seq(|lines|, i requires 0 <= i < |lines| => ReplaceIn(lines[i], key, value))
  }

  datatype UpdateResult = Updated(text: string) | WrongCount(found: nat)

  function Update(contents: string, key: string, value: string): UpdateResult {
    var lines := LinesOf(contents);
    var found := CountNamed(lines, |lines|, key);
    if found != 1 then WrongCount(found) else Updated(Join(ReplaceAll(lines, key, value)))
  }

  /** `updateDfmProfileValue`. */
  method UpdateDfmProfileValue(contents: string, key: string, value: string) returns (result: UpdateResult)
    ensures result == Update(contents, key, value)
  {
    hide Trim, LinesOf, Join;
    var lines := LinesOf(contents);
    var replacements := 0;
    var nextLines: seq<string> := [];
    for i := 0 to |lines|
      invariant replacements == CountNamed(lines, i, key)
      invariant nextLines == ReplaceAll(lines, key, value)[..i]
    {
      var line := lines[i];
      var separator := IndexOfEquals(line);
      if separator.None? || separator.value < 1 || Trim(line[..separator.value]) != key {
        nextLines := nextLines + [line];
      } else {
        replacements := replacements + 1;
        nextLines := nextLines + [line[..separator.value + 1] + " " + value];
      }
    }
    if replacements != 1 {
      return WrongCount(replacements);
    }
    assert nextLines == ReplaceAll(lines, key, value);
    result := Updated(Join(nextLines));
  }

  // ----- trimming ----------------------------------------------------------------------------

  lemma {:induction false} TrimStartOfSum(a: string, b: string)
    requires TrimStart(a) != ""
    ensures TrimStart(a + b) == TrimStart(a) + b
  {
    hide IsSpace;
    assert (a + b)[0] == a[0];
    if IsSpace(a[0]) {
      assert (a + b)[1..] == a[1..] + b;
      TrimStartOfSum(a[1..], b);
    }
  }

  lemma {:induction false} TrimStartBegins(text: string)
    ensures TrimStart(text) != "" ==> !IsSpace(TrimStart(text)[0])
  {
    hide IsSpace;
    if text != "" && IsSpace(text[0]) {
      TrimStartBegins(text[1..]);
    }
  }

  lemma {:induction false} TrimEndKeepsTheFirst(text: string)
    requires text != "" && !IsSpace(text[0])
    ensures TrimEnd(text) != "" && TrimEnd(text)[0] == text[0]
  {
    hide IsSpace;
    if IsSpace(text[|text| - 1]) {
      TrimEndKeepsTheFirst(text[..|text| - 1]);
    }
  }

  /** A text begins like the part of it that has something to show. */
  lemma TrimBeginsLikeThePart(a: string, b: string)
    requires Trim(a) != ""
    ensures Trim(a + b) != "" && Trim(a + b)[0] == Trim(a)[0]
  {
    hide IsSpace;
    assert TrimEnd("") == "";
    TrimStartOfSum(a, b);
    TrimStartBegins(a);
    TrimEndKeepsTheFirst(TrimStart(a));
    TrimEndKeepsTheFirst(TrimStart(a) + b);
  }

  lemma LeadingSpaceIsTrimmed(value: string)
    ensures Trim(" " + value) == Trim(value)
  {
    assert (" " + value)[1..] == value;
  }

  // ----- lines that name a key --------------------------------------------------------------------

  lemma NamingLineIsASetting(line: string, key: string)
    requires Names(line, key) && ValidKey(key)
    ensures Classify(line) == Setting(key, Trim(line[IndexOfEquals(line).value + 1..]))
  {
    hide Trim;
    var at := IndexOfEquals(line).value;
    assert line == line[..at] + line[at..];
    TrimBeginsLikeThePart(line[..at], line[at..]);
    assert KeyCharacter(key[0]);
  }

  lemma SettingNamesItsKey(line: string)
    ensures Classify(line).Setting? ==> Names(line, Classify(line).key) && ValidKey(Classify(line).key)
  {
    hide Trim, ValidKey;
  }

  lemma {:induction false} FirstEqualsIsFound(line: string, at: nat)
    requires at < |line| && line[at] == '=' && '=' !in line[..at]
    ensures IndexOfEquals(line) == Some(at)
  {
    if at > 0 {
      assert line[..at] == [line[0]] + line[1..][..at - 1];
      FirstEqualsIsFound(line[1..], at - 1);
    }
  }

  /** The replaced line names the same key, and says the new value. */
  lemma ReplacedLine(line: string, key: string, value: string)
    requires Names(line, key)
    ensures var line' := ReplaceIn(line, key, value);
            && Names(line', key) && IndexOfEquals(line') == IndexOfEquals(line)
            && Trim(line'[IndexOfEquals(line').value + 1..]) == Trim(value)
            && line'[..IndexOfEquals(line).value + 1] == line[..IndexOfEquals(line).value + 1]
  {
    hide Trim;
    var at := IndexOfEquals(line).value;
    var line' := line[..at + 1] + " " + value;
    assert line'[..at] == line[..at];
    FirstEqualsIsFound(line', at);
    assert line'[at + 1..] == " " + value;
    assert line'[..at + 1] == line[..at + 1];
    LeadingSpaceIsTrimmed(value);
  }

  lemma ReplacedClassifies(line: string, key: string, value: string)
    requires ValidKey(key)
    ensures Classify(ReplaceIn(line, key, value))
            == if Names(line, key) then Setting(key, Trim(value)) else Classify(line)
  {
    hide Trim, ValidKey, Classify, IndexOfEquals;
    if Names(line, key) {
      ReplacedLine(line, key, value);
      NamingLineIsASetting(ReplaceIn(line, key, value), key);
    }
  }

  // ----- profiles without errors -----------------------------------------------------------------------

  predicate SetsKey(line: string, key: string) {
    Classify(line).Setting? && Classify(line).key == key
  }

  /** The first `n` lines are blank, comments or settings; no key is set twice and a bed shape can be read. */
  ghost predicate GoodLines(lines: seq<string>, n: nat, bedShapeOk: string -> bool)
    requires n <= |lines|
  {
    && (forall i :: 0 <= i < n ==> Classify(lines[i]).Skipped? || Classify(lines[i]).Setting?)
    && (forall i, j | 0 <= i < j < n && Classify(lines[i]).Setting? :: !SetsKey(lines[j], Classify(lines[i]).key))
    && (forall i | 0 <= i < n && SetsKey(lines[i], BED_SHAPE) :: bedShapeOk(Classify(lines[i]).value))
  }

  /** Some line sets the key to this value. */
  ghost predicate SetTo(lines: seq<string>, n: nat, key: string, value: string)
    requires n <= |lines|
  {
    exists i :: 0 <= i < n && Classify(lines[i]) == Setting(key, value)
  }

  lemma {:induction false} LinesWithoutErrors(lines: seq<string>, n: nat, bedShapeOk: string -> bool)
    requires n <= |lines|
    ensures ReadLines(lines, n, bedShapeOk).errors == [] <==> GoodLines(lines, n, bedShapeOk)
    ensures GoodLines(lines, n, bedShapeOk) ==>
              forall key :: key in ReadLines(lines, n, bedShapeOk).seen <==> exists i :: 0 <= i < n && SetsKey(lines[i], key)
  {
    hide Classify;
    if n > 0 {
      LinesWithoutErrors(lines, n - 1, bedShapeOk);
    }
  }

  lemma {:induction false} ValueOfAppended(entries: seq<Entry>, entry: Entry, key: string)
    ensures ValueOf(entries + [entry], key)
            == if ValueOf(entries, key).Some? then ValueOf(entries, key)
               else if entry.key == key then Some(entry.value) else None
  {
    if entries != [] {
      ValueOfAppended(entries[1..], entry, key);
      assert (entries + [entry])[1..] == entries[1..] + [entry];
    }
  }

  /** Without errors, an entry has a value exactly if a line sets it. */
  lemma {:induction false} ValuesComeFromLines(lines: seq<string>, n: nat, bedShapeOk: string -> bool, key: string, value: string)
    requires n <= |lines| && GoodLines(lines, n, bedShapeOk)
    ensures ValueOf(ReadLines(lines, n, bedShapeOk).entries, key) == Some(value) <==> SetTo(lines, n, key, value)
  {
    hide Classify;
    if n > 0 {
      LinesWithoutErrors(lines, n - 1, bedShapeOk);
      LinesWithoutErrors(lines, n, bedShapeOk);
      ValuesComeFromLines(lines, n - 1, bedShapeOk, key, value);
      var before, kind := ReadLines(lines, n - 1, bedShapeOk), Classify(lines[n - 1]);
      assert SetTo(lines, n, key, value) <==> SetTo(lines, n - 1, key, value) || kind == Setting(key, value);
      if kind.Setting? {
        assert ReadLines(lines, n, bedShapeOk).entries == before.entries + [Entry(kind.key, kind.value)];
        ValueOfAppended(before.entries, Entry(kind.key, kind.value), key);
        if ValueOf(before.entries, key).Some? {
          ValuesComeFromLines(lines, n - 1, bedShapeOk, key, ValueOf(before.entries, key).value);
        }
      }
    }
  }

  lemma {:induction false} RequiredWithoutErrors(entries: seq<Entry>, n: nat)
    requires n <= |REQUIRED|
    ensures RequiredErrors(entries, n) == []
            <==> forall r :: 0 <= r < n ==> ValueOf(entries, REQUIRED[r]).Some? && ValueOf(entries, REQUIRED[r]).value != ""
  {
    if n > 0 {
      RequiredWithoutErrors(entries, n - 1);
    }
  }

  /** Some line sets the key to a value that is not empty. */
  ghost predicate SetToSomething(lines: seq<string>, key: string) {
    exists value :: value != "" && SetTo(lines, |lines|, key, value)
  }

  lemma RequiredIsSet(lines: seq<string>, bedShapeOk: string -> bool, key: string)
    requires GoodLines(lines, |lines|, bedShapeOk)
    ensures var value := ValueOf(ReadLines(lines, |lines|, bedShapeOk).entries, key);
            value.Some? && value.value != "" <==> SetToSomething(lines, key)
  {
    hide GoodLines, SetTo, ReadLines, ValueOf;
    var found := ValueOf(ReadLines(lines, |lines|, bedShapeOk).entries, key);
    if found.Some? {
      ValuesComeFromLines(lines, |lines|, bedShapeOk, key, found.value);
    }
    if SetToSomething(lines, key) {
      var value :| value != "" && SetTo(lines, |lines|, key, value);
      ValuesComeFromLines(lines, |lines|, bedShapeOk, key, value);
    }
  }

  /** A profile has no errors exactly if every line is blank, a comment or a setting, no key is set twice, a bed shape
      can be read, and every required key is set to something. */
  lemma ErrorFreeIff(contents: string, bedShapeOk: string -> bool)
    ensures var lines := LinesOf(contents);
            Parse(contents, bedShapeOk).errors == []
            <==> && GoodLines(lines, |lines|, bedShapeOk)
                 && forall r :: 0 <= r < |REQUIRED| ==> SetToSomething(lines, REQUIRED[r])
  {
    hide LinesOf, GoodLines, SetToSomething, ReadLines, ValueOf;
    var lines := LinesOf(contents);
    LinesWithoutErrors(lines, |lines|, bedShapeOk);
    var reading := ReadLines(lines, |lines|, bedShapeOk);
    var missing := RequiredErrors(reading.entries, |REQUIRED|);
    assert reading.errors + missing == [] <==> |reading.errors| + |missing| == 0;
    RequiredWithoutErrors(reading.entries, |REQUIRED|);
    if GoodLines(lines, |lines|, bedShapeOk) {
      forall r | 0 <= r < |REQUIRED|
        ensures ValueOf(reading.entries, REQUIRED[r]).Some? && ValueOf(reading.entries, REQUIRED[r]).value != ""
                <==> SetToSomething(lines, REQUIRED[r])
      {
        RequiredIsSet(lines, bedShapeOk, REQUIRED[r]);
      }
    }
  }

  // ----- the laws ------------------------------------------------------------------------------------

  function WithValue(entries: seq<Entry>, key: string, value: string): (r: seq<Entry>)
    ensures |r| == |entries|
  {
    seq(|entries|, i requires 0 <= i < |entries| => if entries[i].key == key then Entry(key, value) else entries[i])
  }

  predicate HasKey(entries: seq<Entry>, key: string) {
    exists i :: 0 <= i < |entries| && entries[i].key == key
  }

  /** Without errors every key that is seen is an entry, named by exactly one line. */
  lemma {:induction false} SeenKeysAreNamedOnce(lines: seq<string>, n: nat, bedShapeOk: string -> bool, key: string)
    requires n <= |lines| && ValidKey(key) && ReadLines(lines, n, bedShapeOk).errors == []
    ensures CountNamed(lines, n, key) == (if key in ReadLines(lines, n, bedShapeOk).seen then 1 else 0)
    ensures key in ReadLines(lines, n, bedShapeOk).seen <==> HasKey(ReadLines(lines, n, bedShapeOk).entries, key)
  {
    hide Classify, Names, ValidKey, HasKey;
    if n == 0 {
      assert !HasKey([], key) by { NoKeys(key); }
    } else {
      SeenKeysAreNamedOnce(lines, n - 1, bedShapeOk, key);
      SettingNamesItsKey(lines[n - 1]);
      var before, kind := ReadLines(lines, n - 1, bedShapeOk), Classify(lines[n - 1]);
      if Names(lines[n - 1], key) {
        NamingLineIsASetting(lines[n - 1], key);
      }
      if kind.Setting? {
        NamesOneKey(lines[n - 1], kind.key, key);
        OneMoreKey(before.entries, Entry(kind.key, kind.value), key);
      }
    }
  }

  lemma NoKeys(key: string)
    ensures !HasKey([], key)
  {
  }

  lemma NamesOneKey(line: string, a: string, b: string)
    requires Names(line, a)
    ensures Names(line, b) <==> a == b
  {
  }

  lemma OneMoreKey(entries: seq<Entry>, entry: Entry, key: string)
    ensures HasKey(entries + [entry], key) <==> HasKey(entries, key) || entry.key == key
  {
    if entry.key == key {
      assert (entries + [entry])[|entries|].key == key;
    }
    if HasKey(entries, key) {
      var i :| 0 <= i < |entries| && entries[i].key == key;
      assert (entries + [entry])[i].key == key;
    }
  }

  /** Reading the updated lines: the same keys in the same order, with one value changed. */
  lemma {:induction false} UpdatedLinesRead(lines: seq<string>, n: nat, bedShapeOk: string -> bool, key: string, value: string)
    requires n <= |lines| && ValidKey(key) && ReadLines(lines, n, bedShapeOk).errors == []
    requires key == BED_SHAPE ==> bedShapeOk(Trim(value))
    ensures var (was, now) := (ReadLines(lines, n, bedShapeOk),
                               ReadLines(ReplaceAll(lines, key, value), n, bedShapeOk));
            now == Reading(WithValue(was.entries, key, Trim(value)), [], was.seen)
  {
    hide Classify, Names, ValidKey, Trim, ReplaceIn;
    if n > 0 {
      UpdatedLinesRead(lines, n - 1, bedShapeOk, key, value);
      ReplacedClassifies(lines[n - 1], key, value);
      SettingNamesItsKey(lines[n - 1]);
      if Names(lines[n - 1], key) {
        NamingLineIsASetting(lines[n - 1], key);
      }
    }
  }

  /** A bed shape that cannot be read is an error, wherever its line is. */
  lemma {:induction false} BadBedShapeIsAnError(lines: seq<string>, n: nat, bedShapeOk: string -> bool, value: string)
    requires n <= |lines| && !bedShapeOk(Trim(value)) && CountNamed(lines, n, BED_SHAPE) >= 1 && ValidKey(BED_SHAPE)
    ensures ReadLines(ReplaceAll(lines, BED_SHAPE, value), n, bedShapeOk).errors != []
  {
    hide Classify, Names, Trim, ReplaceIn, ValidKey;
    ReplacedClassifies(lines[n - 1], BED_SHAPE, value);
    if !Names(lines[n - 1], BED_SHAPE) {
      BadBedShapeIsAnError(lines, n - 1, bedShapeOk, value);
    }
  }

  lemma {:induction false} ValueAfterChange(entries: seq<Entry>, key: string, value: string, k: string)
    ensures ValueOf(WithValue(entries, key, value), k)
            == if k == key && ValueOf(entries, k).Some? then Some(value) else ValueOf(entries, k)
  {
    if entries != [] {
      ValueAfterChange(entries[1..], key, value, k);
      assert WithValue(entries, key, value)[1..] == WithValue(entries[1..], key, value);
    }
  }

  lemma {:induction false} RequiredAfterChange(entries: seq<Entry>, key: string, value: string, n: nat)
    requires n <= |REQUIRED| && RequiredErrors(entries, n) == []
    ensures RequiredErrors(WithValue(entries, key, value), n) == [] <==> (value == "" ==> key !in REQUIRED[..n])
  {
    if n > 0 {
      RequiredAfterChange(entries, key, value, n - 1);
      ValueAfterChange(entries, key, value, REQUIRED[n - 1]);
      assert REQUIRED[..n] == REQUIRED[..n - 1] + [REQUIRED[n - 1]];
    }
  }

  /** What a new value must satisfy for the profile to stay free of errors. */
  predicate Acceptable(key: string, value: string, bedShapeOk: string -> bool) {
    (key == BED_SHAPE ==> bedShapeOk(value)) && (key in REQUIRED ==> value != "")
  }

  lemma UpdatedText(contents: string, key: string, value: string)
    requires OneLine(value) && Update(contents, key, value).Updated?
    ensures LinesOf(Update(contents, key, value).text) == ReplaceAll(LinesOf(contents), key, value)
  {
    hide Names;
    var lines := LinesOf(contents);
    NoReturnsLeft(contents);
    SplitGivesLines(NormalizeBreaks(contents));
    var lines' := ReplaceAll(lines, key, value);
    forall i | 0 <= i < |lines'| ensures OneLine(lines'[i]) {
      assert OneLine(lines[i]);
    }
    hide Split, Join, NormalizeBreaks;
    SplitUndoesJoin(lines');
    NothingToNormalize(Join(lines'));
  }

  /** Editing then parsing: for a profile without errors and one of its keys, the update succeeds, and parsing gives the
      same entries in the same order with only that value changed, without errors, exactly when the new value is
      acceptable. */
  lemma UpdateThenParse(contents: string, bedShapeOk: string -> bool, key: string, value: string)
    requires Parse(contents, bedShapeOk).errors == [] && HasKey(Parse(contents, bedShapeOk).entries, key)
    requires OneLine(value)
    ensures Update(contents, key, value).Updated?
    ensures Parse(Update(contents, key, value).text, bedShapeOk)
            == SyntaxResult(WithValue(Parse(contents, bedShapeOk).entries, key, Trim(value)), [])
            <==> Acceptable(key, Trim(value), bedShapeOk)
  {
    hide LinesOf, ReplaceAll, Join, Trim, ValidKey, HasKey, WithValue;
    var lines := LinesOf(contents);
    var reading := ReadLines(lines, |lines|, bedShapeOk);
    EntriesHaveValidKeys(lines, |lines|, bedShapeOk, key);
    SeenKeysAreNamedOnce(lines, |lines|, bedShapeOk, key);
    UpdatedText(contents, key, value);
    if key == BED_SHAPE && !bedShapeOk(Trim(value)) {
      BadBedShapeIsAnError(lines, |lines|, bedShapeOk, value);
    } else {
      UpdatedLinesRead(lines, |lines|, bedShapeOk, key, value);
      RequiredAfterChange(reading.entries, key, Trim(value), |REQUIRED|);
      assert REQUIRED[..|REQUIRED|] == REQUIRED;
    }
  }

  lemma {:induction false} EntriesHaveValidKeys(lines: seq<string>, n: nat, bedShapeOk: string -> bool, key: string)
    requires n <= |lines| && HasKey(ReadLines(lines, n, bedShapeOk).entries, key)
    ensures ValidKey(key)
  {
    hide Classify, ValidKey, HasKey;
    if n == 0 {
      NoKeys(key);
    } else {
      SettingNamesItsKey(lines[n - 1]);
      var before, kind := ReadLines(lines, n - 1, bedShapeOk), Classify(lines[n - 1]);
      if kind.Setting? {
        OneMoreKey(before.entries, Entry(kind.key, kind.value), key);
      }
      if HasKey(before.entries, key) {
        EntriesHaveValidKeys(lines, n - 1, bedShapeOk, key);
      }
    }
  }

  /** Exactly one line changes, and in it only what follows the first `=`. */
  lemma UpdateChangesOneLine(contents: string, key: string, value: string) returns (at: nat)
    requires OneLine(value) && Update(contents, key, value).Updated?
    ensures var lines := LinesOf(contents);
            && at < |lines| && Names(lines[at], key)
            && LinesOf(Update(contents, key, value).text)
               == lines[at := lines[at][..IndexOfEquals(lines[at]).value + 1] + " " + value]
  {
    hide LinesOf, Names;
    var lines := LinesOf(contents);
    UpdatedText(contents, key, value);
    at := TheNamedLine(lines, |lines|, key);
  }

  lemma {:induction false} TheNamedLine(lines: seq<string>, n: nat, key: string) returns (at: nat)
    requires n <= |lines| && CountNamed(lines, n, key) == 1
    ensures at < n && Names(lines[at], key) && forall i :: 0 <= i < n && i != at ==> !Names(lines[i], key)
  {
    hide Names;
    if Names(lines[n - 1], key) {
      at := n - 1;
      NobodyNamed(lines, n - 1, key);
    } else {
      at := TheNamedLine(lines, n - 1, key);
    }
  }

  lemma {:induction false} NobodyNamed(lines: seq<string>, n: nat, key: string)
    requires n <= |lines| && CountNamed(lines, n, key) == 0
    ensures forall i :: 0 <= i < n ==> !Names(lines[i], key)
  {
    hide Names;
    if n > 0 {
      NobodyNamed(lines, n - 1, key);
    }
  }

  /** A second update of the same key overwrites the first one exactly. */
  lemma SecondUpdateOverwrites(contents: string, key: string, value: string, second: string)
    requires OneLine(value) && Update(contents, key, value).Updated?
    ensures Update(Update(contents, key, value).text, key, second) == Update(contents, key, second)
  {
    hide LinesOf, Join, Names, ReplaceIn;
    var lines := LinesOf(contents);
    var lines' := ReplaceAll(lines, key, value);
    UpdatedText(contents, key, value);
    forall i | 0 <= i < |lines|
      ensures Names(lines'[i], key) == Names(lines[i], key)
      ensures ReplaceIn(lines'[i], key, second) == ReplaceIn(lines[i], key, second)
    {
      ReplacedOrNot(lines[i], key, value, second);
    }
    SameCount(lines, lines', |lines|, key);
    assert ReplaceAll(lines', key, second) == ReplaceAll(lines, key, second);
  }

  lemma ReplacedOrNot(line: string, key: string, value: string, second: string)
    ensures Names(ReplaceIn(line, key, value), key) == Names(line, key)
    ensures ReplaceIn(ReplaceIn(line, key, value), key, second) == ReplaceIn(line, key, second)
  {
    hide Trim;
    if Names(line, key) {
      ReplacedLine(line, key, value);
    }
  }

  lemma {:induction false} SameCount(lines: seq<string>, lines': seq<string>, n: nat, key: string)
    requires n <= |lines| == |lines'| && forall i :: 0 <= i < n ==> Names(lines'[i], key) == Names(lines[i], key)
    ensures CountNamed(lines', n, key) == CountNamed(lines, n, key)
  {
    hide Names;
    if n > 0 {
      SameCount(lines, lines', n - 1, key);
    }
  }
}
