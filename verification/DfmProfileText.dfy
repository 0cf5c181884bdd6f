/**
  The profile text as its user writes it: what trimming removes, which line breaks separate lines, which lines are settings,
  comments or mistakes, and which error each mistake gives.
*/
module DfmProfileText {
  import opened Text
  import opened DfmProfile

  // ----- white space ------------------------------------------------------------

  /** White space and line terminators of ECMAScript (sections 12.2 and 12.3 of ECMA-262). */
  predicate Space(c: char) {
    || '\t' <= c <= '\r' || c == ' ' || c == '\U{A0}' || c == '\U{1680}' || '\U{2000}' <= c <= '\U{200A}'
    || c == '\U{2028}' || c == '\U{2029}' || c == '\U{202F}' || c == '\U{205F}' || c == '\U{3000}' || c == '\U{FEFF}'
  }

  lemma SpaceIff(c: char)
    ensures IsSpace(c) <==> Space(c)
  {
    if '\t' <= c <= '\r' {
      SmallRange(c as int - 9);
    }
    if '\U{2000}' <= c <= '\U{200A}' {
      SmallRange(c as int - 0x2000);
    }
  }

  lemma SmallRange(n: int)
    requires 0 <= n <= 10
    ensures n == 0 || n == 1 || n == 2 || n == 3 || n == 4 || n == 5 || n == 6 || n == 7 || n == 8 || n == 9 || n == 10
  {
  }

  predicate Spaces(text: string) {
    forall i :: 0 <= i < |text| ==> Space(text[i])
  }

  /** Nothing to trim at either end. */
  predicate Tight(text: string) {
    text == "" || (!Space(text[0]) && !Space(text[|text| - 1]))
  }

  lemma {:induction false} TrimStartCuts(text: string) returns (before: string)
    ensures text == before + TrimStart(text) && Spaces(before)
    ensures TrimStart(text) != "" ==> !Space(TrimStart(text)[0])
  {
    hide IsSpace, Space;
    if text == "" {
      before := "";
    } else {
      SpaceIff(text[0]);
      if IsSpace(text[0]) {
        var rest := TrimStartCuts(text[1..]);
        before := [text[0]] + rest;
      } else {
        before := "";
      }
    }
  }

  lemma {:induction false} TrimEndCuts(text: string) returns (after: string)
    ensures text == TrimEnd(text) + after && Spaces(after)
    ensures TrimEnd(text) != "" ==> !Space(TrimEnd(text)[|TrimEnd(text)| - 1])
  {
    hide IsSpace, Space;
    if text == "" {
      after := "";
    } else {
      var last := text[|text| - 1];
      SpaceIff(last);
      if IsSpace(last) {
        var rest := TrimEndCuts(text[..|text| - 1]);
        after := rest + [last];
      } else {
        after := "";
      }
    }
  }

  /** Trimming cuts white space off both ends, and leaves none there. */
  lemma TrimCuts(text: string) returns (before: string, after: string)
    ensures text == before + Trim(text) + after && Spaces(before) && Spaces(after) && Tight(Trim(text))
  {
    hide Space;
    before := TrimStartCuts(text);
    after := TrimEndCuts(TrimStart(text));
    hide TrimStart, TrimEnd;
    if Trim(text) != "" {
      assert TrimStart(text)[0] == Trim(text)[0];
    }
  }

  lemma {:induction false} LeadingSpacesGo(before: string, rest: string)
    requires Spaces(before)
    ensures TrimStart(before + rest) == TrimStart(rest)
  {
    hide IsSpace, Space;
    if before == "" {
      assert before + rest == rest;
    } else {
      SpaceIff(before[0]);
      assert (before + rest)[1..] == before[1..] + rest;
      LeadingSpacesGo(before[1..], rest);
    }
  }

  lemma {:induction false} TrailingSpacesGo(rest: string, after: string)
    requires Spaces(after)
    ensures TrimEnd(rest + after) == TrimEnd(rest)
  {
    hide IsSpace, Space;
    if after == "" {
      assert rest + after == rest;
    } else {
      SpaceIff(after[|after| - 1]);
      assert (rest + after)[..|rest + after| - 1] == rest + after[..|after| - 1];
      TrailingSpacesGo(rest, after[..|after| - 1]);
    }
  }

  /** There is only one way to do so. */
  lemma TrimIsUnique(before: string, core: string, after: string)
    requires Spaces(before) && Tight(core) && Spaces(after)
    ensures Trim(before + core + after) == core
  {
    hide IsSpace, Space;
    assert before + core + after == before + (core + after);
    LeadingSpacesGo(before, core + after);
    if core == "" {
      assert core + after == after + "";
      LeadingSpacesGo(after, "");
    } else {
      SpaceIff(core[0]);
      SpaceIff(core[|core| - 1]);
      assert (core + after)[0] == core[0];
      TrailingSpacesGo(core, after);
    }
  }

  // ----- line breaks --------------------------------------------------------------

  predicate LineBreak(text: string) {
    text == "\n" || text == "\r\n" || text == "\r"
  }

  /** The lines, each but the last followed by its break. */
  function Broken(lines: seq<string>, breaks: seq<string>): string
    requires |lines| == |breaks| + 1
  {
    if breaks == [] then lines[0] else lines[0] + breaks[0] + Broken(lines[1..], breaks[1..])
  }

  /** No carriage return is followed by a line feed that is another break. */
  predicate Unambiguous(lines: seq<string>, breaks: seq<string>)
    requires |lines| == |breaks| + 1
  {
    forall i :: 0 <= i < |breaks| - 1 && breaks[i] == "\r" && lines[i + 1] == "" ==> breaks[i + 1] != "\n"
  }

  /** A profile has the lines that its breaks of any of the three kinds separate. */
  lemma {:induction false} LinesBetweenBreaks(lines: seq<string>, breaks: seq<string>)
    requires |lines| == |breaks| + 1 && Unambiguous(lines, breaks)
    requires forall i :: 0 <= i < |lines| ==> OneLine(lines[i])
    requires forall i :: 0 <= i < |breaks| ==> LineBreak(breaks[i])
    ensures LinesOf(Broken(lines, breaks)) == lines
  {
    NormalizedBreaks(lines, breaks);
    SplitUndoesJoin(lines);
  }

  lemma {:induction false} NormalizedBreaks(lines: seq<string>, breaks: seq<string>)
    requires |lines| == |breaks| + 1 && Unambiguous(lines, breaks)
    requires forall i :: 0 <= i < |lines| ==> OneLine(lines[i])
    requires forall i :: 0 <= i < |breaks| ==> LineBreak(breaks[i])
    ensures NormalizeBreaks(Broken(lines, breaks)) == Join(lines)
    decreases |breaks|
  {
    if breaks == [] {
      NothingToNormalize(lines[0]);
    } else {
      var rest := Broken(lines[1..], breaks[1..]);
      NormalizedBreaks(lines[1..], breaks[1..]);
      RestDoesNotBegin(lines, breaks);
      NormalizesOneBreak(breaks[0], rest);
      LineIsKept(lines[0], breaks[0] + rest);
      assert lines[0] + breaks[0] + rest == lines[0] + (breaks[0] + rest);
      assert lines[0] + "\n" + Join(lines[1..]) == lines[0] + ("\n" + Join(lines[1..]));
      hide NormalizeBreaks;
    }
  }

  lemma RestDoesNotBegin(lines: seq<string>, breaks: seq<string>)
    requires |lines| == |breaks| + 1 && breaks != [] && Unambiguous(lines, breaks) && OneLine(lines[1])
    requires forall i :: 0 <= i < |breaks| ==> LineBreak(breaks[i])
    ensures var rest := Broken(lines[1..], breaks[1..]); breaks[0] == "\r" && rest != "" ==> rest[0] != '\n'
    ensures Unambiguous(lines[1..], breaks[1..])
  {
    var rest := Broken(lines[1..], breaks[1..]);
    if lines[1] != "" {
      assert rest != "" ==> rest[0] == lines[1][0];
    } else if |breaks| > 1 {
      assert rest == breaks[1] + Broken(lines[2..], breaks[2..]) by {
        assert lines[1..][1..] == lines[2..] && breaks[1..][1..] == breaks[2..];
      }
      assert rest[0] == breaks[1][0];
    }
  }

  lemma NormalizesOneBreak(br: string, rest: string)
    requires LineBreak(br) && (br == "\r" && rest != "" ==> rest[0] != '\n')
    ensures NormalizeBreaks(br + rest) == "\n" + NormalizeBreaks(rest)
  {
    var text := br + rest;
    assert br != "\r\n" ==> text[1..] == rest;
    assert br == "\r\n" ==> text[2..] == rest && text[1] == '\n';
    assert br == "\r" && rest != "" ==> text[1] == rest[0];
  }

  lemma {:induction false} LineIsKept(line: string, rest: string)
    requires OneLine(line)
    ensures NormalizeBreaks(line + rest) == line + NormalizeBreaks(rest)
  {
    if line == "" {
      assert line + rest == rest;
    } else {
      assert (line + rest)[1..] == line[1..] + rest;
      LineIsKept(line[1..], rest);
    }
  }

  // ----- lines -----------------------------------------------------------------------

  /** Letters, digits, `_`, `.` and `-`, at least one. */
  predicate KeyText(key: string) {
    && key != ""
    && forall i :: 0 <= i < |key| ==>
         || ('a' <= key[i] <= 'z') || ('A' <= key[i] <= 'Z') || ('0' <= key[i] <= '9')
         || key[i] == '_' || key[i] == '.' || key[i] == '-'
  }

  lemma KeyTextIff(key: string)
    ensures KeyText(key) <==> ValidKey(key)
    ensures KeyText(key) ==> Tight(key) && '=' !in key && key[0] != '#' && key[0] != ';'
  {
    if KeyText(key) {
      assert !Space(key[0]) && !Space(key[|key| - 1]);
    }
  }

  /** The text before the first `=`, which is not empty, is the name between white space. */
  ghost predicate Parts(line: string, name: string, a: string, b: string, rest: string) {
    line == a + name + b + "=" + rest && Spaces(a) && Spaces(b) && Tight(name) && '=' !in name && a + name + b != ""
  }

  ghost predicate NamedAs(line: string, name: string) {
    exists a, b, rest :: Parts(line, name, a, b, rest)
  }

  /** `name = value`, with white space around name and value. */
  ghost predicate Assigns(line: string, name: string, value: string) {
    exists a, b, rest :: Parts(line, name, a, b, rest) && TightPart(rest, value)
  }

  ghost predicate TightPart(text: string, core: string) {
    Tight(core) && exists a, b :: Surrounded(text, a, core, b)
  }

  ghost predicate Surrounded(text: string, a: string, core: string, b: string) {
    text == a + core + b && Spaces(a) && Spaces(b)
  }

  lemma TightPartIff(text: string, core: string)
    ensures TightPart(text, core) <==> Trim(text) == core
  {
    hide Space, Trim;
    if Trim(text) == core {
      var a, b := TrimCuts(text);
      assert Surrounded(text, a, core, b);
    }
    if TightPart(text, core) {
      var a, b :| Surrounded(text, a, core, b);
      TrimIsUnique(a, core, b);
    }
  }

  /** The line names the key exactly if its part before the first `=` is the key between white space. */
  lemma NamesIff(line: string, key: string)
    ensures Names(line, key) <==> NamedAs(line, key)
  {
    hide Space, Trim;
    if Names(line, key) {
      var at := IndexOfEquals(line).value;
      var a, b := TrimCuts(line[..at]);
      assert line == line[..at] + "=" + line[at + 1..];
      assert '=' !in key by {
        KeyIsPartOf(a, key, b);
      }
      assert Parts(line, key, a, b, line[at + 1..]);
    }
    if NamedAs(line, key) {
      var a, b, rest :| Parts(line, key, a, b, rest);
      FirstEqualsOf(line, key, a, b, rest);
      TrimIsUnique(a, key, b);
    }
  }

  lemma KeyIsPartOf(a: string, key: string, b: string)
    requires '=' !in a + key + b
    ensures '=' !in key
  {
    forall i | 0 <= i < |key| ensures key[i] != '=' {
      assert (a + key + b)[|a| + i] == key[i];
    }
  }

  lemma FirstEqualsOf(line: string, name: string, a: string, b: string, rest: string)
    requires Parts(line, name, a, b, rest)
    ensures IndexOfEquals(line) == Some(|a + name + b|)
    ensures line[..|a + name + b|] == a + name + b && line[|a + name + b| + 1..] == rest
  {
    var front := a + name + b;
    assert line[..|front|] == front;
    FirstEqualsIsFound(line, |front|);
  }

  /** The value that the first `=` assigns. */
  lemma ValueIff(line: string, key: string, value: string)
    requires NamedAs(line, key)
    ensures Assigns(line, key, value) <==>
            IndexOfEquals(line).Some? && Trim(line[IndexOfEquals(line).value + 1..]) == value
  {
    hide Spaces, Tight, Trim, TightPart;
    if Assigns(line, key, value) {
      var a, b, rest :| Parts(line, key, a, b, rest) && TightPart(rest, value);
      FirstEqualsOf(line, key, a, b, rest);
      TightPartIff(rest, value);
    }
    var a, b, rest :| Parts(line, key, a, b, rest);
    FirstEqualsOf(line, key, a, b, rest);
    TightPartIff(rest, value);
  }

  /** A line is a setting exactly if it assigns a value to a name of letters, digits, `_`, `.` and `-`. */
  lemma SettingIff(line: string, key: string, value: string)
    ensures Classify(line) == Setting(key, value) <==> KeyText(key) && Assigns(line, key, value)
  {
    KeyTextIff(key);
    SettingNamesItsKey(line);
    hide Trim, KeyText, ValidKey, Classify;
    if Classify(line) == Setting(key, value) || (KeyText(key) && Assigns(line, key, value)) {
      assert NamedAs(line, key) by {
        hide Parts, TightPart;
        NamesIff(line, key);
      }
      NamesIff(line, key);
      NamingLineIsASetting(line, key);
      ValueIff(line, key, value);
    }
  }

  /** Nothing but white space, or a comment after `#` or `;`. */
  ghost predicate BlankOrComment(line: string) {
    Spaces(line) || exists a, rest :: CommentParts(line, a, rest)
  }

  ghost predicate CommentParts(line: string, a: string, rest: string) {
    Spaces(a) && (line == a + "#" + rest || line == a + ";" + rest)
  }

  lemma SkippedIff(line: string)
    ensures Classify(line).Skipped? <==> BlankOrComment(line)
  {
    hide Space, TrimStart, TrimEnd;
    var a, b := TrimCuts(line);
    var t := Trim(line);
    hide Trim;
    if t == "" {
      assert Spaces(line);
    } else {
      assert line[|a|] == t[0];
      if t[0] == '#' || t[0] == ';' {
        assert line == a + [t[0]] + (t[1..] + b);
        assert CommentParts(line, a, t[1..] + b);
      } else if BlankOrComment(line) {
        NotSkipped(line, a, t[0]);
      }
    }
  }

  lemma NotSkipped(line: string, a: string, c: char)
    requires Spaces(a) && |a| < |line| && a == line[..|a|] && line[|a|] == c && !Space(c) && c != '#' && c != ';'
    ensures !BlankOrComment(line)
  {
    if exists a2, rest :: CommentParts(line, a2, rest) {
      var a2, rest :| CommentParts(line, a2, rest);
      assert line[|a2|] == '#' || line[|a2|] == ';';
      assert a2 == line[..|a2|] && !Space(line[|a2|]);
      SameIndent(line, a, a2);
    }
  }

  lemma SameIndent(line: string, a: string, b: string)
    requires |a| < |line| && |b| < |line| && a == line[..|a|] && b == line[..|b|] && Spaces(a) && Spaces(b)
    requires !Space(line[|a|]) && !Space(line[|b|])
    ensures |a| == |b|
  {
    assert forall i :: 0 <= i < |a| ==> line[i] == a[i];
    assert forall i :: 0 <= i < |b| ==> line[i] == b[i];
  }

  /** A mistake without a name: no `=`, or one at the very beginning. */
  lemma NoSeparatorIff(line: string)
    ensures Classify(line).NoSeparator? <==> !BlankOrComment(line) && ('=' !in line || line[0] == '=')
  {
    SkippedIff(line);
    hide Trim, BlankOrComment, ValidKey;
  }

  /** A mistake in the name. */
  lemma BadKeyIff(line: string, name: string)
    ensures Classify(line) == BadKey(name) <==> !BlankOrComment(line) && NamedAs(line, name) && !KeyText(name)
  {
    SkippedIff(line);
    NamesIff(line, name);
    KeyTextIff(name);
    hide Trim, BlankOrComment, ValidKey, NamedAs, KeyText;
  }

  // ----- errors and entries --------------------------------------------------------------

  /** A line among the first `i` sets the key. */
  predicate SetBefore(lines: seq<string>, i: nat, key: string)
    requires i <= |lines|
  {
    exists j :: 0 <= j < i && SetsKey(lines[j], key)
  }

  /** The error that line `i`, counted from 0, gives. */
  predicate Reports(lines: seq<string>, i: nat, bedShapeOk: string -> bool, e: ProfileError)
    requires i < |lines|
  {
    match Classify(lines[i])
    case Skipped => false
    case NoSeparator => e == ExpectedKeyValue(i + 1)
    case BadKey(key) => e == InvalidKey(i + 1, key)
    case Setting(key, value) =>
      if SetBefore(lines, i, key) then e == DuplicateKey(i + 1, key)
      else key == "bed_shape" && !bedShapeOk(value) && e == BadBedShape(i + 1)
  }

  /** Line `i` is the first one to set its key, and not to a bed shape that cannot be read. */
  predicate Gives(lines: seq<string>, i: nat, bedShapeOk: string -> bool, entry: Entry)
    requires i < |lines|
  {
    && Classify(lines[i]) == Setting(entry.key, entry.value) && !SetBefore(lines, i, entry.key)
    && (entry.key == "bed_shape" ==> bedShapeOk(entry.value))
  }

  lemma {:induction false} LinesGive(lines: seq<string>, n: nat, bedShapeOk: string -> bool, e: ProfileError, entry: Entry)
    requires n <= |lines|
    ensures forall key :: key in ReadLines(lines, n, bedShapeOk).seen <==> SetBefore(lines, n, key)
    ensures e in ReadLines(lines, n, bedShapeOk).errors <==> exists i :: 0 <= i < n && Reports(lines, i, bedShapeOk, e)
    ensures entry in ReadLines(lines, n, bedShapeOk).entries <==> exists i :: 0 <= i < n && Gives(lines, i, bedShapeOk, entry)
  {
    hide Classify, Reports, Gives;
    if n > 0 {
      LinesGive(lines, n - 1, bedShapeOk, e, entry);
      var before := ReadLines(lines, n - 1, bedShapeOk);
      OneLineGives(lines, n - 1, bedShapeOk, before, e, entry);
    }
  }

  lemma OneLineGives(lines: seq<string>, i: nat, bedShapeOk: string -> bool, before: Reading, e: ProfileError, entry: Entry)
    requires i < |lines| && forall key :: key in before.seen <==> SetBefore(lines, i, key)
    ensures var now := ReadLine(before, Classify(lines[i]), i + 1, bedShapeOk);
            && (forall key :: key in now.seen <==> SetBefore(lines, i + 1, key))
            && (e in now.errors <==> e in before.errors || Reports(lines, i, bedShapeOk, e))
            && (entry in now.entries <==> entry in before.entries || Gives(lines, i, bedShapeOk, entry))
  {
    hide Classify;
    forall key ensures SetBefore(lines, i + 1, key) <==> SetBefore(lines, i, key) || SetsKey(lines[i], key) {
    }
    hide SetBefore;
  }

  /** One of the five settings that every profile needs. */
  predicate Needed(key: string) {
    || key == "printer_technology" || key == "nozzle_diameter" || key == "filament_diameter" || key == "layer_height"
    || key == "gcode_flavor"
  }

  lemma NeededIff(key: string)
    ensures Needed(key) <==> key in REQUIRED
  {
  }

  lemma {:induction false} RequiredReports(entries: seq<Entry>, n: nat, e: ProfileError)
    requires n <= |REQUIRED|
    ensures e in RequiredErrors(entries, n) <==>
            || (e.MissingSetting? && e.key in REQUIRED[..n] && ValueOf(entries, e.key).None?)
            || (e.EmptySetting? && e.key in REQUIRED[..n] && ValueOf(entries, e.key) == Some(""))
  {
    if n > 0 {
      RequiredReports(entries, n - 1, e);
      assert REQUIRED[..n] == REQUIRED[..n - 1] + [REQUIRED[n - 1]];
    }
  }

  lemma {:induction false} ValueIsAnEntry(entries: seq<Entry>, key: string)
    requires forall i, j :: 0 <= i < j < |entries| ==> entries[i].key != entries[j].key
    ensures forall value :: ValueOf(entries, key) == Some(value) <==> Entry(key, value) in entries
    decreases |entries|
  {
    if entries != [] {
      ValueIsAnEntry(entries[1..], key);
      assert entries == [entries[0]] + entries[1..];
    }
  }

  predicate DifferentKeys(r: Reading) {
    && (forall i :: 0 <= i < |r.entries| ==> r.entries[i].key in r.seen)
    && (forall i, j :: 0 <= i < j < |r.entries| ==> r.entries[i].key != r.entries[j].key)
  }

  lemma OneLineKeepsKeysApart(before: Reading, kind: LineKind, line: nat, bedShapeOk: string -> bool)
    requires DifferentKeys(before)
    ensures DifferentKeys(ReadLine(before, kind, line, bedShapeOk))
  {
  }

  lemma {:induction false} EntriesHaveDifferentKeys(lines: seq<string>, n: nat, bedShapeOk: string -> bool)
    requires n <= |lines|
    ensures DifferentKeys(ReadLines(lines, n, bedShapeOk))
  {
    hide Classify, ReadLine;
    if n > 0 {
      EntriesHaveDifferentKeys(lines, n - 1, bedShapeOk);
      OneLineKeepsKeysApart(ReadLines(lines, n - 1, bedShapeOk), Classify(lines[n - 1]), n, bedShapeOk);
    }
  }

  /** Which entries a profile has, and which errors: each error with its line, a repeated key even if its first line was
      refused, and of the five needed settings those that no entry sets and those that one sets to nothing. */
  lemma ProfileAnswer(contents: string, bedShapeOk: string -> bool, e: ProfileError, entry: Entry)
    ensures var (lines, result) := (LinesOf(contents), Parse(contents, bedShapeOk));
            && (entry in result.entries <==> exists i :: 0 <= i < |lines| && Gives(lines, i, bedShapeOk, entry))
            && (e in result.errors <==>
                  || (exists i :: 0 <= i < |lines| && Reports(lines, i, bedShapeOk, e))
                  || (e.MissingSetting? && Needed(e.key) && forall o :: o in result.entries ==> o.key != e.key)
                  || (e.EmptySetting? && Needed(e.key) && Entry(e.key, "") in result.entries))
  {
    hide Reports, Gives, LinesOf, Needed;
    var lines := LinesOf(contents);
    var entries := ReadLines(lines, |lines|, bedShapeOk).entries;
    LinesGive(lines, |lines|, bedShapeOk, e, entry);
    RequiredReports(entries, |REQUIRED|, e);
    assert REQUIRED[..|REQUIRED|] == REQUIRED;
    if e.MissingSetting? || e.EmptySetting? {
      NeededIff(e.key);
      EntriesHaveDifferentKeys(lines, |lines|, bedShapeOk);
      NoValueMeansNoEntry(entries, e.key);
      ValueIsAnEntry(entries, e.key);
    }
  }

  lemma NoValueMeansNoEntry(entries: seq<Entry>, key: string)
    requires forall i, j :: 0 <= i < j < |entries| ==> entries[i].key != entries[j].key
    ensures ValueOf(entries, key).None? <==> forall o :: o in entries ==> o.key != key
  {
    ValueIsAnEntry(entries, key);
    if o :| o in entries && o.key == key {
      assert Entry(key, o.value) == o;
    }
  }

  /** How many of the first `n` lines name the key. */
  lemma {:induction false} CountNamedIs(lines: seq<string>, n: nat, key: string)
    requires n <= |lines|
    ensures CountNamed(lines, n, key) == |set i | 0 <= i < n && NamedAs(lines[i], key)|
  {
    hide Names, NamedAs;
    if n > 0 {
      CountNamedIs(lines, n - 1, key);
      NamesIff(lines[n - 1], key);
      var (was, now) := (set i | 0 <= i < n - 1 && NamedAs(lines[i], key), set i | 0 <= i < n && NamedAs(lines[i], key));
      assert now == if NamedAs(lines[n - 1], key) then was + {n - 1} else was;
    }
  }

  /** An update replaces the text exactly if one line names the key, and else says how many do. */
  lemma UpdateAnswer(contents: string, key: string, value: string)
    ensures var lines := LinesOf(contents);
            var found := |set i | 0 <= i < |lines| && NamedAs(lines[i], key)|;
            && (Update(contents, key, value).Updated? <==> found == 1)
            && (Update(contents, key, value).WrongCount? ==> Update(contents, key, value).found == found)
  {
    hide LinesOf, NamedAs;
    CountNamedIs(LinesOf(contents), |LinesOf(contents)|, key);
  }
}
