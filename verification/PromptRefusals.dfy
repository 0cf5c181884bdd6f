/** Why the strict template renderer refuses: which mistake is reported, and where in the text or the lists it is. */
module PromptRefusals {
  import opened Text
  import opened PromptTemplate

  // ----- names ------------------------------------------------------------------------

  /** ASCII capitals, digits and the underscore, at least one. */
  predicate PlaceholderName(name: string) {
    && |name| > 0
    && forall i :: 0 <= i < |name| ==>
         var code := name[i] as int; 65 <= code <= 90 || 48 <= code <= 57 || code == 95
  }

  lemma NameIff(name: string)
    ensures ValidName(name) <==> PlaceholderName(name)
  {
  }

  // ----- mistakes in the template -----------------------------------------------------

  predicate Doubled(whole: string, i: int, c: char) {
    0 <= i < |whole| - 1 && whole[i] == whole[i + 1] == c
  }

  /** No doubled `c` begins between `from` and `to`. */
  predicate AbsentFrom(whole: string, from: int, to: int, c: char) {
    forall i :: from <= i < to ==> !Doubled(whole, i, c)
  }

  /** At `cursor` the text has, next among its delimiters, a mistake. */
  ghost predicate MistakeAt(whole: string, cursor: nat, error: TemplateError) {
    match error
    case UnmatchedClose =>
      exists k :: cursor <= k && Doubled(whole, k, '}') && AbsentFrom(whole, cursor, k, '}') && AbsentFrom(whole, cursor, k, '{')
    case Unclosed =>
      exists k :: cursor <= k && OpensAt(whole, cursor, k) && AbsentFrom(whole, k + 2, |whole|, '}')
    case InvalidName(name) =>
      exists k, e :: cursor <= k && OpensAt(whole, cursor, k) && NamedBetween(whole, k, e, name) && !PlaceholderName(name)
    case _ => false
  }

  /** The next delimiter opens a placeholder at `k`. */
  predicate OpensAt(whole: string, cursor: nat, k: int) {
    Doubled(whole, k, '{') && AbsentFrom(whole, cursor, k, '{') && AbsentFrom(whole, cursor, k, '}')
  }

  /** The name after `k` reaches to the first closing delimiter. */
  predicate NamedBetween(whole: string, k: int, e: int, name: string) {
    0 <= k && k + 2 <= e && Doubled(whole, e, '}') && AbsentFrom(whole, k + 2, e, '}') && name == whole[k + 2..e]
  }

  lemma FindIs(text: string, from: nat, c: char)
    requires from <= |text|
    ensures Find(text, from, c).Some? ==>
              from <= Find(text, from, c).value && Doubled(text, Find(text, from, c).value, c)
              && AbsentFrom(text, from, Find(text, from, c).value, c)
    ensures Find(text, from, c).None? ==> AbsentFrom(text, from, |text|, c)
  {
    forall i ensures PairAt(text, i, c) <==> Doubled(text, i, c) {
    }
  }

  lemma FindIsUnique(text: string, from: nat, c: char, k: int)
    requires from <= |text| && from <= k
    requires Doubled(text, k, c) && AbsentFrom(text, from, k, c)
    ensures Find(text, from, c) == Some(k)
  {
    hide Find, Doubled;
    FindIs(text, from, c);
    DoubledIsInside(text, k, c);
  }

  lemma DoubledIsInside(text: string, k: int, c: char)
    requires Doubled(text, k, c)
    ensures 0 <= k < |text| - 1
  {
  }

  /** Both kinds of braces are doubled at one place only if the place holds neither. */
  lemma TurnStopsIff(text: string, cursor: nat, error: TemplateError)
    requires cursor <= |text|
    ensures NextTurn(text, cursor) == Stop(error) <==> MistakeAt(text, cursor, error)
  {
    hide Find, Doubled, AbsentFrom, ValidName, PlaceholderName;
    FindIs(text, cursor, '{');
    FindIs(text, cursor, '}');
    var open, close := Find(text, cursor, '{'), Find(text, cursor, '}');
    if open.Some? {
      FindIs(text, open.value + 2, '}');
      var end := Find(text, open.value + 2, '}');
      if end.Some? {
        NameIff(text[open.value + 2..end.value]);
      }
    }
    if NextTurn(text, cursor) == Stop(error) {
      StopIsAMistake(text, cursor, error);
    }
    if MistakeAt(text, cursor, error) {
      MistakeStops(text, cursor, error);
    }
  }

  lemma AbsentBefore(text: string, from: int, to: int, less: int, c: char)
    requires AbsentFrom(text, from, to, c) && less <= to
    ensures AbsentFrom(text, from, less, c)
  {
  }

  lemma StopIsAMistake(text: string, cursor: nat, error: TemplateError)
    requires cursor <= |text| && NextTurn(text, cursor) == Stop(error)
    ensures MistakeAt(text, cursor, error)
  {
    hide Find, Doubled, AbsentFrom, ValidName, PlaceholderName;
    FindIs(text, cursor, '{');
    FindIs(text, cursor, '}');
    var open, close := Find(text, cursor, '{'), Find(text, cursor, '}');
    if close.Some? && (open.None? || close.value < open.value) {
      AbsentBefore(text, cursor, if open.None? then |text| else open.value, close.value, '{');
    } else {
      AbsentBefore(text, cursor, if close.None? then |text| else close.value, open.value, '}');
      assert OpensAt(text, cursor, open.value);
      FindIs(text, open.value + 2, '}');
      var end := Find(text, open.value + 2, '}');
      if end.Some? {
        NameIff(text[open.value + 2..end.value]);
        assert NamedBetween(text, open.value, end.value, text[open.value + 2..end.value]);
      }
    }
  }

  lemma FindsLater(text: string, from: nat, c: char, k: int)
    requires from <= |text| && from <= k <= |text| && AbsentFrom(text, from, k, c)
    ensures Find(text, from, c).None? || Find(text, from, c).value >= k
  {
    FindIs(text, from, c);
  }

  lemma MistakeStops(text: string, cursor: nat, error: TemplateError)
    requires cursor <= |text| && MistakeAt(text, cursor, error)
    ensures NextTurn(text, cursor) == Stop(error)
  {
    hide Find, Doubled, AbsentFrom, ValidName, PlaceholderName;
    match error
    case UnmatchedClose =>
      var k :| cursor <= k && Doubled(text, k, '}') && AbsentFrom(text, cursor, k, '}') && AbsentFrom(text, cursor, k, '{');
      DoubledIsInside(text, k, '}');
      FindIsUnique(text, cursor, '}', k);
      FindsLater(text, cursor, '{', k);
      NotBothBraces(text, cursor);
    case Unclosed =>
      var k :| cursor <= k && OpensAt(text, cursor, k) && AbsentFrom(text, k + 2, |text|, '}');
      OpensNext(text, cursor, k);
      NoneFound(text, k + 2, '}');
    case InvalidName(name) =>
      var k, e :| cursor <= k && OpensAt(text, cursor, k) && NamedBetween(text, k, e, name) && !PlaceholderName(name);
      OpensNext(text, cursor, k);
      FindIsUnique(text, k + 2, '}', e);
      NameIff(name);
    case _ =>
  }

  lemma NoneFound(text: string, from: nat, c: char)
    requires from <= |text| && AbsentFrom(text, from, |text|, c)
    ensures Find(text, from, c).None?
  {
    FindIs(text, from, c);
  }

  /** No place holds both delimiters. */
  lemma NotBothBraces(text: string, cursor: nat)
    requires cursor <= |text|
    ensures Find(text, cursor, '{').Some? ==> Find(text, cursor, '{') != Find(text, cursor, '}')
  {
  }

  lemma OpensNext(text: string, cursor: nat, k: int)
    requires cursor <= k && cursor <= |text| && OpensAt(text, cursor, k)
    ensures Find(text, cursor, '{') == Some(k)
    ensures k + 2 <= |text| && (Find(text, cursor, '}').None? || Find(text, cursor, '}').value > k)
  {
    hide Find, Doubled, AbsentFrom;
    DoubledIsInside(text, k, '{');
    FindIsUnique(text, cursor, '{', k);
    FindsLater(text, cursor, '}', k);
    NotBothBraces(text, cursor);
  }

  // ----- where the first scan stops ---------------------------------------------------------

  /** The template ends with a placeholder, or is empty. */
  predicate Closed(p: Template) {
    match p
    case End(text) => text == ""
    case Then(_, _, rest) => Closed(rest)
  }

  /** A well-formed template with a placeholder at its end, and then the mistake. */
  ghost predicate BreaksAt(text: string, p: Template, at: nat, error: TemplateError) {
    at <= |text| && Closed(p) && WellFormed(p) && Flatten(p) == text[..at] && MistakeAt(text, at, error)
  }

  lemma {:induction false} ScanStops(text: string, cursor: nat) returns (p: Template, at: nat)
    requires cursor <= |text| && Parse(text, cursor).Err?
    ensures cursor <= at <= |text| && Closed(p) && WellFormed(p) && Flatten(p) == text[cursor..at]
    ensures MistakeAt(text, at, Parse(text, cursor).error)
    decreases |text| - cursor
  {
    hide NextTurn, WellFormed, Flatten, MistakeAt, ValidName, NoPair;
    match NextTurn(text, cursor)
    case Stop(error) =>
      TurnStopsIff(text, cursor, error);
      EmptyTemplate();
      p, at := End(""), cursor;
      assert text[cursor..cursor] == "";
    case Hole(open, close) =>
      var rest, stop := ScanStops(text, close + 2);
      TurnIsSound(text, cursor);
      if cursor < open {
        LastCharacter(text, cursor, open);
      }
      ThenIsWellFormed(text[cursor..open], text[open + 2..close], rest);
      PiecesUpTo(text, cursor, open, close, stop);
      p, at := Then(text[cursor..open], text[open + 2..close], rest), stop;
  }

  lemma EmptyTemplate()
    ensures WellFormed(End("")) && Flatten(End("")) == "" && Closed(End(""))
  {
  }

  lemma PiecesUpTo(text: string, cursor: nat, open: nat, close: nat, stop: nat)
    requires cursor <= open && open + 2 <= close && close + 2 <= stop <= |text|
    requires text[open] == text[open + 1] == '{' && text[close] == text[close + 1] == '}'
    ensures text[cursor..stop] == text[cursor..open] + "{{" + text[open + 2..close] + "}}" + text[close + 2..stop]
  {
    PiecesOf(text[..stop], cursor, open, close);
    assert text[..stop][cursor..] == text[cursor..stop] && text[..stop][close + 2..] == text[close + 2..stop];
    assert text[..stop][cursor..open] == text[cursor..open] && text[..stop][open + 2..close] == text[open + 2..close];
  }

  /** The scan reads a closed template up to its end. */
  lemma {:induction false} ClosedIsReadFirst(text: string, cursor: nat, p: Template, at: nat)
    requires cursor <= at <= |text| && Closed(p) && WellFormed(p) && Flatten(p) == text[cursor..at]
    ensures Parse(text, at).Err? ==> Parse(text, cursor) == Parse(text, at)
    decreases p
  {
    hide NextTurn, NoPair, ValidName, Flatten;
    match p
    case End(_) =>
      EmptyTemplate();
      assert |text[cursor..at]| == at - cursor;
    case Then(lit, name, rest) =>
      FlattenOfHole(p);
      var tail := Flatten(rest) + text[at..];
      assert text[cursor..] == text[cursor..at] + text[at..];
      assert text[cursor..] == lit + "{{" + name + "}}" + tail;
      HoleIsComplete(text, cursor, lit, name, tail);
      var next := cursor + |lit| + 2 + |name| + 2;
      assert |text[next..]| == |tail|;
      assert text[next..][..|Flatten(rest)|] == Flatten(rest);
      assert text[next..at] == Flatten(rest);
      ClosedIsReadFirst(text, next, rest, at);
  }

  /** The first scan fails with an error exactly if the text is a well-formed template up to such a mistake. */
  lemma ScanFailsIff(text: string, error: TemplateError)
    ensures Parse(text, 0) == Err(error) <==> exists p, at: nat :: BreaksAt(text, p, at, error)
  {
    hide MistakeAt, WellFormed, Flatten, Closed, NextTurn;
    if Parse(text, 0) == Err(error) {
      var p, at := ScanStops(text, 0);
      assert text[0..at] == text[..at];
      assert BreaksAt(text, p, at, error);
    }
    forall p, at: nat | BreaksAt(text, p, at, error) ensures Parse(text, 0) == Err(error) {
      TurnStopsIff(text, at, error);
      assert text[0..at] == text[..at];
      ClosedIsReadFirst(text, 0, p, at);
    }
  }

  // ----- mistakes in the lists ----------------------------------------------------------------

  /** The names before position `i` are fine. */
  predicate FineBefore(names: seq<string>, i: nat)
    requires i <= |names|
  {
    forall j :: 0 <= j < i ==> PlaceholderName(names[j]) && names[j] !in names[..j]
  }

  /** Position `i` holds the first mistake among the declared names. */
  predicate DeclaresBadly(names: seq<string>, i: nat, error: TemplateError)
    requires i < |names|
  {
    FineBefore(names, i)
    && if !PlaceholderName(names[i]) then error == InvalidName(names[i])
       else names[i] in names[..i] && error == DuplicateDeclaration(names[i])
  }

  /** Position `i` holds the first mistake among the given values. */
  predicate ProvidesBadly(names: seq<string>, declared: seq<string>, i: nat, error: TemplateError)
    requires i < |names|
  {
    FineBefore(names, i) && (forall j :: 0 <= j < i ==> names[j] in declared)
    && if !PlaceholderName(names[i]) then error == InvalidName(names[i])
       else if names[i] !in declared then error == UnknownValue(names[i])
       else names[i] in names[..i] && error == DuplicateValue(names[i])
  }

  ghost predicate SameElements(names: seq<string>, i: nat, seen: set<string>)
    requires i <= |names|
  {
    forall name :: name in seen <==> name in names[..i]
  }

  lemma {:induction false} DeclarationFailsFrom(names: seq<string>, i: nat, seen: set<string>, error: TemplateError)
    requires i <= |names| && FineBefore(names, i) && SameElements(names, i, seen)
    ensures CheckDeclared(names[i..], seen) == Err(error) <==> exists k :: i <= k < |names| && DeclaresBadly(names, k, error)
    decreases |names| - i
  {
    hide PlaceholderName, ValidName;
    if i < |names| {
      NameIff(names[i]);
      assert names[i..][1..] == names[i + 1..];
      if ValidName(names[i]) && names[i] !in seen {
        assert names[..i + 1] == names[..i] + [names[i]];
        DeclarationFailsFrom(names, i + 1, seen + {names[i]}, error);
        assert !DeclaresBadly(names, i, error);
      } else {
        NothingFineAfter(names, i);
        assert CheckDeclared(names[i..], seen) == Err(error) <==> DeclaresBadly(names, i, error);
      }
    }
  }

  lemma NothingFineAfter(names: seq<string>, i: nat)
    requires i < |names| && !(PlaceholderName(names[i]) && names[i] !in names[..i])
    ensures forall k :: i < k <= |names| ==> !FineBefore(names, k)
  {
    hide PlaceholderName;
  }

  /** The declared names are refused exactly for the first of them that is no name or a repetition. */
  lemma DeclarationFailsIff(declared: seq<string>, error: TemplateError)
    ensures CheckDeclared(declared, {}) == Err(error)
            <==> exists k :: 0 <= k < |declared| && DeclaresBadly(declared, k, error)
  {
    hide PlaceholderName, DeclaresBadly;
    assert declared[0..] == declared;
    DeclarationFailsFrom(declared, 0, {}, error);
  }

  lemma {:induction false} KeysOfAt(provided: seq<(string, string)>)
    ensures |KeysOf(provided)| == |provided| && forall i :: 0 <= i < |provided| ==> KeysOf(provided)[i] == provided[i].0
  {
    if provided != [] {
      KeysOfAt(provided[1..]);
    }
  }

  lemma {:induction false} ProvisionFailsFrom(provided: seq<(string, string)>, declared: seq<string>, allowed: set<string>,
                                              i: nat, values: map<string, string>, error: TemplateError)
    requires i <= |provided| == |KeysOf(provided)| && forall name :: name in allowed <==> name in declared
    requires FineBefore(KeysOf(provided), i) && SameElements(KeysOf(provided), i, values.Keys)
    requires forall j :: 0 <= j < i ==> KeysOf(provided)[j] in declared
    ensures CheckProvided(provided[i..], allowed, values) == Err(error)
            <==> exists k :: i <= k < |provided| && ProvidesBadly(KeysOf(provided), declared, k, error)
    decreases |provided| - i
  {
    hide PlaceholderName, ValidName, KeysOf;
    var names := KeysOf(provided);
    KeysOfAt(provided);
    if i < |provided| {
      NameIff(names[i]);
      assert provided[i..][1..] == provided[i + 1..];
      if ValidName(names[i]) && names[i] in allowed && names[i] !in values {
        assert names[..i + 1] == names[..i] + [names[i]];
        ProvisionFailsFrom(provided, declared, allowed, i + 1, values[names[i] := provided[i].1], error);
        assert !ProvidesBadly(names, declared, i, error);
      } else {
        if names[i] in declared {
          NothingFineAfter(names, i);
        }
        assert CheckProvided(provided[i..], allowed, values) == Err(error) <==> ProvidesBadly(names, declared, i, error);
      }
    }
  }

  /** The given values are refused exactly for the first of them whose name is no name, not declared or a repetition. */
  lemma ProvisionFailsIff(provided: seq<(string, string)>, declared: seq<string>, allowed: set<string>, error: TemplateError)
    requires forall name :: name in allowed <==> name in declared
    ensures |KeysOf(provided)| == |provided|
    ensures CheckProvided(provided, allowed, map[]) == Err(error)
            <==> exists k :: 0 <= k < |provided| && ProvidesBadly(KeysOf(provided), declared, k, error)
  {
    hide PlaceholderName, ProvidesBadly;
    KeysOfAt(provided);
    assert provided[0..] == provided;
    ProvisionFailsFrom(provided, declared, allowed, 0, map[], error);
  }

  // ----- the report ----------------------------------------------------------------------------

  /** What the renderer reports: the first mistake among the declared names, else among the given values, else that a
      value is missing, else the first mistake in the template, else a placeholder that is not declared, else a declared
      one that does not occur exactly once. */
  ghost predicate Reported(declared: seq<string>, provided: seq<(string, string)>, template: string, error: TemplateError)
    requires |KeysOf(provided)| == |provided|
  {
    var keys := KeysOf(provided);
    if exists k, e :: 0 <= k < |declared| && DeclaresBadly(declared, k, e)
    then exists k :: 0 <= k < |declared| && DeclaresBadly(declared, k, error)
    else if exists k, e :: 0 <= k < |keys| && ProvidesBadly(keys, declared, k, e)
    then exists k :: 0 <= k < |keys| && ProvidesBadly(keys, declared, k, error)
    else TemplateFails(declared, keys, template, error)
  }

  /** With names and values in order. */
  ghost predicate TemplateFails(declared: seq<string>, keys: seq<string>, template: string, error: TemplateError) {
    if exists name :: name in declared && name !in keys then error == MissingValues
    else if exists p, at: nat, e :: BreaksAt(template, p, at, e) then exists p, at: nat :: BreaksAt(template, p, at, error)
    else exists p :: WellFormed(p) && Flatten(p) == template && WrongNames(Names(p), declared, error)
  }

  ghost predicate WrongNames(names: seq<string>, declared: seq<string>, error: TemplateError) {
    if exists name :: name in names && name !in declared then error == UnknownPlaceholder
    else (exists name :: name in declared && multiset(names)[name] != 1) && error == NotExactlyOnce
  }

  lemma CheckedFailsIff(allowed: set<string>, declared: seq<string>, keys: seq<string>, values: map<string, string>,
                        template: string, error: TemplateError)
    requires forall name :: name in allowed <==> name in declared
    requires forall name :: name in values <==> name in keys
    ensures RenderChecked(allowed, values, template) == Err(error) <==> TemplateFails(declared, keys, template, error)
  {
    hide BreaksAt, WellFormed, Flatten, Parse, Fill, Names, WrongNames;
    forall p, at: nat, e | BreaksAt(template, p, at, e) ensures Parse(template, 0) == Err(e) {
      ScanFailsIff(template, e);
    }
    assert allowed <= values.Keys <==> !exists name :: name in declared && name !in keys;
    match Parse(template, 0)
    case Err(e) =>
      ScanFailsIff(template, e);
      var p, at: nat :| BreaksAt(template, p, at, e);
    case Ok(p) =>
      forall q ensures WellFormed(q) && Flatten(q) == template <==> q == p {
        ParseIff(template, q);
      }
      assert WellFormed(p) && Flatten(p) == template;
      if allowed <= values.Keys {
        WrongNamesIff(allowed, declared, values, template, p, error);
      }
  }

  lemma WrongNamesIff(allowed: set<string>, declared: seq<string>, values: map<string, string>, template: string,
                      p: Template, error: TemplateError)
    requires forall name :: name in allowed <==> name in declared
    requires allowed <= values.Keys && Parse(template, 0) == Ok(p)
    ensures RenderChecked(allowed, values, template) == Err(error) <==> WrongNames(Names(p), declared, error)
  {
    hide Parse, Fill, Names;
    assert (exists name :: name in Names(p) && name !in allowed) <==> (exists name :: name in Names(p) && name !in declared);
    assert (exists name :: name in allowed && multiset(Names(p))[name] != 1)
           <==> (exists name :: name in declared && multiset(Names(p))[name] != 1);
  }

  /** A render is refused with an error exactly if that error is due. */
  lemma RenderFailsIff(declared: seq<string>, provided: seq<(string, string)>, template: string, error: TemplateError)
    ensures |KeysOf(provided)| == |provided|
    ensures Render(declared, provided, template) == Err(error) <==> Reported(declared, provided, template, error)
  {
    hide DeclaresBadly, ProvidesBadly, RenderChecked, BreaksAt, WellFormed, Flatten, ValidNames, Distinct,
      TemplateFails, CheckDeclared, CheckProvided;
    KeysOfAt(provided);
    forall k, e | 0 <= k < |declared| && DeclaresBadly(declared, k, e) ensures CheckDeclared(declared, {}) == Err(e) {
      DeclarationFailsIff(declared, e);
    }
    DeclaredIff(declared, {});
    match CheckDeclared(declared, {})
    case Err(e) =>
      DeclarationFailsIff(declared, e);
      var k :| 0 <= k < |declared| && DeclaresBadly(declared, k, e);
    case Ok(allowed) =>
      forall k, e | 0 <= k < |provided| && ProvidesBadly(KeysOf(provided), declared, k, e)
        ensures CheckProvided(provided, allowed, map[]) == Err(e)
      {
        ProvisionFailsIff(provided, declared, allowed, e);
      }
      ProvidedIff(provided, allowed, map[]);
      match CheckProvided(provided, allowed, map[])
      case Err(e) =>
        ProvisionFailsIff(provided, declared, allowed, e);
        var k :| 0 <= k < |provided| && ProvidesBadly(KeysOf(provided), declared, k, e);
      case Ok(values) =>
        CheckedFailsIff(allowed, declared, KeysOf(provided), values, template, error);
  }
}
