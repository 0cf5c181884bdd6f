/** The strict template renderer (prompt_template.rs): one scan that checks, a second one that fills. */
module PromptTemplate {
  import opened Text

  datatype TemplateError =
    | InvalidName(name: string)
    | DuplicateDeclaration(name: string)
    | UnknownValue(name: string)
    | DuplicateValue(name: string)
    | MissingValues
    | UnmatchedClose
    | Unclosed
    | UnknownPlaceholder
    | NotExactlyOnce

  datatype Result<+T> = Ok(value: T) | Err(error: TemplateError)

  // ----- what a template is -----------------------------------------------------------

  /** Literal text between placeholders. */
  datatype Template = End(text: string) | Then(text: string, name: string, rest: Template)

  function Flatten(p: Template): string {
    match p
    case End(text) => text
    case Then(text, name, rest) => text + "{{" + name + "}}" + Flatten(rest)
  }

  function Names(p: Template): seq<string> {
    match p
    case End(_) => []
    case Then(_, name, rest) => [name] + Names(rest)
  }

  ghost predicate Covers(values: map<string, string>, p: Template) {
    forall name :: name in Names(p) ==> name in values
  }

  /** The rendered text: literal text as it is, every placeholder replaced by its value. */
  function Fill(p: Template, values: map<string, string>): string
    requires Covers(values, p)
  {
    match p
    case End(text) => text
    case Then(text, name, rest) =>
      assert name in Names(p) && forall n :: n in Names(rest) ==> n in Names(p);
      text + values[name] + Fill(rest, values)
  }

  predicate ValidName(name: string) {
    name != "" && forall i :: 0 <= i < |name| ==> 'A' <= name[i] <= 'Z' || '0' <= name[i] <= '9' || name[i] == '_'
  }

  /** Two `c` in a row at `i`. */
  predicate PairAt(text: string, i: int, c: char) {
    0 <= i && i + 1 < |text| && text[i] == c && text[i + 1] == c
  }

  predicate NoPair(text: string, c: char) {
    forall i :: 0 <= i < |text| ==> !PairAt(text, i, c)
  }

  /** Literal text holds no delimiter, and none begins inside it. */
  predicate WellFormed(p: Template) {
    match p
    case End(text) => NoPair(text, '{') && NoPair(text, '}')
    case Then(text, name, rest) =>
      NoPair(text, '{') && NoPair(text, '}') && (text != "" ==> text[|text| - 1] != '{')
      && ValidName(name) && WellFormed(rest)
  }

  // ----- the first scan ------------------------------------------------------------------

  /** The first `cc` at or after `from`. */
  function Find(text: string, from: nat, c: char): (r: Option<nat>)
    requires from <= |text|
    ensures r.Some? ==> from <= r.value && r.value + 2 <= |text| && PairAt(text, r.value, c)
    ensures r.Some? ==> forall i :: from <= i < r.value ==> !PairAt(text, i, c)
    ensures r.None? ==> forall i :: from <= i ==> !PairAt(text, i, c)
    decreases |text| - from
  {
    if from + 1 >= |text| then None
    else if PairAt(text, from, c) then Some(from)
    else Find(text, from + 1, c)
  }

  /** One turn of the first scan: no more delimiters, a placeholder from `open` to `close`, or an error. */
  datatype Turn = Last | Hole(open: nat, close: nat) | Stop(error: TemplateError)

  function NextTurn(text: string, cursor: nat): (turn: Turn)
    requires cursor <= |text|
    ensures turn.Hole? ==> cursor <= turn.open && turn.open + 2 <= turn.close && turn.close + 2 <= |text|
  {
    var open, close := Find(text, cursor, '{'), Find(text, cursor, '}');
    if close.Some? && (open.None? || close.value < open.value) then Stop(UnmatchedClose)
    else if open.None? then Last
    else
      var end := Find(text, open.value + 2, '}');
      if end.None? then Stop(Unclosed)
      else if !ValidName(text[open.value + 2..end.value]) then Stop(InvalidName(text[open.value + 2..end.value]))
      else Hole(open.value, end.value)
  }

  /** What the first scan makes of the text from `cursor` on. */
  function Parse(text: string, cursor: nat): (r: Result<Template>)
    requires cursor <= |text|
    decreases |text| - cursor
  {
    match NextTurn(text, cursor)
    case Stop(error) => Err(error)
    case Last => Ok(End(text[cursor..]))
    case Hole(open, close) =>
      match Parse(text, close + 2)
      case Err(error) => Err(error)
      case Ok(rest) => Ok(Then(text[cursor..open], text[open + 2..close], rest))
  }

  lemma PairInPart(text: string, from: nat, to: nat, i: int, c: char)
    requires from <= to <= |text|
    ensures PairAt(text[from..to], i, c) <==> 0 <= i && from + i + 1 < to && PairAt(text, from + i, c)
  {
  }

  lemma NoPairInPart(text: string, from: nat, to: nat, c: char)
    requires from <= to <= |text|
    requires forall i :: from <= i < to - 1 ==> !PairAt(text, i, c)
    ensures NoPair(text[from..to], c)
  {
    forall i | 0 <= i < to - from ensures !PairAt(text[from..to], i, c) {
      PairInPart(text, from, to, i, c);
    }
  }

  lemma TurnIsSound(text: string, cursor: nat)
    requires cursor <= |text|
    ensures NextTurn(text, cursor).Last? ==> NoPair(text[cursor..], '{') && NoPair(text[cursor..], '}')
    ensures NextTurn(text, cursor).Hole? ==>
              var (open, close) := (NextTurn(text, cursor).open, NextTurn(text, cursor).close);
              && NoPair(text[cursor..open], '{') && NoPair(text[cursor..open], '}')
              && (cursor < open ==> text[open - 1] != '{')
              && text[open] == text[open + 1] == '{' && text[close] == text[close + 1] == '}'
              && ValidName(text[open + 2..close])
  {
    hide NoPair, ValidName;
    var turn := NextTurn(text, cursor);
    if turn.Last? {
      NoPairInPart(text, cursor, |text|, '{');
      NoPairInPart(text, cursor, |text|, '}');
      assert text[cursor..|text|] == text[cursor..];
    } else if turn.Hole? {
      NoPairInPart(text, cursor, turn.open, '{');
      NoPairInPart(text, cursor, turn.open, '}');
      if cursor < turn.open {
        assert !PairAt(text, turn.open - 1, '{');
      }
    }
  }

  /** A scan that succeeds returns a well-formed template that reads as the text. */
  lemma {:induction false} ParseIsSound(text: string, cursor: nat)
    requires cursor <= |text| && Parse(text, cursor).Ok?
    ensures WellFormed(Parse(text, cursor).value) && Flatten(Parse(text, cursor).value) == text[cursor..]
    decreases |text| - cursor
  {
    hide NextTurn, WellFormed, Flatten;
    var turn := NextTurn(text, cursor);
    if turn.Hole? {
      ParseIsSound(text, turn.close + 2);
      HoleIsSound(text, cursor, Parse(text, turn.close + 2).value);
    } else {
      LastIsSound(text, cursor);
    }
  }

  lemma LastIsSound(text: string, cursor: nat)
    requires cursor <= |text| && NextTurn(text, cursor).Last?
    ensures WellFormed(End(text[cursor..])) && Flatten(End(text[cursor..])) == text[cursor..]
  {
    TurnIsSound(text, cursor);
    hide NextTurn, NoPair;
  }

  lemma HoleIsSound(text: string, cursor: nat, rest: Template)
    requires cursor <= |text| && NextTurn(text, cursor).Hole? && WellFormed(rest)
    requires Flatten(rest) == text[NextTurn(text, cursor).close + 2..]
    ensures var (open, close) := (NextTurn(text, cursor).open, NextTurn(text, cursor).close);
            var p := Then(text[cursor..open], text[open + 2..close], rest);
            WellFormed(p) && Flatten(p) == text[cursor..]
  {
    hide NextTurn, NoPair, ValidName, PairAt, WellFormed, Flatten;
    TurnIsSound(text, cursor);
    var (open, close) := (NextTurn(text, cursor).open, NextTurn(text, cursor).close);
    PiecesOf(text, cursor, open, close);
    if cursor < open {
      LastCharacter(text, cursor, open);
    }
    ThenIsWellFormed(text[cursor..open], text[open + 2..close], rest);
  }

  lemma ThenIsWellFormed(text: string, name: string, rest: Template)
    requires NoPair(text, '{') && NoPair(text, '}') && (text != "" ==> text[|text| - 1] != '{')
    requires ValidName(name) && WellFormed(rest)
    ensures WellFormed(Then(text, name, rest))
    ensures Flatten(Then(text, name, rest)) == text + "{{" + name + "}}" + Flatten(rest)
  {
    hide NoPair, ValidName;
  }

  lemma LastCharacter(text: string, from: nat, to: nat)
    requires from < to <= |text|
    ensures text[from..to] != "" && text[from..to][|text[from..to]| - 1] == text[to - 1]
  {
  }

  lemma PiecesOf(text: string, cursor: nat, open: nat, close: nat)
    requires cursor <= open && open + 2 <= close && close + 2 <= |text|
    requires text[open] == text[open + 1] == '{' && text[close] == text[close + 1] == '}'
    ensures text[cursor..] == text[cursor..open] + "{{" + text[open + 2..close] + "}}" + text[close + 2..]
  {
    assert text[cursor..] == text[cursor..open] + text[open..];
    assert text[open..] == "{{" + text[open + 2..];
    assert text[open + 2..] == text[open + 2..close] + text[close..];
    assert text[close..] == "}}" + text[close + 2..];
  }

  /** Position of the first delimiters after literal text. */
  lemma OpensAfterText(whole: string, cursor: nat, text: string, tail: string)
    requires cursor <= |whole| && whole[cursor..] == text + ("{{" + tail)
    requires NoPair(text, '{') && NoPair(text, '}') && (text != "" ==> text[|text| - 1] != '{')
    ensures Find(whole, cursor, '{') == Some(cursor + |text|)
    ensures forall i :: cursor <= i < cursor + |text| ==> !PairAt(whole, i, '}')
  {
    var n, all := |text|, text + ("{{" + tail);
    assert forall i :: 0 <= i < |whole| - cursor ==> whole[cursor + i] == all[i];
    assert forall i :: 0 <= i < n ==> whole[cursor + i] == text[i];
    forall i, c | cursor <= i < cursor + n - 1 && (c == '{' || c == '}') ensures !PairAt(whole, i, c) {
      assert !PairAt(text, i - cursor, c);
    }
    assert all[n] == '{' && all[n + 1] == '{';
    assert whole[cursor + n] == '{' && whole[cursor + n + 1] == '{';
    assert PairAt(whole, cursor + n, '{');
  }

  lemma NothingOpensInText(whole: string, cursor: nat, text: string)
    requires cursor <= |whole| && whole[cursor..] == text && NoPair(text, '{') && NoPair(text, '}')
    ensures Find(whole, cursor, '{').None? && Find(whole, cursor, '}').None?
  {
    assert forall i :: 0 <= i < |text| ==> whole[cursor + i] == text[i];
    forall i, c | cursor <= i < |whole| - 1 && (c == '{' || c == '}') ensures !PairAt(whole, i, c) {
      assert !PairAt(text, i - cursor, c);
    }
  }

  /** The name is followed by the first closing delimiter after it. */
  lemma ClosesAfterName(whole: string, from: nat, name: string, rest: string)
    requires from <= |whole| && ValidName(name) && whole[from..] == name + "}}" + rest
    ensures Find(whole, from, '}') == Some(from + |name|)
    ensures from + |name| + 2 <= |whole| && whole[from..from + |name|] == name && whole[from + |name| + 2..] == rest
  {
    var tail := name + "}}" + rest;
    assert forall i :: 0 <= i < |whole| - from ==> whole[from + i] == tail[i];
    assert forall i :: 0 <= i < |name| ==> whole[from + i] == name[i];
    assert whole[from + |name|] == '}' && whole[from + |name| + 1] == '}';
    assert PairAt(whole, from + |name|, '}');
    forall i | from <= i < from + |name| ensures !PairAt(whole, i, '}') {
      assert whole[i] == name[i - from];
    }
    assert whole[from..][|name| + 2..] == rest;
  }

  lemma HoleFound(whole: string, cursor: nat, open: nat, close: nat)
    requires cursor <= open && open + 2 <= close && close + 2 <= |whole|
    requires Find(whole, cursor, '{') == Some(open) && Find(whole, open + 2, '}') == Some(close)
    requires ValidName(whole[open + 2..close]) && forall i :: cursor <= i < open ==> !PairAt(whole, i, '}')
    requires whole[open] == '{'
    ensures NextTurn(whole, cursor) == Hole(open, close)
  {
    assert !PairAt(whole, open, '}');
    hide ValidName;
  }

  lemma HoleIsComplete(whole: string, cursor: nat, text: string, name: string, tail: string)
    requires NoPair(text, '{') && NoPair(text, '}') && (text != "" ==> text[|text| - 1] != '{') && ValidName(name)
    requires cursor <= |whole| && whole[cursor..] == text + "{{" + name + "}}" + tail
    ensures var open := cursor + |text|;
            var close := open + 2 + |name|;
            && NextTurn(whole, cursor) == Hole(open, close)
            && whole[cursor..open] == text && whole[open + 2..close] == name
            && whole[close + 2..] == tail
  {
    hide PairAt, NoPair, NextTurn, ValidName, Find;
    Regroup(text, "{{", name, "}}" + tail);
    Regroup(text + "{{", name, "}}", tail);
    OpensAfterText(whole, cursor, text, name + "}}" + tail);
    SuffixOf(whole, cursor, text, "{{", name + "}}" + tail);
    ClosesAfterName(whole, cursor + |text| + 2, name, tail);
    OpensWithABrace(whole, cursor + |text|);
    HoleFound(whole, cursor, cursor + |text|, cursor + |text| + 2 + |name|);
  }

  lemma Regroup(a: string, b: string, c: string, d: string)
    ensures a + b + (c + d) == a + b + c + d == a + (b + c + d)
    ensures b + (c + d) == b + c + d
  {
  }

  lemma OpensWithABrace(whole: string, open: nat)
    requires open < |whole| && Find(whole, open, '{') == Some(open)
    ensures whole[open] == '{'
  {
  }

  lemma LastIsComplete(whole: string, cursor: nat, text: string)
    requires cursor <= |whole| && WellFormed(End(text)) && whole[cursor..] == Flatten(End(text))
    ensures NextTurn(whole, cursor) == Last && whole[cursor..] == text
  {
    NothingOpensInText(whole, cursor, text);
    hide PairAt, NoPair;
  }

  lemma SuffixOf(whole: string, cursor: nat, text: string, opening: string, rest: string)
    requires cursor <= |whole| && |opening| == 2 && whole[cursor..] == text + opening + rest
    ensures cursor + |text| + 2 <= |whole|
    ensures whole[cursor..cursor + |text|] == text && whole[cursor + |text| + 2..] == rest
  {
    assert whole[cursor..][..|text|] == text;
    assert whole[cursor..][|text| + 2..] == rest;
  }

  /** Every well-formed template is what the scan makes of its text. */
  lemma {:induction false} ParseIsComplete(whole: string, cursor: nat, p: Template)
    requires cursor <= |whole| && WellFormed(p) && whole[cursor..] == Flatten(p)
    ensures Parse(whole, cursor) == Ok(p)
    decreases p
  {
    hide NextTurn, NoPair, ValidName, Flatten;
    match p
    case End(text) => LastIsComplete(whole, cursor, text);
    case Then(text, name, rest) =>
      FlattenOfHole(p);
      HoleIsComplete(whole, cursor, text, name, Flatten(rest));
      ParseIsComplete(whole, cursor + |text| + 2 + |name| + 2, rest);
  }

  lemma FlattenOfHole(p: Template)
    requires p.Then?
    ensures Flatten(p) == p.text + "{{" + p.name + "}}" + Flatten(p.rest)
  {
  }

  /** The first scan recognises exactly the well-formed templates, each in one way. */
  lemma ParseIff(text: string, p: Template)
    ensures Parse(text, 0) == Ok(p) <==> WellFormed(p) && Flatten(p) == text
  {
    assert text[0..] == text;
    if Parse(text, 0) == Ok(p) {
      ParseIsSound(text, 0);
    }
    if WellFormed(p) && Flatten(p) == text {
      ParseIsComplete(text, 0, p);
    }
  }

  /** How often the names of a template occur. */
  ghost predicate Counts(occurrences: map<string, nat>, names: seq<string>) {
    forall name :: (name in occurrences <==> name in names)
                   && (name in occurrences ==> occurrences[name] == multiset(names)[name])
  }

  lemma OneMoreName(occurrences: map<string, nat>, names: seq<string>, name: string)
    requires Counts(occurrences, names)
    ensures Counts(occurrences[name := (if name in occurrences then occurrences[name] else 0) + 1], names + [name])
  {
    assert multiset(names + [name]) == multiset(names) + multiset{name};
  }

  /** The scan from `cursor` on decides the whole scan, of which `names` have been seen. */
  ghost predicate ScannedTo(text: string, cursor: nat, names: seq<string>, whole: Result<Template>)
    requires cursor <= |text|
  {
    match Parse(text, cursor)
    case Err(error) => whole == Err(error)
    case Ok(p) => whole.Ok? && Names(whole.value) == names + Names(p)
  }

  lemma ScanStep(text: string, cursor: nat, names: seq<string>, whole: Result<Template>)
    requires cursor <= |text| && ScannedTo(text, cursor, names, whole)
    ensures match NextTurn(text, cursor)
            case Stop(error) => whole == Err(error)
            case Last => whole.Ok? && Names(whole.value) == names
            case Hole(open, close) => ScannedTo(text, close + 2, names + [text[open + 2..close]], whole)
  {
    hide NextTurn, Names;
    match NextTurn(text, cursor)
    case Stop(_) =>
    case Last =>
      NamesOfEnd(text[cursor..]);
      assert names + [] == names;
    case Hole(open, close) =>
      match Parse(text, close + 2)
      case Err(_) =>
      case Ok(rest) =>
        NamesOfHole(text[cursor..open], text[open + 2..close], rest);
        NamesRegroup(names, text[open + 2..close], Names(rest));
  }

  lemma NamesOfEnd(text: string)
    ensures Names(End(text)) == []
  {
  }

  lemma NamesOfHole(text: string, name: string, rest: Template)
    ensures Names(Then(text, name, rest)) == [name] + Names(rest)
  {
  }

  lemma NamesRegroup(names: seq<string>, name: string, rest: seq<string>)
    ensures names + ([name] + rest) == (names + [name]) + rest
  {
  }

  lemma NothingLeft(text: string)
    ensures NextTurn(text, |text|) == Last
  {
  }

  lemma ScanBegins(text: string)
    ensures ScannedTo(text, 0, [], Parse(text, 0))
  {
    if Parse(text, 0).Ok? {
      assert [] + Names(Parse(text, 0).value) == Names(Parse(text, 0).value);
    }
  }

  /** `placeholder_occurrences`. */
  method PlaceholderOccurrences(template: string) returns (result: Result<map<string, nat>>)
    ensures match Parse(template, 0)
            case Err(error) => result == Err(error)
            case Ok(p) => result.Ok? && Counts(result.value, Names(p))
  {
    hide Counts, ScannedTo, Parse, Names, ValidName, PairAt;
    var occurrences: map<string, nat> := map[];
    ghost var names: seq<string>, whole := [], Parse(template, 0);
    NoCounts();
    ScanBegins(template);
    var cursor := 0;
    while cursor < |template|
      invariant cursor <= |template| && Counts(occurrences, names) && ScannedTo(template, cursor, names, whole)
    {
      ScanStep(template, cursor, names, whole);
      var nextOpen, nextClose := Find(template, cursor, '{'), Find(template, cursor, '}');
      if nextClose.Some? && (nextOpen.None? || nextClose.value < nextOpen.value) {
        return Err(UnmatchedClose);
      }
      if nextOpen.None? {
        return Ok(occurrences);
      }
      var nameStart := nextOpen.value + 2;
      var end := Find(template, nameStart, '}');
      if end.None? {
        return Err(Unclosed);
      }
      var placeholder := template[nameStart..end.value];
      if !ValidName(placeholder) {
        return Err(InvalidName(placeholder));
      }
      OneMoreName(occurrences, names, placeholder);
      occurrences := occurrences[placeholder := (if placeholder in occurrences then occurrences[placeholder] else 0) + 1];
      names := names + [placeholder];
      cursor := end.value + 2;
    }
    NothingLeft(template);
    ScanStep(template, cursor, names, whole);
    result := Ok(occurrences);
  }

  lemma NoCounts()
    ensures Counts(map[], [])
  {
  }

  // ----- rendering ---------------------------------------------------------------------------

  function CheckDeclared(declared: seq<string>, seen: set<string>): Result<set<string>> {
    if declared == [] then Ok(seen)
    else if !ValidName(declared[0]) then Err(InvalidName(declared[0]))
    else if declared[0] in seen then Err(DuplicateDeclaration(declared[0]))
    else CheckDeclared(declared[1..], seen + {declared[0]})
  }

  function CheckProvided(provided: seq<(string, string)>, allowed: set<string>, values: map<string, string>)
    : Result<map<string, string>>
  {
    if provided == [] then Ok(values)
    else
      var (name, value) := provided[0];
      if !ValidName(name) then Err(InvalidName(name))
      else if name !in allowed then Err(UnknownValue(name))
      else if name in values then Err(DuplicateValue(name))
      else CheckProvided(provided[1..], allowed, values[name := value])
  }

  /** The second half of the renderer, once declarations and values are checked. */
  ghost function RenderChecked(allowed: set<string>, values: map<string, string>, template: string): Result<string> {
    if !(allowed <= values.Keys) then Err(MissingValues)
    else
      match Parse(template, 0)
      case Err(error) => Err(error)
      case Ok(p) =>
        if exists name :: name in Names(p) && name !in allowed then Err(UnknownPlaceholder)
        else if exists name :: name in allowed && multiset(Names(p))[name] != 1 then Err(NotExactlyOnce)
        else Ok(Fill(p, values))
  }

  ghost function Render(declared: seq<string>, provided: seq<(string, string)>, template: string): Result<string> {
    match CheckDeclared(declared, {})
    case Err(error) => Err(error)
    case Ok(allowed) =>
      match CheckProvided(provided, allowed, map[])
      case Err(error) => Err(error)
      case Ok(values) => RenderChecked(allowed, values, template)
  }

  /** What is left to fill from `cursor` on, put after `rendered`, makes `whole`. */
  ghost predicate FilledTo(text: string, values: map<string, string>, cursor: nat, rendered: string, whole: string)
    requires cursor <= |text|
  {
    && Parse(text, cursor).Ok?
    && Covers(values, Parse(text, cursor).value)
    && whole == rendered + Fill(Parse(text, cursor).value, values)
  }

  lemma FillStep(text: string, values: map<string, string>, cursor: nat, rendered: string, whole: string)
    requires cursor <= |text| && FilledTo(text, values, cursor, rendered, whole)
    ensures !NextTurn(text, cursor).Stop?
    ensures NextTurn(text, cursor).Last? ==> whole == rendered + text[cursor..]
    ensures NextTurn(text, cursor).Hole? ==>
              var (open, close) := (NextTurn(text, cursor).open, NextTurn(text, cursor).close);
              && text[open + 2..close] in values
              && FilledTo(text, values, close + 2,
                          rendered + text[cursor..open] + values[text[open + 2..close]], whole)
  {
    var turn := NextTurn(text, cursor);
    hide NextTurn, Fill, Covers;
    if turn.Hole? {
      var p := Parse(text, cursor).value;
      FillOfHole(p, values);
      Regroup(rendered, p.text, values[p.name], Fill(p.rest, values));
    } else if turn.Last? {
      FillOfEnd(text[cursor..], values);
    }
  }

  lemma FillOfEnd(text: string, values: map<string, string>)
    ensures Covers(values, End(text)) && Fill(End(text), values) == text
  {
  }

  lemma FillOfHole(p: Template, values: map<string, string>)
    requires p.Then? && Covers(values, p)
    ensures p.name in values && Covers(values, p.rest)
    ensures Fill(p, values) == p.text + values[p.name] + Fill(p.rest, values)
  {
    assert p.name in Names(p) && forall n :: n in Names(p.rest) ==> n in Names(p);
  }

  lemma FillBegins(text: string, values: map<string, string>)
    requires Parse(text, 0).Ok? && Covers(values, Parse(text, 0).value)
    ensures FilledTo(text, values, 0, "", Fill(Parse(text, 0).value, values))
  {
    assert "" + Fill(Parse(text, 0).value, values) == Fill(Parse(text, 0).value, values);
  }

  /** The second scan: on a template that passed the first one, its error branches cannot be reached. */
  method FillTemplate(template: string, values: map<string, string>) returns (rendered: string)
    requires Parse(template, 0).Ok? && Covers(values, Parse(template, 0).value)
    ensures rendered == Fill(Parse(template, 0).value, values)
  {
    hide FilledTo, Parse, Covers, Fill, ValidName, PairAt;
    ghost var whole := Fill(Parse(template, 0).value, values);
    FillBegins(template, values);
    rendered := "";
    var cursor := 0;
    var open := Find(template, cursor, '{');
    while open.Some?
      invariant cursor <= |template| && open == Find(template, cursor, '{')
      invariant FilledTo(template, values, cursor, rendered, whole)
      decreases |template| - cursor
    {
      FillStep(template, values, cursor, rendered, whole);
      var nameStart := open.value + 2;
      var end := Find(template, nameStart, '}');
      if end.None? {
        assert false;
        break;
      }
      var placeholder := template[nameStart..end.value];
      rendered := rendered + template[cursor..open.value];
      if placeholder !in values {
        assert false;
        break;
      }
      rendered := rendered + values[placeholder];
      cursor := end.value + 2;
      open := Find(template, cursor, '{');
    }
    FillStep(template, values, cursor, rendered, whole);
    rendered := rendered + template[cursor..];
  }

  /** `render_strict_template`. */
  method RenderStrictTemplate(declared: seq<string>, provided: seq<(string, string)>, template: string)
    returns (result: Result<string>)
    ensures result == Render(declared, provided, template)
  {
    hide ValidName;
    var allowed: set<string> := {};
    var i := 0;
    while i < |declared|
      invariant 0 <= i <= |declared| && CheckDeclared(declared, {}) == CheckDeclared(declared[i..], allowed)
    {
      assert declared[i..][1..] == declared[i + 1..];
      if !ValidName(declared[i]) {
        return Err(InvalidName(declared[i]));
      }
      if declared[i] in allowed {
        return Err(DuplicateDeclaration(declared[i]));
      }
      allowed := allowed + {declared[i]};
      i := i + 1;
    }
    var values := map[];
    i := 0;
    while i < |provided|
      invariant 0 <= i <= |provided|
      invariant CheckProvided(provided, allowed, map[]) == CheckProvided(provided[i..], allowed, values)
    {
      assert provided[i..][1..] == provided[i + 1..];
      var (name, value) := provided[i];
      if !ValidName(name) {
        return Err(InvalidName(name));
      }
      if name !in allowed {
        return Err(UnknownValue(name));
      }
      if name in values {
        return Err(DuplicateValue(name));
      }
      values := values[name := value];
      i := i + 1;
    }
    result := FinishRendering(allowed, values, template);
  }

  /** The checks of the template against the declared names, and the second scan. */
  method FinishRendering(allowed: set<string>, values: map<string, string>, template: string)
    returns (result: Result<string>)
    ensures result == RenderChecked(allowed, values, template)
  {
    hide Parse, Fill, Names;
    if !(allowed <= values.Keys) {
      return Err(MissingValues);
    }
    var scanned := PlaceholderOccurrences(template);
    if scanned.Err? {
      return Err(scanned.error);
    }
    var occurrences := scanned.value;
    ghost var p := Parse(template, 0).value;
    var found := occurrences.Keys;
    while found != {}
      invariant found <= occurrences.Keys
      invariant forall name :: name in occurrences && name !in found ==> name in allowed
    {
      var name :| name in found;
      if name !in allowed {
        assert name in Names(p);
        return Err(UnknownPlaceholder);
      }
      found := found - {name};
    }
    assert forall name :: name in Names(p) ==> name in allowed;
    var expected := allowed;
    while expected != {}
      invariant expected <= allowed
      invariant forall name :: name in allowed && name !in expected ==> multiset(Names(p))[name] == 1
    {
      var name :| name in expected;
      if name !in occurrences || occurrences[name] != 1 {
        assert multiset(Names(p))[name] != 1;
        return Err(NotExactlyOnce);
      }
      expected := expected - {name};
    }
    var rendered := FillTemplate(template, values);
    result := Ok(rendered);
  }

  // ----- what the renderer promises ---------------------------------------------------------------

  function KeysOf(provided: seq<(string, string)>): seq<string> {
    if provided == [] then [] else [provided[0].0] + KeysOf(provided[1..])
  }

  function ValuesOf(provided: seq<(string, string)>, values: map<string, string>): map<string, string> {
    if provided == [] then values else ValuesOf(provided[1..], values[provided[0].0 := provided[0].1])
  }

  predicate ValidNames(names: seq<string>) {
    forall i :: 0 <= i < |names| ==> ValidName(names[i])
  }

  predicate Distinct(names: seq<string>) {
    forall i, j :: 0 <= i < j < |names| ==> names[i] != names[j]
  }

  lemma {:induction false} DeclaredIff(declared: seq<string>, seen: set<string>)
    ensures CheckDeclared(declared, seen).Ok?
            <==> ValidNames(declared) && Distinct(declared) && forall i :: 0 <= i < |declared| ==> declared[i] !in seen
    ensures CheckDeclared(declared, seen).Ok? ==>
              forall name :: name in CheckDeclared(declared, seen).value <==> name in seen || name in declared
  {
    hide ValidName;
    if declared != [] {
      var rest := declared[1..];
      DeclaredIff(rest, seen + {declared[0]});
      assert declared == [declared[0]] + rest;
    }
  }

  lemma {:induction false} ProvidedIff(provided: seq<(string, string)>, allowed: set<string>, values: map<string, string>)
    ensures CheckProvided(provided, allowed, values).Ok?
            <==> var keys := KeysOf(provided);
                 && ValidNames(keys) && Distinct(keys)
                 && (forall i :: 0 <= i < |keys| ==> keys[i] in allowed && keys[i] !in values)
    ensures CheckProvided(provided, allowed, values).Ok? ==>
              && CheckProvided(provided, allowed, values).value == ValuesOf(provided, values)
              && forall name :: name in ValuesOf(provided, values) <==> name in values || name in KeysOf(provided)
  {
    hide ValidName;
    if provided != [] {
      var rest := provided[1..];
      ProvidedIff(rest, allowed, values[provided[0].0 := provided[0].1]);
      assert KeysOf(provided)[0] == provided[0].0 && KeysOf(provided)[1..] == KeysOf(rest);
    }
  }

  /** The names are those declared, each once. */
  ghost predicate EachOnce(names: seq<string>, declared: seq<string>) {
    Distinct(names) && (forall name :: name in names <==> name in declared)
  }

  lemma {:induction false} DistinctMeansCountedOnce(names: seq<string>)
    ensures Distinct(names) <==> forall name :: name in names ==> multiset(names)[name] == 1
  {
    if names != [] {
      var first, rest := names[0], names[1..];
      assert names == [first] + rest;
      assert multiset(names) == multiset{first} + multiset(rest);
      DistinctMeansCountedOnce(rest);
      if Distinct(names) {
        assert first !in rest;
      } else if Distinct(rest) {
        assert first in rest;
        assert multiset(names)[first] >= 2;
      } else {
        var name :| name in rest && multiset(rest)[name] != 1;
        assert multiset(names)[name] != 1;
      }
    }
  }

  /** `p` is the template, and its placeholders are those declared, each once. */
  ghost predicate Describes(p: Template, template: string, declared: seq<string>) {
    WellFormed(p) && Flatten(p) == template && EachOnce(Names(p), declared)
  }

  lemma CheckedIff(allowed: set<string>, declared: seq<string>, values: map<string, string>, template: string, text: string)
    requires forall name :: name in allowed <==> name in declared
    ensures RenderChecked(allowed, values, template) == Ok(text)
            <==> && (forall name :: name in declared ==> name in values)
                 && exists p :: Describes(p, template, declared) && Covers(values, p) && text == Fill(p, values)
  {
    hide WellFormed, Flatten, Fill, Parse, Distinct, EachOnce, Names;
    var scanned := Parse(template, 0);
    if RenderChecked(allowed, values, template) == Ok(text) {
      var p := scanned.value;
      ParseIff(template, p);
      NamesMatchIff(Names(p), allowed, declared);
      assert Describes(p, template, declared) && Covers(values, p);
    } else if forall name :: name in declared ==> name in values {
      forall p | Describes(p, template, declared) && Covers(values, p) ensures text != Fill(p, values) {
        ParseIff(template, p);
        NamesMatchIff(Names(p), allowed, declared);
        assert RenderChecked(allowed, values, template) == Ok(Fill(p, values));
      }
    }
  }

  lemma NamesMatchIff(names: seq<string>, allowed: set<string>, declared: seq<string>)
    requires forall name :: name in allowed <==> name in declared
    ensures (forall name :: name in names ==> name in allowed)
            && (forall name :: name in allowed ==> multiset(names)[name] == 1)
            <==> EachOnce(names, declared)
  {
    DistinctMeansCountedOnce(names);
    hide Distinct;
    assert forall name :: name in names <==> multiset(names)[name] > 0;
    if EachOnce(names, declared) {
      forall name | name in allowed ensures multiset(names)[name] == 1 {
        assert name in names;
      }
    } else if forall name :: name in allowed ==> multiset(names)[name] == 1 {
      forall name | name in declared ensures name in names {
        assert name in allowed;
      }
    }
  }

  /** A render succeeds exactly when declared names, given values and placeholders are the same names, each once,
      and the result is the template with every placeholder replaced by its value. */
  lemma RenderIff(declared: seq<string>, provided: seq<(string, string)>, template: string, text: string)
    ensures Render(declared, provided, template) == Ok(text)
            <==> && ValidNames(declared) && Distinct(declared)
                 && EachOnce(KeysOf(provided), declared)
                 && exists p :: Describes(p, template, declared) && Covers(ValuesOf(provided, map[]), p)
                                && text == Fill(p, ValuesOf(provided, map[]))
  {
    hide ValidName, Distinct, RenderChecked, Fill, Covers, Describes;
    DeclaredIff(declared, {});
    var declaration := CheckDeclared(declared, {});
    if declaration.Ok? {
      var allowed := declaration.value;
      var keys := KeysOf(provided);
      ProvidedIff(provided, allowed, map[]);
      var given := CheckProvided(provided, allowed, map[]);
      if given.Ok? {
        CheckedIff(allowed, declared, given.value, template, text);
      } else if EachOnce(keys, declared) {
        assert forall i :: 0 <= i < |keys| ==> keys[i] in declared;
        DeclaredNamesAreValid(keys, declared);
      }
    }
  }

  lemma DeclaredNamesAreValid(keys: seq<string>, declared: seq<string>)
    requires ValidNames(declared) && forall i :: 0 <= i < |keys| ==> keys[i] in declared
    ensures ValidNames(keys)
  {
    hide ValidName;
  }

  /** Rendering each name to its own placeholder gives the template back. */
  lemma {:induction false} OwnPlaceholdersRestore(p: Template, values: map<string, string>)
    requires Covers(values, p) && forall name :: name in values ==> values[name] == "{{" + name + "}}"
    ensures Fill(p, values) == Flatten(p)
  {
    if p.Then? {
      FillOfHole(p, values);
      hide Fill, Covers;
      OwnPlaceholdersRestore(p.rest, values);
      Regroup(p.text, "{{", p.name, "}}" + Flatten(p.rest));
      assert p.text + ("{{" + p.name + "}}") + Flatten(p.rest) == p.text + "{{" + p.name + "}}" + Flatten(p.rest);
    }
  }

  lemma RenderingItselfIsIdentity(declared: seq<string>, provided: seq<(string, string)>, template: string)
    requires Render(declared, provided, template).Ok?
    requires forall name :: name in ValuesOf(provided, map[]) ==> ValuesOf(provided, map[])[name] == "{{" + name + "}}"
    ensures Render(declared, provided, template) == Ok(template)
  {
    hide Render, Fill, Covers, Distinct, WellFormed, Flatten, ValidNames, EachOnce;
    var text := Render(declared, provided, template).value;
    RenderIff(declared, provided, template, text);
    var p :| Describes(p, template, declared) && Covers(ValuesOf(provided, map[]), p)
             && text == Fill(p, ValuesOf(provided, map[]));
    OwnPlaceholdersRestore(p, ValuesOf(provided, map[]));
  }
}
