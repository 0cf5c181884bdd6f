/**
  The normaliser for events that leave the gateway (agent_gateway.rs): it bounds depth, size and
  text length and hides the values of sensitive keys.
*/
module TransportPolicy {

  /** A JSON value; the members of an object are in the order of its map and have different keys. */
  datatype Json =
    | Null
    | Bool(b: bool)
    | Number(n: real)
    | Text(text: string)
    | Array(items: seq<Json>)
    | Object(members: seq<Member>)

  datatype Member = Member(key: string, value: Json)

  const MAX_DEPTH: nat := 12
  const MAX_CHARS: nat := 4096
  const MAX_ITEMS: nat := 64
  const TOO_DEEP := Text("[truncated: maximum nesting depth]")
  const TRUNCATED := "\n[truncated]"
  const REDACTED := Text("[redacted]")

  // ----- sensitive keys ------------------------------------------------------------

  function LowerAlphanumeric(c: char): string {
    if 'a' <= c <= 'z' || '0' <= c <= '9' then [c]
    else if 'A' <= c <= 'Z' then [c - 'A' + 'a']
    else ""
  }

  /** The letters and digits of a key, in lower case. */
  function Squash(key: string): string {
    if key == "" then "" else LowerAlphanumeric(key[0]) + Squash(key[1..])
  }

  predicate EndsWith(text: string, suffix: string) {
    |suffix| <= |text| && text[|text| - |suffix|..] == suffix
  }

  const SENSITIVE: seq<string> :=
    ["environment", "env", "secret", "token", "password", "authorization", "cookie", "prompt"]

  /** `is_sensitive_transport_key`. */
  predicate IsSensitive(key: string) {
    var normalized := Squash(key);
    exists i :: 0 <= i < |SENSITIVE| && (normalized == SENSITIVE[i] || EndsWith(normalized, SENSITIVE[i]))
  }

  lemma {:induction false} SquashOfSum(a: string, b: string)
    ensures Squash(a + b) == Squash(a) + Squash(b)
  {
    if a == "" {
      assert a + b == b;
    } else {
      assert (a + b)[1..] == a[1..] + b;
      SquashOfSum(a[1..], b);
    }
  }

  /** What follows a prefix decides: `apiToken`, `API_TOKEN` and `x-api-token` are all sensitive. */
  lemma PrefixKeepsSensitivity(prefix: string, key: string)
    requires IsSensitive(key)
    ensures IsSensitive(prefix + key)
  {
    SquashOfSum(prefix, key);
    var i :| 0 <= i < |SENSITIVE| && (Squash(key) == SENSITIVE[i] || EndsWith(Squash(key), SENSITIVE[i]));
    assert EndsWith(Squash(key), SENSITIVE[i]);
    EndOfSum(Squash(prefix), Squash(key), SENSITIVE[i]);
  }

  lemma EndOfSum(a: string, b: string, suffix: string)
    requires EndsWith(b, suffix)
    ensures EndsWith(a + b, suffix)
  {
    assert (a + b)[|a| + |b| - |suffix|..] == b[|b| - |suffix|..];
  }

  // ----- the specification ----------------------------------------------------------

  datatype Outcome = Outcome(value: Json, truncated: bool, redacted: bool)

  function Kept(count: nat): nat { if count > MAX_ITEMS then MAX_ITEMS else count }

  function CutText(text: string): Outcome {
    if |text| > MAX_CHARS then Outcome(Text(text[..MAX_CHARS] + TRUNCATED), true, false)
    else Outcome(Text(text), false, false)
  }

  /** The normal form of a value at a depth, and whether something was cut or hidden. */
  function Normal(value: Json, depth: nat): Outcome
    decreases value
  {
    if depth >= MAX_DEPTH then Outcome(TOO_DEEP, true, false)
    else
      match value
      case Text(text) => CutText(text)
      case Array(items) =>
        var (values, truncated, redacted) := NormalItems(items, Kept(|items|), depth + 1);
        Outcome(Array(values), |items| > MAX_ITEMS || truncated, redacted)
      case Object(members) =>
        var (values, truncated, redacted) := NormalMembers(members, Kept(|members|), depth + 1);
        Outcome(Object(values), |members| > MAX_ITEMS || truncated, redacted)
      case _ => Outcome(value, false, false)
  }

  /** The first `n` items. */
  function NormalItems(items: seq<Json>, n: nat, depth: nat): (r: (seq<Json>, bool, bool))
    requires n <= |items|
    ensures |r.0| == n
    decreases items, n
  {
    if n == 0 then ([], false, false)
    else
      var (values, truncated, redacted) := NormalItems(items, n - 1, depth);
      var last := Normal(items[n - 1], depth);
      (values + [last.value], truncated || last.truncated, redacted || last.redacted)
  }

  /** The first `n` members; a sensitive one is not looked into. */
  function NormalMembers(members: seq<Member>, n: nat, depth: nat): (r: (seq<Member>, bool, bool))
    requires n <= |members|
    ensures |r.0| == n
    decreases members, n
  {
    if n == 0 then ([], false, false)
    else
      var (values, truncated, redacted) := NormalMembers(members, n - 1, depth);
      var key := members[n - 1].key;
      if IsSensitive(key) then (values + [Member(key, REDACTED)], truncated, true)
      else
        var last := Normal(members[n - 1].value, depth);
        (values + [Member(key, last.value)], truncated || last.truncated, redacted || last.redacted)
  }

  // ----- the code ---------------------------------------------------------------------

  /** `normalize_transport_value`. */
  method NormalizeTransportValue(value: Json, depth: nat) returns (result: Json, truncated: bool, redacted: bool)
    ensures Outcome(result, truncated, redacted) == Normal(value, depth)
    decreases value
  {
    hide IsSensitive;
    if depth >= MAX_DEPTH {
      return TOO_DEEP, true, false;
    }
    match value
    case Text(text) =>
      if |text| > MAX_CHARS {
        return Text(text[..MAX_CHARS] + TRUNCATED), true, false;
      }
      return value, false, false;
    case Array(items) =>
      truncated := |items| > MAX_ITEMS;
      redacted := false;
      var normalized: seq<Json> := [];
      var i := 0;
      while i < |items| && i < MAX_ITEMS
        invariant 0 <= i <= Kept(|items|)
        invariant var spec := NormalItems(items, i, depth + 1);
                  normalized == spec.0 && truncated == (|items| > MAX_ITEMS || spec.1) && redacted == spec.2
      {
        var item, cut, hidden := NormalizeTransportValue(items[i], depth + 1);
        truncated := truncated || cut;
        redacted := redacted || hidden;
        normalized := normalized + [item];
        i := i + 1;
      }
      result := Array(normalized);
    case Object(members) =>
      truncated := |members| > MAX_ITEMS;
      redacted := false;
      var normalized: seq<Member> := [];
      var i := 0;
      while i < |members| && i < MAX_ITEMS
        invariant 0 <= i <= Kept(|members|)
        invariant var spec := NormalMembers(members, i, depth + 1);
                  normalized == spec.0 && truncated == (|members| > MAX_ITEMS || spec.1) && redacted == spec.2
      {
        var key := members[i].key;
        if IsSensitive(key) {
          normalized := normalized + [Member(key, REDACTED)];
          redacted := true;
        } else {
          var member, cut, hidden := NormalizeTransportValue(members[i].value, depth + 1);
          truncated := truncated || cut;
          redacted := redacted || hidden;
          normalized := normalized + [Member(key, member)];
        }
        i := i + 1;
      }
      result := Object(normalized);
    case _ =>
      return value, false, false;
  }

  // ----- what it promises -----------------------------------------------------------------

  /** Each kept item is normalised on its own, in place; a flag is raised exactly if some item raises it. */
  lemma {:induction false} ItemsArePointwise(items: seq<Json>, n: nat, depth: nat)
    requires n <= |items|
    ensures var (values, truncated, redacted) := NormalItems(items, n, depth);
            && (forall i :: 0 <= i < n ==> values[i] == Normal(items[i], depth).value)
            && (truncated <==> exists i :: 0 <= i < n && Normal(items[i], depth).truncated)
            && (redacted <==> exists i :: 0 <= i < n && Normal(items[i], depth).redacted)
  {
    hide Normal;
    if n > 0 {
      ItemsArePointwise(items, n - 1, depth);
    }
  }

  /** The same for members: a sensitive one raises the redaction flag, and nothing in it raises another. */
  lemma {:induction false} MembersArePointwise(members: seq<Member>, n: nat, depth: nat)
    requires n <= |members|
    ensures var (values, truncated, redacted) := NormalMembers(members, n, depth);
            && (forall i :: 0 <= i < n ==>
                  values[i] == Member(members[i].key, if IsSensitive(members[i].key) then REDACTED
                                                      else Normal(members[i].value, depth).value))
            && (truncated <==>
                  exists i :: 0 <= i < n && !IsSensitive(members[i].key) && Normal(members[i].value, depth).truncated)
            && (redacted <==>
                  exists i :: 0 <= i < n && (IsSensitive(members[i].key) || Normal(members[i].value, depth).redacted))
  {
    hide Normal, IsSensitive;
    if n > 0 {
      MembersArePointwise(members, n - 1, depth);
    }
  }

  predicate FittingText(text: string) {
    |text| <= MAX_CHARS || (|text| == MAX_CHARS + |TRUNCATED| && EndsWith(text, TRUNCATED))
  }

  /** The shape of everything that leaves: bounded in depth, number and length, nothing under sensitive keys. */
  predicate Fits(value: Json, depth: nat)
    decreases value
  {
    if depth >= MAX_DEPTH then value == TOO_DEEP
    else
      match value
      case Text(text) => FittingText(text)
      case Array(items) => |items| <= MAX_ITEMS && forall i :: 0 <= i < |items| ==> Fits(items[i], depth + 1)
      case Object(members) =>
        && |members| <= MAX_ITEMS
        && forall i :: 0 <= i < |members| ==>
             if IsSensitive(members[i].key) then members[i].value == REDACTED
             else Fits(members[i].value, depth + 1)
      case _ => true
  }

  lemma CutTextFits(text: string)
    ensures FittingText(CutText(text).value.text)
    ensures FittingText(text) <==> CutText(text).value == Text(text)
  {
    if |text| > MAX_CHARS {
      var cut := text[..MAX_CHARS] + TRUNCATED;
      assert cut[MAX_CHARS..] == TRUNCATED;
      if FittingText(text) {
        assert text == text[..MAX_CHARS] + text[MAX_CHARS..];
      }
    }
  }

  /** Every value that leaves fits. */
  lemma {:induction false} NormalFits(value: Json, depth: nat)
    ensures Fits(Normal(value, depth).value, depth)
    decreases value, 1
  {
    hide IsSensitive;
    if depth < MAX_DEPTH {
      match value
      case Text(text) => CutTextFits(text);
      case Array(items) => ItemsFit(items, Kept(|items|), depth + 1);
      case Object(members) => MembersFit(members, Kept(|members|), depth + 1);
      case _ =>
    }
  }

  lemma {:induction false} ItemsFit(items: seq<Json>, n: nat, depth: nat)
    requires n <= |items|
    ensures forall i :: 0 <= i < n ==> Fits(NormalItems(items, n, depth).0[i], depth)
    decreases items, n
  {
    hide Fits, Normal;
    if n > 0 {
      ItemsFit(items, n - 1, depth);
      NormalFits(items[n - 1], depth);
    }
  }

  lemma {:induction false} MembersFit(members: seq<Member>, n: nat, depth: nat)
    requires n <= |members|
    ensures forall i :: 0 <= i < n ==>
              && NormalMembers(members, n, depth).0[i].key == members[i].key
              && if IsSensitive(members[i].key) then NormalMembers(members, n, depth).0[i].value == REDACTED
                 else Fits(NormalMembers(members, n, depth).0[i].value, depth)
    decreases members, n
  {
    hide Fits, Normal, IsSensitive;
    if n > 0 {
      MembersFit(members, n - 1, depth);
      NormalFits(members[n - 1].value, depth);
    }
  }

  /** Exactly the values that fit are left unchanged. */
  lemma {:induction false} UnchangedIffFits(value: Json, depth: nat)
    ensures Normal(value, depth).value == value <==> Fits(value, depth)
    decreases value, 1
  {
    hide IsSensitive;
    if depth < MAX_DEPTH {
      NormalFits(value, depth);
      match value
      case Text(text) => CutTextFits(text);
      case Array(items) => FittingItemsStay(items, Kept(|items|), depth + 1);
      case Object(members) => FittingMembersStay(members, Kept(|members|), depth + 1);
      case _ =>
    }
  }

  lemma {:induction false} FittingItemsStay(items: seq<Json>, n: nat, depth: nat)
    requires n <= |items|
    ensures (forall i :: 0 <= i < n ==> Fits(items[i], depth)) ==> NormalItems(items, n, depth).0 == items[..n]
    decreases items, n
  {
    hide Fits, Normal;
    if n > 0 {
      FittingItemsStay(items, n - 1, depth);
      UnchangedIffFits(items[n - 1], depth);
      assert items[..n] == items[..n - 1] + [items[n - 1]];
    }
  }

  lemma {:induction false} FittingMembersStay(members: seq<Member>, n: nat, depth: nat)
    requires n <= |members|
    ensures (forall i :: 0 <= i < n ==>
               if IsSensitive(members[i].key) then members[i].value == REDACTED else Fits(members[i].value, depth))
            ==> NormalMembers(members, n, depth).0 == members[..n]
    decreases members, n
  {
    hide Fits, Normal, IsSensitive;
    if n > 0 {
      FittingMembersStay(members, n - 1, depth);
      UnchangedIffFits(members[n - 1].value, depth);
      assert members[..n] == members[..n - 1] + [members[n - 1]];
    }
  }

  /** Normalising twice changes nothing more. */
  lemma NormalIsIdempotent(value: Json, depth: nat)
    ensures Normal(Normal(value, depth).value, depth).value == Normal(value, depth).value
  {
    NormalFits(value, depth);
    UnchangedIffFits(Normal(value, depth).value, depth);
  }

  // ----- the flags -----------------------------------------------------------------------------

  /** Within all bounds and without a sensitive key. */
  predicate Clean(value: Json, depth: nat)
    decreases value
  {
    && depth < MAX_DEPTH
    && match value
       case Text(text) => |text| <= MAX_CHARS
       case Array(items) => |items| <= MAX_ITEMS && forall i :: 0 <= i < |items| ==> Clean(items[i], depth + 1)
       case Object(members) =>
         && |members| <= MAX_ITEMS
         && forall i :: 0 <= i < |members| ==> !IsSensitive(members[i].key) && Clean(members[i].value, depth + 1)
       case _ => true
  }

  /** Neither flag is raised exactly for clean values, and those pass unchanged. */
  lemma {:induction false} NoFlagIffClean(value: Json, depth: nat)
    ensures !Normal(value, depth).truncated && !Normal(value, depth).redacted <==> Clean(value, depth)
    ensures Clean(value, depth) ==> Normal(value, depth).value == value
    decreases value, 1
  {
    hide IsSensitive;
    if depth < MAX_DEPTH {
      match value
      case Text(_) =>
      case Array(items) =>
        CleanItems(items, Kept(|items|), depth + 1);
        assert |items| <= MAX_ITEMS ==> items[..|items|] == items;
      case Object(members) =>
        CleanMembers(members, Kept(|members|), depth + 1);
        assert |members| <= MAX_ITEMS ==> members[..|members|] == members;
      case _ =>
    }
  }

  lemma {:induction false} CleanItems(items: seq<Json>, n: nat, depth: nat)
    requires n <= |items|
    ensures var (values, truncated, redacted) := NormalItems(items, n, depth);
            && (!truncated && !redacted <==> forall i :: 0 <= i < n ==> Clean(items[i], depth))
            && (!truncated && !redacted ==> values == items[..n])
    decreases items, n
  {
    hide Clean, Normal;
    if n > 0 {
      CleanItems(items, n - 1, depth);
      NoFlagIffClean(items[n - 1], depth);
      assert items[..n] == items[..n - 1] + [items[n - 1]];
    }
  }

  lemma {:induction false} CleanMembers(members: seq<Member>, n: nat, depth: nat)
    requires n <= |members|
    ensures var (values, truncated, redacted) := NormalMembers(members, n, depth);
            && (!truncated && !redacted
                <==> forall i :: 0 <= i < n ==> !IsSensitive(members[i].key) && Clean(members[i].value, depth))
            && (!truncated && !redacted ==> values == members[..n])
    decreases members, n
  {
    hide Clean, Normal, IsSensitive;
    if n > 0 {
      CleanMembers(members, n - 1, depth);
      NoFlagIffClean(members[n - 1].value, depth);
      assert members[..n] == members[..n - 1] + [members[n - 1]];
    }
  }

  // ----- the answer in numbers and words ------------------------------------------------------------

  /** Squashing goes character by character: it keeps small letters and digits, lowers capitals and drops the rest. */
  lemma SquashPerCharacter(front: string, c: char, back: string)
    ensures Squash(front + [c] + back) == Squash(front) + Squash([c]) + Squash(back)
    ensures 97 <= c as int <= 122 || 48 <= c as int <= 57 ==> Squash([c]) == [c]
    ensures 65 <= c as int <= 90 ==> |Squash([c])| == 1 && Squash([c])[0] as int == c as int + 32
    ensures !(97 <= c as int <= 122 || 48 <= c as int <= 57 || 65 <= c as int <= 90) ==> Squash([c]) == ""
  {
    SquashOfSum(front + [c], back);
    SquashOfSum(front, [c]);
    assert [c][1..] == "";
  }

  predicate EndsInSensitiveWord(text: string) {
    || EndsWith(text, "environment") || EndsWith(text, "env") || EndsWith(text, "secret") || EndsWith(text, "token")
    || EndsWith(text, "password") || EndsWith(text, "authorization") || EndsWith(text, "cookie") || EndsWith(text, "prompt")
  }

  /** A key is sensitive exactly if its letters and digits end in one of eight words. */
  lemma SensitiveIff(key: string)
    ensures IsSensitive(key) <==> EndsInSensitiveWord(Squash(key))
  {
    var text := Squash(key);
    hide Squash;
    forall i | 0 <= i < |SENSITIVE| ensures text == SENSITIVE[i] ==> EndsWith(text, SENSITIVE[i]) {
      assert text[|text| - |text|..] == text;
    }
    WordsAreListed(text);
  }

  lemma WordsAreListed(text: string)
    ensures EndsInSensitiveWord(text) <==> exists i :: 0 <= i < |SENSITIVE| && EndsWith(text, SENSITIVE[i])
  {
    hide EndsWith;
    assert SENSITIVE[0] == "environment" && SENSITIVE[1] == "env" && SENSITIVE[2] == "secret" && SENSITIVE[3] == "token";
    assert SENSITIVE[4] == "password" && SENSITIVE[5] == "authorization" && SENSITIVE[6] == "cookie";
    assert SENSITIVE[7] == "prompt" && |SENSITIVE| == 8;
  }

  /** The first 64 at most. */
  function AtMost64(count: nat): nat { if count <= 64 then count else 64 }

  /** What becomes of a value: from the twelfth level down only a marker, of a text the first 4096 characters and a marker,
      of a collection the first 64 parts, each normalised one level down or hidden behind its sensitive key. */
  ghost predicate BecomesAt(value: Json, depth: nat, result: Outcome) {
    if depth >= 12 then result == Outcome(Text("[truncated: maximum nesting depth]"), true, false)
    else
      match value
      case Text(text) =>
        if |text| <= 4096 then result == Outcome(value, false, false)
        else result == Outcome(Text(text[..4096] + "\n[truncated]"), true, false)
      case Array(items) =>
        var n := AtMost64(|items|);
        && result.value.Array? && |result.value.items| == n
        && (forall i :: 0 <= i < n ==> result.value.items[i] == Normal(items[i], depth + 1).value)
        && (result.truncated <==> |items| > 64 || exists i :: 0 <= i < n && Normal(items[i], depth + 1).truncated)
        && (result.redacted <==> exists i :: 0 <= i < n && Normal(items[i], depth + 1).redacted)
      case Object(members) =>
        var n := AtMost64(|members|);
        && result.value.Object? && |result.value.members| == n
        && (forall i :: 0 <= i < n ==>
              && result.value.members[i].key == members[i].key
              && result.value.members[i].value == (if IsSensitive(members[i].key) then Text("[redacted]")
                                                   else Normal(members[i].value, depth + 1).value))
        && (result.truncated <==>
              || |members| > 64
              || exists i :: 0 <= i < n && !IsSensitive(members[i].key) && Normal(members[i].value, depth + 1).truncated)
        && (result.redacted <==>
              exists i :: 0 <= i < n && (IsSensitive(members[i].key) || Normal(members[i].value, depth + 1).redacted))
      case _ => result == Outcome(value, false, false)
  }

  lemma NormalAnswer(value: Json, depth: nat)
    ensures BecomesAt(value, depth, Normal(value, depth))
  {
    hide IsSensitive;
    if depth < 12 {
      match value
      case Array(items) => ItemsArePointwise(items, Kept(|items|), depth + 1);
      case Object(members) => MembersArePointwise(members, Kept(|members|), depth + 1);
      case _ =>
    }
  }
}
