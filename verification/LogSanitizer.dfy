/**
 The sanitizer every logged payload goes through: long strings, arrays and objects are cut, nesting
 is cut below the fourth level, and values under sensitive keys are replaced.
 `lower` stands for the runtime's lower-casing of a key; nothing is assumed about it.
 */
module LogSanitizer {
  import opened Common

  const SENSITIVE_KEYS: set<string> :=
    {"password", "token", "authorization", "secret", "otp", "refreshtoken", "accesstoken"}

  const MAX_STRING_LENGTH := 300
  const MAX_ARRAY_LENGTH := 20
  const MAX_OBJECT_KEYS := 30
  const MAX_DEPTH := 4

  const REDACTED := Str("[REDACTED]")
  const DEPTH_LIMITED := Str("[depth-limited]")
  const CUT := "...[truncated:"

  /** Drops every '_' and '-'. */
  function WithoutSeparators(s: string): string {
    if s == "" then ""
    else (if s[0] == '_' || s[0] == '-' then "" else [s[0]]) + WithoutSeparators(s[1..])
  }

  predicate IsSensitive(lower: string -> string, key: string) {
    WithoutSeparators(lower(key)) in SENSITIVE_KEYS
  }

  /** Assignment to a property: replaces the value of an existing key, or appends a new one. */
  function Put(fields: seq<Field>, field: Field): seq<Field> {
    if fields == [] then [field]
    else if fields[0].key == field.key then [field] + fields[1..]
    else [fields[0]] + Put(fields[1..], field)
  }

  function TruncationNote(dropped: nat): Json {
    Str("[truncated:" + Decimal(dropped) + "]")
  }

  function SanitizeString(s: string): string {
    if |s| > MAX_STRING_LENGTH
    then s[..MAX_STRING_LENGTH] + CUT + Decimal(|s| - MAX_STRING_LENGTH) + "]"
    else s
  }

  function Sanitize(lower: string -> string, v: Json, depth: nat): Json
    decreases v, 1
  {
    match v
    case Str(s) => Str(SanitizeString(s))
    case Arr(items) =>
      if depth >= MAX_DEPTH then DEPTH_LIMITED
      else if |items| > MAX_ARRAY_LENGTH then
        Arr(SanitizeItems(lower, items[..MAX_ARRAY_LENGTH], depth) + [TruncationNote(|items| - MAX_ARRAY_LENGTH)])
      else Arr(SanitizeItems(lower, items, depth))
    case Obj(fields) =>
      if depth >= MAX_DEPTH then DEPTH_LIMITED
      else Obj(SanitizeFields(lower, FirstFields(fields), depth, []))
    case _ => v
  }

  function FirstFields(fields: seq<Field>): seq<Field> {
    if |fields| > MAX_OBJECT_KEYS then fields[..MAX_OBJECT_KEYS] else fields
  }

  function SanitizeItems(lower: string -> string, items: seq<Json>, depth: nat): (out: seq<Json>)
    ensures |out| == |items|
    ensures forall i :: 0 <= i < |items| ==> out[i] == Sanitize(lower, items[i], depth + 1)
    decreases items, 0
  {
    if items == [] then []
    else [Sanitize(lower, items[0], depth + 1)] + SanitizeItems(lower, items[1..], depth)
  }

  function SanitizeField(lower: string -> string, field: Field, depth: nat): Field
    decreases field, 2
  {
    Field(field.key, if IsSensitive(lower, field.key) then REDACTED else Sanitize(lower, field.value, depth + 1))
  }

  function SanitizeFields(lower: string -> string, fields: seq<Field>, depth: nat, out: seq<Field>): seq<Field>
    decreases fields, 0
  {
    if fields == [] then out
    else SanitizeFields(lower, fields[1..], depth, Put(out, SanitizeField(lower, fields[0], depth)))
  }

  method SanitizeForLog(lower: string -> string, value: Json, depth: nat) returns (r: Json)
    ensures r == Sanitize(lower, value, depth)
    ensures value.Obj? && depth < 4 ==>
              r.Obj? && forall i :: 0 <= i < |r.fields| && NamesSecret(lower, r.fields[i].key) ==>
                          r.fields[i].value == Str("[REDACTED]")
    decreases value
  {
    r := value;
    match value {
      case Str(s) => r := Str(SanitizeString(s));
      case Arr(items) =>
        r := DEPTH_LIMITED;
        if depth < MAX_DEPTH { r := SanitizeArray(lower, items, depth); }
      case Obj(fields) =>
        r := DEPTH_LIMITED;
        if depth < MAX_DEPTH {
          var out := SanitizeEntries(lower, fields, depth);
          r := Obj(out);
          SecretsAreRedacted(lower, fields, depth);
        }
      case _ =>
    }
  }

  method SanitizeArray(lower: string -> string, items: seq<Json>, depth: nat) returns (r: Json)
    requires depth < MAX_DEPTH
    ensures r == Sanitize(lower, Arr(items), depth)
    decreases items
  {
    var kept := if |items| > MAX_ARRAY_LENGTH then items[..MAX_ARRAY_LENGTH] else items;
    var limited: seq<Json> := [];
    for n := 0 to |kept|
      invariant |limited| == n && forall i :: 0 <= i < n ==> limited[i] == Sanitize(lower, kept[i], depth + 1)
    {
      assert kept[n] == items[n];
      var item := SanitizeForLog(lower, items[n], depth + 1);
      limited := limited + [item];
    }
    assert limited == SanitizeItems(lower, kept, depth);
    if |items| > MAX_ARRAY_LENGTH {
      limited := limited + [TruncationNote(|items| - MAX_ARRAY_LENGTH)];
    }
    return Arr(limited);
  }

  method SanitizeEntries(lower: string -> string, fields: seq<Field>, depth: nat) returns (out: seq<Field>)
    ensures out == SanitizeFields(lower, FirstFields(fields), depth, [])
    decreases fields
  {
    var entries := FirstFields(fields);
    out := [];
    assert entries[0..] == entries;
    for n := 0 to |entries|
      invariant SanitizeFields(lower, entries[n..], depth, out) == SanitizeFields(lower, entries, depth, [])
    {
      var field := entries[n];
      assert field == fields[n] && entries[n..][1..] == entries[n + 1..];
      if IsSensitive(lower, field.key) {
        out := Put(out, Field(field.key, REDACTED));
      } else {
        var clean := SanitizeForLog(lower, field.value, depth + 1);
        out := Put(out, Field(field.key, clean));
      }
    }
  }

  // ----- The limits -----

  predicate IsCutString(s: string) {
    |s| > MAX_STRING_LENGTH + |CUT| && CUT <= s[MAX_STRING_LENGTH..] && s[|s| - 1] == ']'
  }

  ghost predicate IsTruncationNote(v: Json) {
    exists dropped: nat :: dropped > 0 && v == TruncationNote(dropped)
  }

  /** Everything a sanitized tree promises at nesting level `depth`. */
  ghost predicate Limited(lower: string -> string, v: Json, depth: nat) {
    match v
    case Str(s) => |s| <= MAX_STRING_LENGTH || IsCutString(s)
    case Arr(items) =>
      && depth < MAX_DEPTH && |items| <= MAX_ARRAY_LENGTH + 1
      && (forall i :: 0 <= i < |items| && i < MAX_ARRAY_LENGTH ==> Limited(lower, items[i], depth + 1))
      && (|items| > MAX_ARRAY_LENGTH ==> IsTruncationNote(items[MAX_ARRAY_LENGTH]))
    case Obj(fields) =>
      && depth < MAX_DEPTH && |fields| <= MAX_OBJECT_KEYS
      && (forall i :: 0 <= i < |fields| ==> LimitedField(lower, fields[i], depth))
    case _ => true
  }

  ghost predicate LimitedField(lower: string -> string, field: Field, depth: nat) {
    && (IsSensitive(lower, field.key) ==> field.value == REDACTED)
    && Limited(lower, field.value, depth + 1)
  }

  lemma SanitizeStringLimited(s: string)
    ensures var t := SanitizeString(s); |t| <= MAX_STRING_LENGTH || IsCutString(t)
  {
    if |s| > MAX_STRING_LENGTH {
      var t := SanitizeString(s);
      assert t[MAX_STRING_LENGTH..] == CUT + (Decimal(|s| - MAX_STRING_LENGTH) + "]");
    }
  }

  /** Whatever is logged, the result keeps every limit and shows no value under a sensitive key. */
  lemma {:induction false} SanitizedIsLimited(lower: string -> string, v: Json, depth: nat)
    ensures Limited(lower, Sanitize(lower, v, depth), depth)
    decreases v, 1
  {
    match v
    case Str(s) => SanitizeStringLimited(s);
    case Arr(items) =>
      if depth < MAX_DEPTH {
        forall i | 0 <= i < |items| ensures Limited(lower, Sanitize(lower, items[i], depth + 1), depth + 1) {
          SanitizedIsLimited(lower, items[i], depth + 1);
        }
        if |items| > MAX_ARRAY_LENGTH {
          assert IsTruncationNote(TruncationNote(|items| - MAX_ARRAY_LENGTH));
        }
      }
    case Obj(fields) =>
      if depth < MAX_DEPTH {
        FieldsLimited(lower, FirstFields(fields), depth, []);
      }
    case _ =>
  }

  lemma {:induction false} FieldsLimited(lower: string -> string, fields: seq<Field>, depth: nat, out: seq<Field>)
    requires forall i :: 0 <= i < |out| ==> LimitedField(lower, out[i], depth)
    ensures var r := SanitizeFields(lower, fields, depth, out);
            |r| <= |out| + |fields| && forall i :: 0 <= i < |r| ==> LimitedField(lower, r[i], depth)
    decreases fields, 0
  {
    if fields != [] {
      var field := SanitizeField(lower, fields[0], depth);
      SanitizedIsLimited(lower, fields[0].value, depth + 1);
      PutElements(out, field);
      FieldsLimited(lower, fields[1..], depth, Put(out, field));
    }
  }

  lemma {:induction false} PutElements(out: seq<Field>, field: Field)
    ensures |Put(out, field)| <= |out| + 1
    ensures forall i :: 0 <= i < |Put(out, field)| ==> Put(out, field)[i] == field || Put(out, field)[i] in out
  {
    if out != [] && out[0].key != field.key {
      PutElements(out[1..], field);
    }
  }

  // ----- The size bound -----

  function Nodes(v: Json): nat
    decreases v, 1
  {
    match v
    case Arr(items) => 1 + NodesOfItems(items)
    case Obj(fields) => 1 + NodesOfFields(fields)
    case _ => 1
  }

  function NodesOfItems(items: seq<Json>): nat
    decreases items, 0
  {
    if items == [] then 0 else Nodes(items[0]) + NodesOfItems(items[1..])
  }

  function NodesOfFields(fields: seq<Field>): nat
    decreases fields, 0
  {
    if fields == [] then 0 else Nodes(fields[0].value) + NodesOfFields(fields[1..])
  }

  /** 1 + 30 + 30^2 + ... with `levels` nested levels of containers. */
  function Bound(levels: nat): nat {
    if levels == 0 then 1 else 1 + MAX_OBJECT_KEYS * Bound(levels - 1)
  }

  lemma {:induction false} LimitedIsSmall(lower: string -> string, v: Json, depth: nat)
    requires depth <= MAX_DEPTH && Limited(lower, v, depth)
    ensures Nodes(v) <= Bound(MAX_DEPTH - depth)
    decreases v, 1
  {
    match v
    case Arr(items) =>
      var each := Bound(MAX_DEPTH - depth - 1);
      assert each >= 1;
      forall i | 0 <= i < |items| ensures Nodes(items[i]) <= each {
        if i < MAX_ARRAY_LENGTH {
          LimitedIsSmall(lower, items[i], depth + 1);
        }
      }
      SumOfItems(items, MAX_OBJECT_KEYS, each);
    case Obj(fields) =>
      var each := Bound(MAX_DEPTH - depth - 1);
      forall i | 0 <= i < |fields| ensures Nodes(fields[i].value) <= each {
        assert LimitedField(lower, fields[i], depth);
        LimitedIsSmall(lower, fields[i].value, depth + 1);
      }
      SumOfFields(fields, MAX_OBJECT_KEYS, each);
    case _ =>
  }

  lemma {:induction false} SumOfItems(items: seq<Json>, room: nat, each: nat)
    requires forall i :: 0 <= i < |items| ==> Nodes(items[i]) <= each
    requires |items| <= room
    ensures NodesOfItems(items) <= room * each
  {
    if items == [] {
      assert 0 <= room * each;
    } else {
      assert forall i :: 0 <= i < |items[1..]| ==> items[1..][i] == items[i + 1];
      SumOfItems(items[1..], room - 1, each);
      assert room * each == (room - 1) * each + each;
    }
  }

  lemma {:induction false} SumOfFields(fields: seq<Field>, room: nat, each: nat)
    requires forall i :: 0 <= i < |fields| ==> Nodes(fields[i].value) <= each
    requires |fields| <= room
    ensures NodesOfFields(fields) <= room * each
  {
    if fields == [] {
      assert 0 <= room * each;
    } else {
      assert forall i :: 0 <= i < |fields[1..]| ==> fields[1..][i] == fields[i + 1];
      SumOfFields(fields[1..], room - 1, each);
      assert room * each == (room - 1) * each + each;
    }
  }

  /** A log entry never holds more than 1 + 30 + 30^2 + 30^3 + 30^4 nodes. */
  lemma SanitizedSize(lower: string -> string, v: Json)
    ensures Nodes(Sanitize(lower, v, 0)) <= 1 + 30 + 30 * 30 + 30 * 30 * 30 + 30 * 30 * 30 * 30
  {
    SanitizedIsLimited(lower, v, 0);
    LimitedIsSmall(lower, Sanitize(lower, v, 0), 0);
    assert Bound(1) == 31 && Bound(2) == 931 && Bound(3) == 27931 && Bound(4) == 837931;
  }

  // ----- When logging changes nothing -----

  ghost predicate DistinctKeys(fields: seq<Field>) {
    forall i, j :: 0 <= i < j < |fields| ==> fields[i].key != fields[j].key
  }

  /** Within every limit, nothing sensitive left; or cut before in the one way that cutting repeats. */
  ghost predicate Settled(lower: string -> string, v: Json, depth: nat) {
    match v
    case Str(s) => |s| <= MAX_STRING_LENGTH || s[MAX_STRING_LENGTH..] == CUT + "17]"
    case Arr(items) =>
      && depth < MAX_DEPTH
      && (|| |items| <= MAX_ARRAY_LENGTH
          || (|items| == MAX_ARRAY_LENGTH + 1 && items[MAX_ARRAY_LENGTH] == TruncationNote(1)))
      && (forall i :: 0 <= i < |items| && i < MAX_ARRAY_LENGTH ==> Settled(lower, items[i], depth + 1))
    case Obj(fields) =>
      && depth < MAX_DEPTH && |fields| <= MAX_OBJECT_KEYS && DistinctKeys(fields)
      && (forall i :: 0 <= i < |fields| ==>
            if IsSensitive(lower, fields[i].key) then fields[i].value == REDACTED
            else Settled(lower, fields[i].value, depth + 1))
    case _ => true
  }

  lemma {:induction false} DecimalLength(n: nat)
    ensures |Decimal(n)| <= 1 + n / 10 && (n >= 10 ==> |Decimal(n)| >= 2)
    ensures 10 <= n < 100 ==> |Decimal(n)| == 2
  {
    if n >= 10 {
      DecimalLength(n / 10);
    }
  }

  lemma SettledString(s: string)
    ensures SanitizeString(s) == s <==> |s| <= MAX_STRING_LENGTH || s[MAX_STRING_LENGTH..] == CUT + "17]"
  {
    if |s| > MAX_STRING_LENGTH {
      var dropped := |s| - MAX_STRING_LENGTH;
      var tail := CUT + Decimal(dropped) + "]";
      assert SanitizeString(s)[..MAX_STRING_LENGTH] == s[..MAX_STRING_LENGTH];
      assert SanitizeString(s)[MAX_STRING_LENGTH..] == tail;
      assert s == s[..MAX_STRING_LENGTH] + s[MAX_STRING_LENGTH..];
      assert SanitizeString(s) == s <==> tail == s[MAX_STRING_LENGTH..];
      assert |tail| == 15 + |Decimal(dropped)| && |s[MAX_STRING_LENGTH..]| == dropped;
      DecimalLength(dropped);
      assert Decimal(17) == "17";
      assert |CUT + "17]"| == 17;
      assert tail == s[MAX_STRING_LENGTH..] ==> dropped == 17;
      assert CUT + "17" + "]" == CUT + "17]";
    }
  }

  /** With distinct keys the output object lists the sanitized entries in order. */
  lemma {:induction false} DistinctFields(lower: string -> string, fields: seq<Field>, depth: nat, out: seq<Field>)
    requires DistinctKeys(out + fields)
    ensures SanitizeFields(lower, fields, depth, out)
         == out + seq(|fields|, i requires 0 <= i < |fields| => SanitizeField(lower, fields[i], depth))
    decreases fields, 0
  {
    if fields != [] {
      var field := SanitizeField(lower, fields[0], depth);
      forall i | 0 <= i < |out| ensures out[i].key != field.key {
        assert (out + fields)[i] == out[i] && (out + fields)[|out|] == fields[0];
      }
      PutNew(out, field);
      var more := out + [field];
      forall i, j | 0 <= i < j < |more + fields[1..]|
        ensures (more + fields[1..])[i].key != (more + fields[1..])[j].key
      {
        assert (more + fields[1..])[i].key == (out + fields)[i].key;
        assert (more + fields[1..])[j].key == (out + fields)[j].key;
      }
      DistinctFields(lower, fields[1..], depth, more);
    }
  }

  lemma {:induction false} PutNew(out: seq<Field>, field: Field)
    requires forall i :: 0 <= i < |out| ==> out[i].key != field.key
    ensures Put(out, field) == out + [field]
  {
    if out != [] {
      PutNew(out[1..], field);
    }
  }

  lemma {:induction false} PutKeepsDistinct(out: seq<Field>, field: Field)
    requires DistinctKeys(out)
    ensures DistinctKeys(Put(out, field))
  {
    if out != [] && out[0].key != field.key {
      PutKeepsDistinct(out[1..], field);
      PutElements(out[1..], field);
    }
  }

  lemma {:induction false} OutputKeysDistinct(lower: string -> string, fields: seq<Field>, depth: nat, out: seq<Field>)
    requires DistinctKeys(out)
    ensures DistinctKeys(SanitizeFields(lower, fields, depth, out))
    ensures |SanitizeFields(lower, fields, depth, out)| <= |out| + |fields|
    decreases fields, 0
  {
    if fields != [] {
      var field := SanitizeField(lower, fields[0], depth);
      PutKeepsDistinct(out, field);
      PutElements(out, field);
      OutputKeysDistinct(lower, fields[1..], depth, Put(out, field));
    }
  }

  /** Sanitizing is the identity exactly on settled values. */
  lemma {:induction false} IdentityOnSettled(lower: string -> string, v: Json, depth: nat)
    ensures Sanitize(lower, v, depth) == v <==> Settled(lower, v, depth)
    decreases v, 1
  {
    match v
    case Str(s) => SettledString(s);
    case Arr(items) =>
      if depth < MAX_DEPTH {
        forall i | 0 <= i < |items|
          ensures Sanitize(lower, items[i], depth + 1) == items[i] <==> Settled(lower, items[i], depth + 1)
        {
          IdentityOnSettled(lower, items[i], depth + 1);
        }
        SettledItems(lower, items, depth);
      }
    case Obj(fields) =>
      if depth < MAX_DEPTH {
        forall i | 0 <= i < |fields|
          ensures Sanitize(lower, fields[i].value, depth + 1) == fields[i].value <==>
                  Settled(lower, fields[i].value, depth + 1)
        {
          IdentityOnSettled(lower, fields[i].value, depth + 1);
        }
        SettledFields(lower, fields, depth);
      }
    case _ =>
  }

  lemma SettledItems(lower: string -> string, items: seq<Json>, depth: nat)
    requires depth < MAX_DEPTH
    requires forall i :: 0 <= i < |items| ==>
             (Sanitize(lower, items[i], depth + 1) == items[i] <==> Settled(lower, items[i], depth + 1))
    ensures Sanitize(lower, Arr(items), depth) == Arr(items) <==> Settled(lower, Arr(items), depth)
  {
    var out := Sanitize(lower, Arr(items), depth).items;
    if |items| > MAX_ARRAY_LENGTH {
      var kept := items[..MAX_ARRAY_LENGTH];
      assert out == SanitizeItems(lower, kept, depth) + [TruncationNote(|items| - MAX_ARRAY_LENGTH)];
      assert |out| == MAX_ARRAY_LENGTH + 1;
      assert forall i :: 0 <= i < MAX_ARRAY_LENGTH ==> out[i] == Sanitize(lower, items[i], depth + 1);
    }
  }

  lemma SettledFields(lower: string -> string, fields: seq<Field>, depth: nat)
    requires depth < MAX_DEPTH
    requires forall i :: 0 <= i < |fields| ==>
      (Sanitize(lower, fields[i].value, depth + 1) == fields[i].value <==> Settled(lower, fields[i].value, depth + 1))
    ensures Sanitize(lower, Obj(fields), depth) == Obj(fields) <==> Settled(lower, Obj(fields), depth)
  {
    var out := Sanitize(lower, Obj(fields), depth).fields;
    OutputKeysDistinct(lower, FirstFields(fields), depth, []);
    if DistinctKeys(fields) && |fields| <= MAX_OBJECT_KEYS {
      assert [] + fields == fields;
      DistinctFields(lower, fields, depth, []);
      assert forall i :: 0 <= i < |fields| ==> out[i] == SanitizeField(lower, fields[i], depth);
    }
  }

  // ----- Which keys are sensitive -----

  lemma {:induction false} DroppedInParts(a: string, b: string)
    ensures WithoutSeparators(a + b) == WithoutSeparators(a) + WithoutSeparators(b)
  {
    if a == "" {
      assert a + b == b;
    } else {
      assert (a + b)[0] == a[0] && (a + b)[1..] == a[1..] + b;
      DroppedInParts(a[1..], b);
    }
  }

  lemma DroppedChar(c: char)
    ensures WithoutSeparators([c]) == if c == '_' || c == '-' then "" else [c]
  {
    assert [c][1..] == "";
  }

  /** Separators are dropped wherever they stand, and every other character stays. */
  lemma SeparatorsAreDropped(a: string, b: string, c: char)
    ensures WithoutSeparators(a + [c] + b)
         == WithoutSeparators(a) + (if c == '_' || c == '-' then "" else [c]) + WithoutSeparators(b)
  {
    DroppedInParts(a + [c], b);
    DroppedInParts(a, [c]);
    DroppedChar(c);
  }

  lemma InsertedSeparator(a: string, b: string, c: char)
    requires c == '_' || c == '-'
    ensures WithoutSeparators(a + [c] + b) == WithoutSeparators(a + b)
  {
    DroppedInParts(a, b);
    SeparatorsAreDropped(a, b, c);
  }

  lemma {:induction false} NothingToDrop(s: string)
    requires '_' !in s && '-' !in s
    ensures WithoutSeparators(s) == s
  {
    if s != "" {
      NothingToDrop(s[1..]);
      assert s == [s[0]] + s[1..];
    }
  }

  predicate IsSecretWord(word: string) {
    || word == "password" || word == "token" || word == "authorization" || word == "secret"
    || word == "otp" || word == "refreshtoken" || word == "accesstoken"
  }

  /** The key, in lower case and without separators, is one of the seven words. */
  predicate NamesSecret(lower: string -> string, key: string) {
    IsSecretWord(WithoutSeparators(lower(key)))
  }

  /** No value under such a key is ever shown, whatever keys repeat. */
  lemma SecretsAreRedacted(lower: string -> string, fields: seq<Field>, depth: nat)
    requires depth < 4
    ensures var out := Sanitize(lower, Obj(fields), depth);
            out.Obj? && forall i :: 0 <= i < |out.fields| && NamesSecret(lower, out.fields[i].key) ==>
                          out.fields[i].value == Str("[REDACTED]")
  {
    SanitizedIsLimited(lower, Obj(fields), depth);
    var out := Sanitize(lower, Obj(fields), depth).fields;
    forall i | 0 <= i < |out| && NamesSecret(lower, out[i].key) ensures out[i].value == Str("[REDACTED]") {
      SensitiveNamesSecret(lower, out[i].key);
      assert LimitedField(lower, out[i], depth);
    }
  }

  lemma SensitiveNamesSecret(lower: string -> string, key: string)
    ensures IsSensitive(lower, key) <==> NamesSecret(lower, key)
  {
  }

  /** Of an object with distinct keys the first thirty entries are kept, in order.  One whose key names a secret shows
      "[REDACTED]"; any other shows its own value, sanitized one level deeper. */
  lemma RedactedExactly(lower: string -> string, fields: seq<Field>, depth: nat, i: nat)
    requires depth < 4 && DistinctKeys(fields) && i < |fields| && i < 30
    ensures var out := Sanitize(lower, Obj(fields), depth);
            && out.Obj? && |out.fields| == (if |fields| > 30 then 30 else |fields|)
            && out.fields[i].key == fields[i].key
            && (NamesSecret(lower, fields[i].key) ==> out.fields[i].value == Str("[REDACTED]"))
            && (!NamesSecret(lower, fields[i].key) ==>
                  out.fields[i].value == Sanitize(lower, fields[i].value, depth + 1))
  {
    var kept := FirstFields(fields);
    assert [] + kept == kept;
    DistinctFields(lower, kept, depth, []);
    SensitiveNamesSecret(lower, fields[i].key);
  }

  lemma SecretWordsAreWhole(word: string)
    requires IsSecretWord(word)
    ensures '_' !in word && '-' !in word
  {
    if word == "password" {
    } else if word == "token" {
    } else if word == "authorization" {
    } else if word == "secret" {
    } else if word == "otp" {
    } else if word == "refreshtoken" {
    }
  }

  /** A key that reads as one of the words in lower case is secret. */
  lemma WordsAreSecret(lower: string -> string, key: string)
    requires IsSecretWord(lower(key))
    ensures NamesSecret(lower, key)
  {
    SecretWordsAreWhole(lower(key));
    NothingToDrop(lower(key));
  }

  /** A separator anywhere in the key makes no difference. */
  lemma SpellingsAreSecret(lower: string -> string, key: string, respelled: string, a: string, b: string, c: char)
    requires (c == '_' || c == '-') && lower(key) == a + b && lower(respelled) == a + [c] + b
    ensures NamesSecret(lower, respelled) <==> NamesSecret(lower, key)
  {
    InsertedSeparator(a, b, c);
  }

  // ----- What cutting keeps -----

  /** Nothing but strings, arrays and objects is touched; a string keeps its first 300 characters and says how many more
      there were. */
  lemma ScalarsAndStrings(lower: string -> string, v: Json, depth: nat)
    ensures !v.Str? && !v.Arr? && !v.Obj? ==> Sanitize(lower, v, depth) == v
    ensures v.Str? && |v.text| <= 300 ==> Sanitize(lower, v, depth) == v
    ensures v.Str? && |v.text| > 300 ==>
              var text := Sanitize(lower, v, depth);
              && text.Str? && text.text[..300] == v.text[..300]
              && text.text[300..] == "...[truncated:" + Decimal(|v.text| - 300) + "]"
  {
    if v.Str? && |v.text| > 300 {
      var tail := CUT + Decimal(|v.text| - 300) + "]";
      assert SanitizeString(v.text) == v.text[..300] + tail;
    }
  }

  /** An array keeps its first twenty items and says how many more there were. */
  lemma LongArray(lower: string -> string, items: seq<Json>, depth: nat)
    requires depth < 4
    ensures var out := Sanitize(lower, Arr(items), depth);
            && out.Arr?
            && (|items| <= 20 ==> |out.items| == |items|)
            && (|items| > 20 ==>
                  |out.items| == 21 && out.items[20] == Str("[truncated:" + Decimal(|items| - 20) + "]"))
            && forall i :: 0 <= i < |items| && i < 20 ==> out.items[i] == Sanitize(lower, items[i], depth + 1)
  {
    if |items| > 20 {
      assert forall i :: 0 <= i < 20 ==> items[..20][i] == items[i];
    }
  }

  /** From the fifth level on arrays and objects are replaced. */
  lemma DeepContainer(lower: string -> string, v: Json, depth: nat)
    requires v.Arr? || v.Obj?
    ensures Sanitize(lower, v, depth) == Str("[depth-limited]") <==> depth >= 4
  {
  }

  /** The number in a note reads back as the number of items or characters that were cut. */
  lemma {:induction false} DecimalReads(n: nat, m: nat)
    ensures Decimal(n) == Decimal(m) ==> n == m
    ensures n < 10 ==> Decimal(n) == ["0123456789"[n]]
    ensures Decimal(10 * n + 7) == (if n == 0 then "" else Decimal(n)) + "7"
  {
    if n >= 10 && m >= 10 {
      DecimalReads(n / 10, m / 10);
      if Decimal(n) == Decimal(m) {
        assert Decimal(n)[..|Decimal(n)| - 1] == Decimal(n / 10) && Decimal(m)[..|Decimal(m)| - 1] == Decimal(m / 10);
        assert Decimal(n)[|Decimal(n)| - 1] == Decimal(m)[|Decimal(m)| - 1];
      }
    } else if n >= 10 {
      DecimalLength(n);
    } else if m >= 10 {
      DecimalLength(m);
    }
  }
}
