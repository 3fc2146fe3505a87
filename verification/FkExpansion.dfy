/**
 Foreign-key expansion of an arbitrary JSON tree: collect every id the tree mentions, fetch the
 rows of each entity in one batch, and rewrite the tree from the fetched rows.  The reference is
 the one-pass rewrite that looks each id up where it meets it.
 */
module FkExpansion {
  import opened Common

  datatype Entity = User | Category | Product | Message | Conversation | File

  /** `unlessKey`: the rule is off in an object that has this key. */
  datatype Rule = Rule(entity: Entity, outputKey: Option<string>, unlessKey: Option<string>)

  type Rules = map<string, Rule>

  /** What one fetch per entity would return: the record built for each existing row. */
  type Tables = map<Entity, map<nat, Json>>

  function Plain(entity: Entity): Rule {
    Rule(entity, None, None)
  }

  const FK_RULES: Rules := map[
    "admin_id" := Plain(User),
    "avatar_file_id" := Plain(File),
    "blocked_id" := Plain(User),
    "blocker_id" := Plain(User),
    "conversation_id" := Plain(Conversation),
    "file_id" := Plain(File),
    "last_message_id" := Plain(Message),
    "owner_id" := Rule(User, None, Some("owner_type")),
    "parent_id" := Plain(Category),
    "peer_user_id" := Plain(User),
    "product_id" := Plain(Product),
    "product_image_file_id" := Rule(File, Some("product_image"), None),
    "rated_user_id" := Plain(User),
    "rater_id" := Plain(User),
    "reported_user_id" := Plain(User),
    "reporter_id" := Plain(User),
    "reviewed_by" := Rule(User, Some("reviewed_by"), None),
    "sender_id" := Plain(User),
    "target_user_id" := Plain(User),
    "uploader_user_id" := Plain(User),
    "user_a_id" := Plain(User),
    "user_b_id" := Plain(User),
    "user_id" := Plain(User)
  ]

  // ----- Reading one field -----

  function RuleFor(rules: Rules, container: seq<Field>, key: string): Option<Rule> {
    if key in rules && (rules[key].unlessKey.None? || !HasKey(container, rules[key].unlessKey.value))
    then Some(rules[key]) else None
  }

  function DeriveOutputKey(key: string): string {
    if |key| >= 3 && key[|key| - 3..] == "_id" then key[..|key| - 3] else key
  }

  function OutKey(rules: Rules, container: seq<Field>, key: string): string {
    match RuleFor(rules, container, key)
    case Some(rule) => rule.outputKey.GetOr(DeriveOutputKey(key))
    case None => key
  }

  predicate IsDigit(c: char) {
    '0' <= c <= '9'
  }

  function DigitValue(c: char): nat
    requires IsDigit(c)
  {
    c as int - '0' as int
  }

  function ParseDigits(s: string): nat
    requires forall i :: 0 <= i < |s| ==> IsDigit(s[i])
  {
    if s == "" then 0 else 10 * ParseDigits(s[..|s| - 1]) + DigitValue(s[|s| - 1])
  }

  /** A positive integer, given as a number or as a non-empty string of decimal digits. */
  function ToPositiveInt(v: Json): Option<nat> {
    match v
    case Num(x) => if x.Floor as real == x && x > 0.0 then Some(x.Floor) else None
    case Str(s) =>
      if s != "" && forall i :: 0 <= i < |s| ==> IsDigit(s[i]) then
        var n := ParseDigits(s);
        if n > 0 then Some(n) else None
      else None
    case _ => None
  }

  // ----- The reference: one lookup per node -----

  function TableOf(tables: Tables, entity: Entity): map<nat, Json> {
    if entity in tables then tables[entity] else map[]
  }

  function Lookup(tables: Tables, entity: Entity, id: nat): Json {
    if id in TableOf(tables, entity) then TableOf(tables, entity)[id] else Null
  }

  function Resolve(tables: Tables, entity: Entity, v: Json): Json {
    match ToPositiveInt(v)
    case None => Null
    case Some(id) => Lookup(tables, entity, id)
  }

  function Rewrite(rules: Rules, tables: Tables, node: Json): Json
    decreases node, 1
  {
    match node
    case Arr(items) => Arr(RewriteItems(rules, tables, items))
    case Obj(fields) => Obj(RewriteFields(rules, tables, fields, fields, {}))
    case _ => node
  }

  function RewriteItems(rules: Rules, tables: Tables, items: seq<Json>): (out: seq<Json>)
    ensures |out| == |items|
    ensures forall i :: 0 <= i < |items| ==> out[i] == Rewrite(rules, tables, items[i])
    decreases items, 0
  {
    if items == [] then []
    else [Rewrite(rules, tables, items[0])] + RewriteItems(rules, tables, items[1..])
  }

  function RewriteValue(rules: Rules, tables: Tables, container: seq<Field>, field: Field): Json
    decreases field, 2
  {
    match RuleFor(rules, container, field.key)
    case Some(rule) => Resolve(tables, rule.entity, field.value)
    case None => Rewrite(rules, tables, field.value)
  }

  /** The first field that claims an output key keeps it; `seen` holds the claimed keys. */
  function RewriteFields(rules: Rules, tables: Tables, container: seq<Field>, fields: seq<Field>,
                         seen: set<string>): seq<Field>
    decreases fields, 0
  {
    if fields == [] then []
    else
      var key := OutKey(rules, container, fields[0].key);
      if key in seen then RewriteFields(rules, tables, container, fields[1..], seen)
      else [Field(key, RewriteValue(rules, tables, container, fields[0]))]
           + RewriteFields(rules, tables, container, fields[1..], seen + {key})
  }

  // ----- Which rows are collected, and which are consulted -----

  function OwnPair(rules: Rules, container: seq<Field>, field: Field): set<(Entity, nat)> {
    match RuleFor(rules, container, field.key)
    case None => {}
    case Some(rule) =>
      match ToPositiveInt(field.value)
      case None => {}
      case Some(id) => {(rule.entity, id)}
  }

  /** Every pair the collecting walk adds: it descends into every value, also those of foreign keys. */
  function Collected(rules: Rules, node: Json): set<(Entity, nat)>
    decreases node, 1
  {
    match node
    case Arr(items) => CollectedItems(rules, items)
    case Obj(fields) => CollectedFields(rules, fields, fields)
    case _ => {}
  }

  function CollectedItems(rules: Rules, items: seq<Json>): set<(Entity, nat)>
    decreases items, 0
  {
    if items == [] then {} else Collected(rules, items[0]) + CollectedItems(rules, items[1..])
  }

  function CollectedFields(rules: Rules, container: seq<Field>, fields: seq<Field>): set<(Entity, nat)>
    decreases fields, 0
  {
    if fields == [] then {}
    else OwnPair(rules, container, fields[0]) + Collected(rules, fields[0].value)
         + CollectedFields(rules, container, fields[1..])
  }

  /** Every pair the rewrite looks up: it skips shadowed fields and does not enter foreign-key values. */
  function Consulted(rules: Rules, node: Json): set<(Entity, nat)>
    decreases node, 1
  {
    match node
    case Arr(items) => ConsultedItems(rules, items)
    case Obj(fields) => ConsultedFields(rules, fields, fields, {})
    case _ => {}
  }

  function ConsultedItems(rules: Rules, items: seq<Json>): set<(Entity, nat)>
    decreases items, 0
  {
    if items == [] then {} else Consulted(rules, items[0]) + ConsultedItems(rules, items[1..])
  }

  function ConsultedFields(rules: Rules, container: seq<Field>, fields: seq<Field>, seen: set<string>)
    : set<(Entity, nat)>
    decreases fields, 0
  {
    if fields == [] then {}
    else
      var key := OutKey(rules, container, fields[0].key);
      if key in seen then ConsultedFields(rules, container, fields[1..], seen)
      else (if RuleFor(rules, container, fields[0].key).Some? then OwnPair(rules, container, fields[0])
            else Consulted(rules, fields[0].value))
           + ConsultedFields(rules, container, fields[1..], seen + {key})
  }

  /** The collecting walk covers every (entity, id) pair the rewrite consults. */
  lemma {:induction false} CollectedCoversConsulted(rules: Rules, node: Json)
    ensures Consulted(rules, node) <= Collected(rules, node)
    decreases node, 1
  {
    match node
    case Arr(items) => ItemsCovered(rules, items);
    case Obj(fields) => FieldsCovered(rules, fields, fields, {});
    case _ =>
  }

  lemma {:induction false} ItemsCovered(rules: Rules, items: seq<Json>)
    ensures ConsultedItems(rules, items) <= CollectedItems(rules, items)
    decreases items, 0
  {
    if items != [] {
      CollectedCoversConsulted(rules, items[0]);
      ItemsCovered(rules, items[1..]);
    }
  }

  lemma {:induction false} FieldsCovered(rules: Rules, container: seq<Field>, fields: seq<Field>, seen: set<string>)
    ensures ConsultedFields(rules, container, fields, seen) <= CollectedFields(rules, container, fields)
    decreases fields, 0
  {
    if fields != [] {
      CollectedCoversConsulted(rules, fields[0].value);
      FieldsCovered(rules, container, fields[1..], seen);
      FieldsCovered(rules, container, fields[1..], seen + {OutKey(rules, container, fields[0].key)});
    }
  }

  /** The walk may fetch rows nobody asks for: an id below a foreign-key value is collected only. */
  lemma CollectedCanExceedConsulted()
    ensures var node := Obj([Field("user_id", Obj([Field("product_id", Num(7.0))]))]);
            (Product, 7) in Collected(FK_RULES, node) && Consulted(FK_RULES, node) == {}
  {
    var inner := [Field("product_id", Num(7.0))];
    var fields := [Field("user_id", Obj(inner))];
    assert RuleFor(FK_RULES, inner, "product_id") == Some(Plain(Product));
    assert OwnPair(FK_RULES, inner, inner[0]) == {(Product, 7)};
    assert (Product, 7) in CollectedFields(FK_RULES, inner, inner);
    assert (Product, 7) in Collected(FK_RULES, Obj(inner));
    assert RuleFor(FK_RULES, fields, "user_id") == Some(Plain(User));
    assert fields[1..] == [];
    assert ConsultedFields(FK_RULES, fields, fields, {}) == {};
  }

  /** No object has two fields of one output key, and no foreign key has a value with fields or items of its own. */
  predicate IsTight(rules: Rules, node: Json)
    decreases node, 1
  {
    match node
    case Arr(items) => forall i :: 0 <= i < |items| ==> IsTight(rules, items[i])
    case Obj(fields) => TightFields(rules, fields, fields, {})
    case _ => true
  }

  predicate TightFields(rules: Rules, container: seq<Field>, fields: seq<Field>, seen: set<string>)
    decreases fields, 0
  {
    fields != [] ==>
      var key := OutKey(rules, container, fields[0].key);
      && key !in seen
      && (if RuleFor(rules, container, fields[0].key).Some? then !fields[0].value.Arr? && !fields[0].value.Obj?
          else IsTight(rules, fields[0].value))
      && TightFields(rules, container, fields[1..], seen + {key})
  }

  /** For such payloads the walk fetches exactly what the rewrite asks for. */
  lemma {:induction false} TightCollectsConsulted(rules: Rules, node: Json)
    requires IsTight(rules, node)
    ensures Collected(rules, node) == Consulted(rules, node)
    decreases node, 1
  {
    match node
    case Arr(items) => TightItems(rules, items);
    case Obj(fields) => TightFieldsCollect(rules, fields, fields, {});
    case _ =>
  }

  lemma {:induction false} TightItems(rules: Rules, items: seq<Json>)
    requires forall i :: 0 <= i < |items| ==> IsTight(rules, items[i])
    ensures CollectedItems(rules, items) == ConsultedItems(rules, items)
    decreases items, 0
  {
    if items != [] {
      TightCollectsConsulted(rules, items[0]);
      TightItems(rules, items[1..]);
    }
  }

  lemma {:induction false} TightFieldsCollect(rules: Rules, container: seq<Field>, fields: seq<Field>,
                                              seen: set<string>)
    requires TightFields(rules, container, fields, seen)
    ensures CollectedFields(rules, container, fields) == ConsultedFields(rules, container, fields, seen)
    decreases fields, 0
  {
    if fields != [] {
      TightFieldsCollect(rules, container, fields[1..], seen + {OutKey(rules, container, fields[0].key)});
      if RuleFor(rules, container, fields[0].key).None? {
        TightCollectsConsulted(rules, fields[0].value);
      }
    }
  }

  ghost predicate AgreeOn(t1: Tables, t2: Tables, pairs: set<(Entity, nat)>) {
    forall e, id :: (e, id) in pairs ==> Lookup(t1, e, id) == Lookup(t2, e, id)
  }

  /** The rewrite depends on the consulted rows alone. */
  lemma {:induction false} RewriteDependsOnConsulted(rules: Rules, t1: Tables, t2: Tables, node: Json)
    requires AgreeOn(t1, t2, Consulted(rules, node))
    ensures Rewrite(rules, t1, node) == Rewrite(rules, t2, node)
    decreases node, 1
  {
    match node
    case Arr(items) => ItemsDependOnConsulted(rules, t1, t2, items);
    case Obj(fields) => FieldsDependOnConsulted(rules, t1, t2, fields, fields, {});
    case _ =>
  }

  lemma {:induction false} ItemsDependOnConsulted(rules: Rules, t1: Tables, t2: Tables, items: seq<Json>)
    requires AgreeOn(t1, t2, ConsultedItems(rules, items))
    ensures RewriteItems(rules, t1, items) == RewriteItems(rules, t2, items)
    decreases items, 0
  {
    if items != [] {
      RewriteDependsOnConsulted(rules, t1, t2, items[0]);
      ItemsDependOnConsulted(rules, t1, t2, items[1..]);
    }
  }

  lemma {:induction false} FieldsDependOnConsulted(rules: Rules, t1: Tables, t2: Tables,
                                                   container: seq<Field>, fields: seq<Field>, seen: set<string>)
    requires AgreeOn(t1, t2, ConsultedFields(rules, container, fields, seen))
    ensures RewriteFields(rules, t1, container, fields, seen) == RewriteFields(rules, t2, container, fields, seen)
    decreases fields, 0
  {
    if fields != [] {
      var key := OutKey(rules, container, fields[0].key);
      if key in seen {
        FieldsDependOnConsulted(rules, t1, t2, container, fields[1..], seen);
      } else {
        FieldsDependOnConsulted(rules, t1, t2, container, fields[1..], seen + {key});
        match RuleFor(rules, container, fields[0].key)
        case Some(rule) =>
          match ToPositiveInt(fields[0].value) {
            case Some(id) => assert (rule.entity, id) in OwnPair(rules, container, fields[0]);
            case None =>
          }
        case None => RewriteDependsOnConsulted(rules, t1, t2, fields[0].value);
      }
    }
  }

  // ----- The service: three passes -----

  ghost function Pairs(ids: map<Entity, set<nat>>): set<(Entity, nat)> {
    set e, id | e in ids && id in ids[e] :: (e, id)
  }

  /** The Map of Sets that the collecting walk fills in place. */
  class IdCollector {
    var ids: map<Entity, set<nat>>

    constructor ()
      ensures ids == map[]
    {
      ids := map[];
    }

    method Add(entity: Entity, id: nat)
      modifies this
      ensures Pairs(ids) == old(Pairs(ids)) + {(entity, id)}
    {
      if entity !in ids {
        ids := ids[entity := {}];
        assert Pairs(ids) == old(Pairs(ids));
      }
      label added:
      ids := ids[entity := ids[entity] + {id}];
      assert forall e, i :: (e, i) in Pairs(ids) <==> (e, i) in old@added(Pairs(ids)) || (e == entity && i == id);
    }

    method Walk(rules: Rules, node: Json)
      modifies this
      ensures Pairs(ids) == old(Pairs(ids)) + Collected(rules, node)
      decreases node
    {
      match node
      case Arr(items) =>
        for n := 0 to |items|
          invariant Pairs(ids) + CollectedItems(rules, items[n..]) == old(Pairs(ids)) + CollectedItems(rules, items)
        {
          Walk(rules, items[n]);
          assert items[n..][1..] == items[n + 1..];
        }
      case Obj(fields) =>
        for n := 0 to |fields|
          invariant Pairs(ids) + CollectedFields(rules, fields, fields[n..])
                 == old(Pairs(ids)) + CollectedFields(rules, fields, fields)
        {
          var field := fields[n];
          var rule := RuleFor(rules, fields, field.key);
          if rule.Some? {
            var id := ToPositiveInt(field.value);
            if id.Some? {
              Add(rule.value.entity, id.value);
            }
          }
          if field.value.Obj? || field.value.Arr? {
            Walk(rules, field.value);
          }
          assert fields[n..][1..] == fields[n + 1..];
        }
      case _ =>
    }
  }

  ghost predicate Fetched(table: map<nat, Json>, ids: set<nat>, rows: seq<(nat, Json)>) {
    && (forall i :: 0 <= i < |rows| ==> rows[i].0 in ids && rows[i].0 in table && rows[i].1 == table[rows[i].0])
    && (forall id :: id in ids && id in table ==> (id, table[id]) in rows)
  }

  /** `WHERE id = ANY($1)`: the matching rows, in an order the database chooses. */
  method FetchRows(table: map<nat, Json>, ids: set<nat>) returns (rows: seq<(nat, Json)>)
    ensures Fetched(table, ids, rows)
  {
    rows := [];
    var pending := ids;
    while pending != {}
      invariant pending <= ids
      invariant Fetched(table, ids - pending, rows)
    {
      var id :| id in pending;
      pending := pending - {id};
      if id in table {
        rows := rows + [(id, table[id])];
      }
    }
    assert ids - pending == ids;
  }

  /** Each entity with an id among those collected, once. */
  ghost predicate OncePerEntity(ids: map<Entity, set<nat>>, fetched: seq<Entity>) {
    && (forall i, j :: 0 <= i < j < |fetched| ==> fetched[i] != fetched[j])
    && (forall e :: e in fetched <==> e in ids && ids[e] != {})
  }

  /** Keys the fetched rows of each collected entity by id; `fetched` records the entities in the order of their
      queries. */
  method ResolveEntities(db: Tables, ids: map<Entity, set<nat>>) returns (maps: Tables, ghost fetched: seq<Entity>)
    ensures AgreeOn(maps, db, Pairs(ids))
    ensures OncePerEntity(ids, fetched)
  {
    maps, fetched := map[], [];
    var entities := ids.Keys;
    while entities != {}
      invariant entities <= ids.Keys
      invariant forall i, j :: 0 <= i < j < |fetched| ==> fetched[i] != fetched[j]
      invariant forall e :: e in fetched <==> e in ids.Keys - entities && ids[e] != {}
      invariant forall e, id :: e in ids.Keys - entities && id in ids[e] ==> Lookup(maps, e, id) == Lookup(db, e, id)
    {
      var entity :| entity in entities;
      var byId: map<nat, Json> := map[];
      if ids[entity] != {} {
        var rows := FetchRows(TableOf(db, entity), ids[entity]);
        fetched := fetched + [entity];
        for n := 0 to |rows|
          invariant forall i :: 0 <= i < n ==> rows[i].0 in byId
          invariant forall id :: id in byId ==> id in TableOf(db, entity) && byId[id] == TableOf(db, entity)[id]
        {
          byId := byId[rows[n].0 := rows[n].1];
        }
        forall id | id in ids[entity]
          ensures id in byId <==> id in TableOf(db, entity)
        {
          if id in TableOf(db, entity) {
            var i :| 0 <= i < |rows| && rows[i] == (id, TableOf(db, entity)[id]);
            assert rows[i].0 in byId;
          }
        }
      }
      maps := maps[entity := byId];
      entities := entities - {entity};
    }
  }

  function KeysOf(fields: seq<Field>): set<string> {
    set i | 0 <= i < |fields| :: fields[i].key
  }

  /** Rewrites from the fetched maps, filling the output object entry by entry. */
  method TransformNode(rules: Rules, node: Json, maps: Tables) returns (r: Json)
    ensures r == Rewrite(rules, maps, node)
    ensures !node.Arr? && !node.Obj? ==> r == node
    decreases node
  {
    match node
    case Arr(items) =>
      var out: seq<Json> := [];
      for n := 0 to |items|
        invariant |out| == n && forall i :: 0 <= i < n ==> out[i] == Rewrite(rules, maps, items[i])
      {
        var item := TransformNode(rules, items[n], maps);
        out := out + [item];
      }
      assert out == RewriteItems(rules, maps, items);
      r := Arr(out);
    case Obj(fields) =>
      var out := TransformObject(rules, fields, maps);
      r := Obj(out);
    case _ =>
      r := node;
  }

  method TransformObject(rules: Rules, fields: seq<Field>, maps: Tables) returns (out: seq<Field>)
    ensures out == RewriteFields(rules, maps, fields, fields, {})
    decreases fields
  {
    out := [];
    assert fields[0..] == fields && KeysOf(out) == {};
    for n := 0 to |fields|
      invariant out + RewriteFields(rules, maps, fields, fields[n..], KeysOf(out))
             == RewriteFields(rules, maps, fields, fields, {})
    {
      var field := fields[n];
      assert fields[n..][1..] == fields[n + 1..];
      RewriteStep(rules, maps, fields, fields[n..], out);
      var rule := RuleFor(rules, fields, field.key);
      if rule.Some? {
        var outputKey := rule.value.outputKey.GetOr(DeriveOutputKey(field.key));
        if !HasKey(out, outputKey) {
          var id := ToPositiveInt(field.value);
          var value := if id.None? then Null else Lookup(maps, rule.value.entity, id.value);
          out := out + [Field(outputKey, value)];
        }
      } else if !HasKey(out, field.key) {
        var value := TransformNode(rules, field.value, maps);
        out := out + [Field(field.key, value)];
      }
    }
  }

  lemma AppendKey(fields: seq<Field>, field: Field)
    ensures KeysOf(fields + [field]) == KeysOf(fields) + {field.key}
  {
    var more := fields + [field];
    assert more[|fields|] == field;
    forall i | 0 <= i < |fields| ensures fields[i].key in KeysOf(more) {
      assert more[i] == fields[i];
    }
  }

  /** What one entry contributes once `out` holds the output of the entries before it. */
  lemma RewriteStep(rules: Rules, tables: Tables, container: seq<Field>, fields: seq<Field>, out: seq<Field>)
    requires fields != []
    ensures var key := OutKey(rules, container, fields[0].key);
            var more := out + [Field(key, RewriteValue(rules, tables, container, fields[0]))];
            out + RewriteFields(rules, tables, container, fields, KeysOf(out))
            == if HasKey(out, key) then out + RewriteFields(rules, tables, container, fields[1..], KeysOf(out))
               else more + RewriteFields(rules, tables, container, fields[1..], KeysOf(more))
  {
    var key := OutKey(rules, container, fields[0].key);
    var field := Field(key, RewriteValue(rules, tables, container, fields[0]));
    AppendKey(out, field);
    assert HasKey(out, key) <==> key in KeysOf(out);
    if key !in KeysOf(out) {
      var rest := RewriteFields(rules, tables, container, fields[1..], KeysOf(out) + {key});
      assert RewriteFields(rules, tables, container, fields, KeysOf(out)) == [field] + rest;
      assert out + ([field] + rest) == (out + [field]) + rest;
    }
  }

  /** The three passes together equal the direct rewrite against the database. */
  method Expand(payload: Json, db: Tables) returns (r: Json)
    ensures r == Rewrite(FK_RULES, db, payload)
    ensures !payload.Arr? && !payload.Obj? ==> r == payload
    ensures IsPlain(FK_RULES, payload) ==> r == payload
  {
    if IsPlain(FK_RULES, payload) { PlainPayloadStays(FK_RULES, db, payload); }
    var collector := new IdCollector();
    collector.Walk(FK_RULES, payload);
    assert Pairs(collector.ids) == Collected(FK_RULES, payload);
    var maps, _ := ResolveEntities(db, collector.ids);
    CollectedCoversConsulted(FK_RULES, payload);
    RewriteDependsOnConsulted(FK_RULES, maps, db, payload);
    r := TransformNode(FK_RULES, payload, maps);
  }

  // ----- What the rewrite keeps -----

  /** No earlier entry has the same output key. */
  ghost predicate IsFirstClaim(rules: Rules, fields: seq<Field>, i: nat)
    requires i < |fields|
  {
    forall h :: 0 <= h < i ==> OutKey(rules, fields, fields[h].key) != OutKey(rules, fields, fields[i].key)
  }

  /** `at` lists in ascending order exactly the positions from `start` on that claim a new output key. */
  ghost predicate FirstClaims(rules: Rules, fields: seq<Field>, start: nat, at: seq<nat>) {
    && (forall j :: 0 <= j < |at| ==> start <= at[j] < |fields|)
    && (forall j, k :: 0 <= j < k < |at| ==> at[j] < at[k])
    && (forall i :: start <= i < |fields| ==> (i in at <==> IsFirstClaim(rules, fields, i)))
  }

  ghost predicate Selected(rules: Rules, tables: Tables, fields: seq<Field>, at: seq<nat>, out: seq<Field>) {
    && |out| == |at|
    && (forall j :: 0 <= j < |at| ==>
          && at[j] < |fields|
          && out[j] == Field(OutKey(rules, fields, fields[at[j]].key),
                             RewriteValue(rules, tables, fields, fields[at[j]])))
  }

  ghost function Claimed(rules: Rules, fields: seq<Field>, n: nat): set<string>
    requires n <= |fields|
  {
    set h | 0 <= h < n :: OutKey(rules, fields, fields[h].key)
  }

  lemma {:induction false} SelectFields(rules: Rules, tables: Tables, fields: seq<Field>, n: nat)
    returns (at: seq<nat>)
    requires n <= |fields|
    ensures FirstClaims(rules, fields, n, at)
    ensures Selected(rules, tables, fields, at,
                     RewriteFields(rules, tables, fields, fields[n..], Claimed(rules, fields, n)))
    decreases |fields| - n
  {
    if n == |fields| {
      at := [];
    } else {
      at := SelectFields(rules, tables, fields, n + 1);
      SelectedNext(rules, tables, fields, n, at);
      if IsFirstClaim(rules, fields, n) {
        at := PrependClaim(rules, fields, n, at);
      } else {
        KeepClaims(rules, fields, n, at);
      }
    }
  }

  lemma KeepClaims(rules: Rules, fields: seq<Field>, n: nat, at: seq<nat>)
    requires n < |fields| && FirstClaims(rules, fields, n + 1, at) && !IsFirstClaim(rules, fields, n)
    ensures FirstClaims(rules, fields, n, at)
  {
  }

  lemma SelectedNext(rules: Rules, tables: Tables, fields: seq<Field>, n: nat, at: seq<nat>)
    requires n < |fields|
    requires Selected(rules, tables, fields, at,
                      RewriteFields(rules, tables, fields, fields[n + 1..], Claimed(rules, fields, n + 1)))
    ensures Selected(rules, tables, fields, if IsFirstClaim(rules, fields, n) then [n] + at else at,
                     RewriteFields(rules, tables, fields, fields[n..], Claimed(rules, fields, n)))
  {
    var rest := RewriteFields(rules, tables, fields, fields[n + 1..], Claimed(rules, fields, n + 1));
    RewriteNext(rules, tables, fields, n);
    SelectedPrepend(rules, tables, fields, n, at, rest);
  }

  lemma RewriteNext(rules: Rules, tables: Tables, fields: seq<Field>, n: nat)
    requires n < |fields|
    ensures var rest := RewriteFields(rules, tables, fields, fields[n + 1..], Claimed(rules, fields, n + 1));
            RewriteFields(rules, tables, fields, fields[n..], Claimed(rules, fields, n))
            == if IsFirstClaim(rules, fields, n)
               then [Field(OutKey(rules, fields, fields[n].key), RewriteValue(rules, tables, fields, fields[n]))] + rest
               else rest
  {
    ClaimedNext(rules, fields, n);
    assert fields[n..][0] == fields[n] && fields[n..][1..] == fields[n + 1..];
  }

  lemma SelectedPrepend(rules: Rules, tables: Tables, fields: seq<Field>, n: nat, at: seq<nat>, rest: seq<Field>)
    requires n < |fields| && Selected(rules, tables, fields, at, rest)
    ensures Selected(rules, tables, fields, [n] + at,
                     [Field(OutKey(rules, fields, fields[n].key), RewriteValue(rules, tables, fields, fields[n]))]
                     + rest)
  {
  }

  lemma ClaimedNext(rules: Rules, fields: seq<Field>, n: nat)
    requires n < |fields|
    ensures var key := OutKey(rules, fields, fields[n].key);
            && Claimed(rules, fields, n + 1) == Claimed(rules, fields, n) + {key}
            && (key in Claimed(rules, fields, n) <==> !IsFirstClaim(rules, fields, n))
            && (!IsFirstClaim(rules, fields, n) ==> Claimed(rules, fields, n + 1) == Claimed(rules, fields, n))
  {
  }

  lemma PrependClaim(rules: Rules, fields: seq<Field>, n: nat, at: seq<nat>) returns (more: seq<nat>)
    requires n < |fields| && FirstClaims(rules, fields, n + 1, at) && IsFirstClaim(rules, fields, n)
    ensures more == [n] + at && FirstClaims(rules, fields, n, more)
  {
    more := [n] + at;
    assert more[0] == n;
    forall i | n < i < |fields| ensures i in more <==> i in at {}
  }

  /** An object's output entries are the first claims of the renamed keys, in entry order. */
  lemma ObjectOutput(rules: Rules, tables: Tables, fields: seq<Field>)
    ensures exists at :: FirstClaims(rules, fields, 0, at)
                      && Selected(rules, tables, fields, at, Rewrite(rules, tables, Obj(fields)).fields)
  {
    assert fields[0..] == fields && Claimed(rules, fields, 0) == {};
    var at := SelectFields(rules, tables, fields, 0);
  }

  /** Output keys are pairwise distinct and are exactly the renamed input keys. */
  lemma OutputKeys(rules: Rules, tables: Tables, fields: seq<Field>)
    ensures var out := Rewrite(rules, tables, Obj(fields)).fields;
            && (forall j, k :: 0 <= j < k < |out| ==> out[j].key != out[k].key)
            && KeysOf(out) == set i | 0 <= i < |fields| :: OutKey(rules, fields, fields[i].key)
  {
    var out := Rewrite(rules, tables, Obj(fields)).fields;
    assert fields[0..] == fields && Claimed(rules, fields, 0) == {};
    var at := SelectFields(rules, tables, fields, 0);
    forall j, k | 0 <= j < k < |out| ensures out[j].key != out[k].key {
      assert at[j] < at[k] && at[k] in at;
    }
    forall i | 0 <= i < |fields| ensures OutKey(rules, fields, fields[i].key) in KeysOf(out) {
      FirstClaimExists(rules, fields, at, i);
    }
  }

  lemma {:induction false} FirstClaimExists(rules: Rules, fields: seq<Field>, at: seq<nat>, i: nat)
    requires FirstClaims(rules, fields, 0, at) && i < |fields|
    ensures exists j :: 0 <= j < |at|
              && OutKey(rules, fields, fields[at[j]].key) == OutKey(rules, fields, fields[i].key)
  {
    if i in at {
      var j :| 0 <= j < |at| && at[j] == i;
    } else {
      var h :| 0 <= h < i && OutKey(rules, fields, fields[h].key) == OutKey(rules, fields, fields[i].key);
      FirstClaimExists(rules, fields, at, h);
    }
  }

  /** A field that no rule touches and no earlier field shadows survives, its value rewritten in place;
      a foreign key that is not shadowed becomes the fetched record itself, or null. */
  lemma UnshadowedField(rules: Rules, tables: Tables, fields: seq<Field>, i: nat)
    requires i < |fields|
    requires forall h :: 0 <= h < i ==> OutKey(rules, fields, fields[h].key) != OutKey(rules, fields, fields[i].key)
    ensures var value := match RuleFor(rules, fields, fields[i].key)
                         case Some(rule) => Resolve(tables, rule.entity, fields[i].value)
                         case None => Rewrite(rules, tables, fields[i].value);
            Field(OutKey(rules, fields, fields[i].key), value) in Rewrite(rules, tables, Obj(fields)).fields
  {
    assert fields[0..] == fields && Claimed(rules, fields, 0) == {};
    var at := SelectFields(rules, tables, fields, 0);
    assert IsFirstClaim(rules, fields, i);
    var j :| 0 <= j < |at| && at[j] == i;
    assert Rewrite(rules, tables, Obj(fields)).fields[j].key == OutKey(rules, fields, fields[i].key);
  }

  /** `owner_id` stands for a user unless the object has an `owner_type`, and no rule writes to `owner` by name. */
  ghost predicate OwnerRules(rules: Rules) {
    && "owner" !in rules && "owner_id" in rules && rules["owner_id"] == Rule(User, None, Some("owner_type"))
    && forall key :: key in rules ==> rules[key].outputKey != Some("owner")
  }

  lemma FkOwnerRules()
    ensures OwnerRules(FK_RULES)
  {
  }

  lemma DerivedOwner(key: string)
    ensures DeriveOutputKey(key) == "owner" <==> key == "owner" || key == "owner_id"
  {
    var keyed := "owner_id";
    assert keyed[|keyed| - 3..] == "_id" && keyed[..|keyed| - 3] == "owner";
    assert keyed == "owner" + "_id";
    if |key| >= 3 && key[|key| - 3..] == "_id" {
      assert key == key[..|key| - 3] + key[|key| - 3..];
    }
  }

  /** Only these two keys become `owner`. */
  lemma OwnerKeys(rules: Rules, fields: seq<Field>, key: string)
    requires OwnerRules(rules) && !HasKey(fields, "owner_type")
    ensures OutKey(rules, fields, key) == "owner" <==> key == "owner" || key == "owner_id"
  {
    DerivedOwner(key);
  }

  lemma OneValuePerKey(out: seq<Field>, field: Field)
    requires field in out && forall j, k :: 0 <= j < k < |out| ==> out[j].key != out[k].key
    ensures forall j :: 0 <= j < |out| && out[j].key == field.key ==> out[j].value == field.value
  {
    var k :| 0 <= k < |out| && out[k] == field;
    forall j | 0 <= j < |out| && out[j].key == field.key ensures j == k {}
  }

  /** In every object the first of `owner` and `owner_id` decides the value of `owner`, and the other one is dropped. */
  lemma OwnerCollision(rules: Rules, tables: Tables, fields: seq<Field>, i: nat)
    requires OwnerRules(rules) && !HasKey(fields, "owner_type")
    requires i < |fields| && (fields[i].key == "owner" || fields[i].key == "owner_id")
    requires forall h :: 0 <= h < i ==> fields[h].key != "owner" && fields[h].key != "owner_id"
    ensures var out := Rewrite(rules, tables, Obj(fields)).fields;
            var owner := if fields[i].key == "owner" then Rewrite(rules, tables, fields[i].value)
                         else Resolve(tables, User, fields[i].value);
            && Field("owner", owner) in out
            && forall j :: 0 <= j < |out| && out[j].key == "owner" ==> out[j].value == owner
  {
    OwnerKeys(rules, fields, fields[i].key);
    forall h | 0 <= h < i ensures OutKey(rules, fields, fields[h].key) != OutKey(rules, fields, fields[i].key) {
      OwnerKeys(rules, fields, fields[h].key);
    }
    var owner := if fields[i].key == "owner" then Rewrite(rules, tables, fields[i].value)
                 else Resolve(tables, User, fields[i].value);
    UnshadowedField(rules, tables, fields, i);
    OutputKeys(rules, tables, fields);
    OneValuePerKey(Rewrite(rules, tables, Obj(fields)).fields, Field("owner", owner));
  }

  // ----- Which values stand for an id -----

  function Zeros(n: nat): string {
    if n == 0 then "" else Zeros(n - 1) + "0"
  }

  /** The number n itself, or its decimal digits as a string, with or without leading zeros. */
  ghost predicate Denotes(v: Json, n: nat) {
    n > 0 && (v == Num(n as real) || exists zeros: nat :: v == Str(Zeros(zeros) + Decimal(n)))
  }

  predicate AreDigits(s: string) {
    forall i :: 0 <= i < |s| ==> IsDigit(s[i])
  }

  lemma {:induction false} ParsedZero(s: string)
    requires AreDigits(s) && ParseDigits(s) == 0
    ensures s == Zeros(|s|)
  {
    if s != "" {
      var n := |s| - 1;
      assert s == s[..n] + [s[n]];
      ParsedZero(s[..n]);
    }
  }

  lemma DecimalAppend(n: nat, c: char)
    requires IsDigit(c)
    ensures Decimal(10 * n + DigitValue(c)) == (if n == 0 then "" else Decimal(n)) + [c]
  {
    var more := 10 * n + DigitValue(c);
    assert more / 10 == n && more % 10 == DigitValue(c);
  }

  lemma {:induction false} ParsedDigits(s: string)
    requires AreDigits(s) && ParseDigits(s) > 0
    ensures exists zeros: nat :: s == Zeros(zeros) + Decimal(ParseDigits(s))
  {
    var n := |s| - 1;
    var rest, last := s[..n], s[n];
    var value := ParseDigits(rest);
    assert s == rest + [last] && ParseDigits(s) == 10 * value + DigitValue(last);
    DecimalAppend(value, last);
    if value == 0 {
      ParsedZero(rest);
      assert s == Zeros(n) + Decimal(ParseDigits(s));
    } else {
      ParsedDigits(rest);
      var zeros: nat :| rest == Zeros(zeros) + Decimal(value);
      assert s == Zeros(zeros) + (Decimal(value) + [last]);
      assert s == Zeros(zeros) + Decimal(ParseDigits(s));
    }
  }

  lemma {:induction false} ParseZeros(zeros: nat)
    ensures AreDigits(Zeros(zeros)) && ParseDigits(Zeros(zeros)) == 0
  {
    if zeros > 0 {
      ParseZeros(zeros - 1);
      assert Zeros(zeros)[..zeros - 1] == Zeros(zeros - 1) by { ZerosLength(zeros - 1); }
    }
  }

  lemma {:induction false} ZerosLength(zeros: nat)
    ensures |Zeros(zeros)| == zeros
  {
    if zeros > 0 {
      ZerosLength(zeros - 1);
    }
  }

  lemma ParseAppend(s: string, c: char)
    requires AreDigits(s) && IsDigit(c)
    ensures AreDigits(s + [c]) && ParseDigits(s + [c]) == 10 * ParseDigits(s) + DigitValue(c)
  {
    assert (s + [c])[..|s|] == s;
  }

  lemma {:induction false} ParseDecimal(zeros: nat, n: nat)
    ensures AreDigits(Zeros(zeros) + Decimal(n)) && ParseDigits(Zeros(zeros) + Decimal(n)) == n
  {
    if n < 10 {
      ParseZeros(zeros);
      ParseAppend(Zeros(zeros), ('0' as int + n) as char);
    } else {
      ParseDecimal(zeros, n / 10);
      ParseAppend(Zeros(zeros) + Decimal(n / 10), ('0' as int + n % 10) as char);
      assert Zeros(zeros) + Decimal(n) == Zeros(zeros) + Decimal(n / 10) + [('0' as int + n % 10) as char];
    }
  }

  lemma {:induction false} DecimalNotEmpty(n: nat)
    ensures Decimal(n) != ""
  {
    if n >= 10 {
      DecimalNotEmpty(n / 10);
    }
  }

  /** A value is read as the id n exactly if it denotes n. */
  lemma IdIsDenoted(v: Json, n: nat)
    ensures ToPositiveInt(v) == Some(n) <==> Denotes(v, n)
  {
    if v.Str? {
      if AreDigits(v.text) && ParseDigits(v.text) > 0 {
        ParsedDigits(v.text);
      }
      forall zeros: nat | v.text == Zeros(zeros) + Decimal(n)
        ensures AreDigits(v.text) && ParseDigits(v.text) == n && v.text != ""
      {
        ParseDecimal(zeros, n);
        DecimalNotEmpty(n);
      }
    } else if v.Num? {
      assert v.number.Floor == n && v.number.Floor as real == v.number <==> v.number == n as real;
    }
  }

  // ----- What a response holds afterwards -----

  /** Scalars stay as they are. */
  lemma ScalarStays(rules: Rules, tables: Tables, node: Json)
    requires !node.Arr? && !node.Obj?
    ensures Rewrite(rules, tables, node) == node
  {
  }

  /** A scalar under a key that no rule knows stays in its object as it is, unless an earlier key takes its place. */
  lemma PlainFieldStays(rules: Rules, tables: Tables, fields: seq<Field>, i: nat)
    requires i < |fields| && fields[i].key !in rules && !fields[i].value.Arr? && !fields[i].value.Obj?
    requires forall h :: 0 <= h < i ==> OutKey(rules, fields, fields[h].key) != fields[i].key
    ensures fields[i] in Rewrite(rules, tables, Obj(fields)).fields
  {
    ScalarStays(rules, tables, fields[i].value);
    UnshadowedField(rules, tables, fields, i);
  }

  /** Dropping a final "_id" is all that deriving a key does. */
  lemma DerivedKey(key: string, base: string)
    ensures DeriveOutputKey(base + "_id") == base
    ensures (forall other :: key != other + "_id") ==> DeriveOutputKey(key) == key
  {
    var long := base + "_id";
    assert long[|long| - 3..] == "_id" && long[..|long| - 3] == base;
    if |key| >= 3 && key[|key| - 3..] == "_id" {
      assert key == key[..|key| - 3] + "_id";
    }
  }

  /** The rule for this key applies in the object. */
  predicate IsForeignKey(rules: Rules, fields: seq<Field>, key: string) {
    key in rules && (rules[key].unlessKey.Some? ==> !HasKey(fields, rules[key].unlessKey.value))
  }

  /** An unshadowed foreign key becomes, under its output key, the row of the id its value denotes, or null if there is
      no such row or the value denotes no id. */
  lemma ForeignKeyBecomesRow(rules: Rules, tables: Tables, fields: seq<Field>, i: nat, n: nat)
    requires i < |fields| && IsForeignKey(rules, fields, fields[i].key)
    requires forall h :: 0 <= h < i ==> OutKey(rules, fields, fields[h].key) != OutKey(rules, fields, fields[i].key)
    ensures var out := Rewrite(rules, tables, Obj(fields)).fields;
            var key := OutKey(rules, fields, fields[i].key);
            var entity := rules[fields[i].key].entity;
            && (Denotes(fields[i].value, n) && entity in tables && n in tables[entity] ==>
                  Field(key, tables[entity][n]) in out)
            && (Denotes(fields[i].value, n) && (entity !in tables || n !in tables[entity]) ==> Field(key, Null) in out)
            && ((forall m: nat :: !Denotes(fields[i].value, m)) ==> Field(key, Null) in out)
  {
    UnshadowedField(rules, tables, fields, i);
    IdIsDenoted(fields[i].value, n);
    match ToPositiveInt(fields[i].value)
    case Some(m) => IdIsDenoted(fields[i].value, m);
    case None =>
  }

  /** The output key of a foreign key is the one its rule names, or the key without "_id"; any other key stays. */
  lemma OutputKeyOf(rules: Rules, fields: seq<Field>, key: string, base: string)
    ensures !IsForeignKey(rules, fields, key) ==> OutKey(rules, fields, key) == key
    ensures IsForeignKey(rules, fields, key) && rules[key].outputKey.Some? ==>
              OutKey(rules, fields, key) == rules[key].outputKey.value
    ensures IsForeignKey(rules, fields, key) && rules[key].outputKey.None? && key == base + "_id" ==>
              OutKey(rules, fields, key) == base
  {
    DerivedKey(key, base);
  }

  /** With an `owner_type` beside it, `owner_id` is an ordinary key. */
  lemma OwnerTypeKeepsOwnerId(rules: Rules, fields: seq<Field>)
    requires OwnerRules(rules) && HasKey(fields, "owner_type")
    ensures !IsForeignKey(rules, fields, "owner_id") && OutKey(rules, fields, "owner_id") == "owner_id"
  {
  }

  /** The keys of FK_RULES, by the entity they name. */
  lemma ForeignKeys(key: string)
    ensures (key in FK_RULES && FK_RULES[key].entity == User) <==>
            key in {"admin_id", "blocked_id", "blocker_id", "owner_id", "peer_user_id", "rated_user_id", "rater_id",
                    "reported_user_id", "reporter_id", "reviewed_by", "sender_id", "target_user_id",
                    "uploader_user_id", "user_a_id", "user_b_id", "user_id"}
    ensures (key in FK_RULES && FK_RULES[key].entity == File) <==>
            key in {"avatar_file_id", "file_id", "product_image_file_id"}
    ensures (key in FK_RULES && FK_RULES[key].entity == Category) <==> key == "parent_id"
    ensures (key in FK_RULES && FK_RULES[key].entity == Product) <==> key == "product_id"
    ensures (key in FK_RULES && FK_RULES[key].entity == Message) <==> key == "last_message_id"
    ensures (key in FK_RULES && FK_RULES[key].entity == Conversation) <==> key == "conversation_id"
  {
  }

  lemma SpecialForeignKeys(key: string)
    requires key in FK_RULES
    ensures FK_RULES[key].outputKey == if key == "product_image_file_id" then Some("product_image")
                                       else if key == "reviewed_by" then Some("reviewed_by") else None
    ensures FK_RULES[key].unlessKey == if key == "owner_id" then Some("owner_type") else None
  {
  }

  // ----- Payloads without foreign keys -----

  /** No object of the tree has a foreign key, or a key twice. */
  predicate IsPlain(rules: Rules, node: Json)
    decreases node, 1
  {
    match node
    case Arr(items) => forall i :: 0 <= i < |items| ==> IsPlain(rules, items[i])
    case Obj(fields) => PlainFields(rules, fields, fields, {})
    case _ => true
  }

  predicate PlainFields(rules: Rules, container: seq<Field>, fields: seq<Field>, seen: set<string>)
    decreases fields, 0
  {
    fields != [] ==>
      && !IsForeignKey(rules, container, fields[0].key) && fields[0].key !in seen
      && IsPlain(rules, fields[0].value) && PlainFields(rules, container, fields[1..], seen + {fields[0].key})
  }

  /** Expansion returns a payload without foreign keys unchanged, however it is nested. */
  lemma {:induction false} PlainPayloadStays(rules: Rules, tables: Tables, node: Json)
    requires IsPlain(rules, node)
    ensures Rewrite(rules, tables, node) == node
    decreases node, 1
  {
    match node
    case Arr(items) =>
      forall i | 0 <= i < |items| ensures Rewrite(rules, tables, items[i]) == items[i] {
        PlainPayloadStays(rules, tables, items[i]);
      }
      assert RewriteItems(rules, tables, items) == items;
    case Obj(fields) => PlainFieldsStay(rules, tables, fields, fields, {});
    case _ =>
  }

  lemma {:induction false} PlainFieldsStay(rules: Rules, tables: Tables, container: seq<Field>, fields: seq<Field>,
                                           seen: set<string>)
    requires PlainFields(rules, container, fields, seen)
    ensures RewriteFields(rules, tables, container, fields, seen) == fields
    decreases fields, 0
  {
    if fields != [] {
      PlainPayloadStays(rules, tables, fields[0].value);
      PlainFieldsStay(rules, tables, container, fields[1..], seen + {fields[0].key});
      assert fields == [fields[0]] + fields[1..];
    }
  }
}
