/** Candidate argument values for a type, and what the `typed` mark on a pool of them promises. */
module Pools {
  import opened Options

  /** A type as the compiler presents it. Recursive types go through a name, and only where a
      type is a component of another. */
  datatype Type =
    | Boolean
    | BooleanLiteral(flag: bool)
    | Number
    | Text
    | Literal(literal: Option<Json>)
    | Null
    | Undefined
    | Union(members: seq<Type>)
    | Tuple(elements: seq<Ref>)
    | Array(element: Option<Ref>)
    | Callable
    | Opaque
    | Indexed(index: Ref, declared: seq<Property>)
    | Record(properties: seq<Property>)

  datatype Ref = Here(t: Type) | Named(name: string)

  datatype Property = Property(name: string, ref: Ref, optional: bool)

  type Env = map<string, Type>

  datatype Json =
    | JNull
    | JBool(b: bool)
    | JNumber(n: real)
    | JText(s: string)
    | JArray(items: seq<Json>)
    | JObject(entries: seq<Entry>)

  datatype Entry = Entry(key: string, value: Json)

  datatype Pool = Pool(values: seq<Json>, specials: seq<string>, typed: bool)

  const MAX_DEPTH: nat := 3
  const MAX_POOL_SIZE: nat := 80
  const MAX_PROPERTIES: nat := 6

  const NUMBERS: seq<Json> :=
    [JNumber(0.0), JNumber(1.0), JNumber(-1.0), JNumber(2147483647.0), JNumber(-2147483648.0), JNumber(1000000.0),
     JNumber(0.5)]
  const NUMBER_SPECIALS: seq<string> := ["NaN", "Infinity", "-Infinity"]
  const TEXTS: seq<string> := ["", "a", "abc", " ", "ünïcode-✓", "line\nbreak"]
  const MIXED: Pool := Pool(
    [JNumber(0.0), JNumber(1.0), JNumber(-1.0), JNumber(0.5), JNumber(1000000.0), JText(""), JText("a"), JText("abc"),
     JText(" "), JBool(true), JBool(false), JNull, JArray([JNumber(1.0), JNumber(2.0), JNumber(3.0)]), JArray([]),
     JObject([Entry("k", JNumber(1.0))])],
    [], false)

  function Typed(values: seq<Json>): Pool {
    Pool(values, [], true)
  }

  function TextValues(): seq<Json> {
    seq(|TEXTS|, i requires 0 <= i < |TEXTS| => JText(TEXTS[i]))
  }

  function Resolve(env: Env, ref: Ref): Type {
    match ref
    case Here(t) => t
    case Named(name) => if name in env then env[name] else Opaque
  }

  function Deduped(strings: seq<string>): seq<string> {
    if strings == [] then []
    else
      var init, last := Deduped(strings[..|strings| - 1]), strings[|strings| - 1];
      if last in init then init else init + [last]
  }

  /** The first of the values that print alike, in their order. */
  function DistinctBy(text: Json -> string, values: seq<Json>): seq<Json> {
    if values == [] then []
    else
      var init, last := DistinctBy(text, values[..|values| - 1]), values[|values| - 1];
      if Printed(text, init, last) then init else init + [last]
  }

  predicate Printed(text: Json -> string, values: seq<Json>, v: Json) {
    exists i :: 0 <= i < |values| && text(values[i]) == text(v)
  }

  /** The first candidate, null for want of one. */
  function First(values: seq<Json>): Json {
    if values == [] then JNull else values[0]
  }

  /** The second candidate unless it is null or missing, else the first. */
  function Second(values: seq<Json>): Json {
    if |values| > 1 && values[1] != JNull then values[1] else First(values)
  }

  // ---- the pools -------------------------------------------------------------------------

  function PoolFor(env: Env, t: Type, depth: nat): Pool
    decreases 2 * depth, t, 0
  {
    if depth == 0 then MIXED
    else
      match t
      case Boolean => Typed([JBool(true), JBool(false)])
      case BooleanLiteral(flag) => Typed([JBool(flag)])
      case Number => Pool(NUMBERS, NUMBER_SPECIALS, true)
      case Text => Typed(TextValues())
      case Literal(literal) => if literal.Some? then Typed([literal.value]) else MIXED
      case Null => Typed([JNull])
      case Undefined => Pool([], ["undefined"], true)
      case Union(members) =>
        var all := UnionOf(env, t, depth, |members|);
        Pool(all.values, Deduped(all.specials), all.typed)
      case Tuple(elements) => TupleOf(PoolsOf(env, elements, depth - 1))
      case Array(element) =>
        if element.Some? then ArrayOf(PoolFor(env, Resolve(env, element.value), depth - 1)) else MIXED
      case Callable => MIXED
      case Opaque => MIXED
      case Indexed(index, _) => IndexedOf(PoolFor(env, Resolve(env, index), depth - 1))
      case Record(properties) => RecordOf(env, properties, PoolsOf(env, RefsOf(Considered(properties)), depth - 1))
  }

  /** The pools of the first `n` members, joined. */
  function UnionOf(env: Env, t: Type, depth: nat, n: nat): Pool
    requires t.Union? && n <= |t.members|
    decreases 2 * depth, t, 0, n
  {
    if n == 0 then Pool([], [], true)
    else
      var init, last := UnionOf(env, t, depth, n - 1), PoolFor(env, t.members[n - 1], depth);
      Pool(init.values + last.values, init.specials + last.specials, init.typed && last.typed)
  }

  /** The pools of a type's components. */
  function PoolsOf(env: Env, refs: seq<Ref>, depth: nat): (pools: seq<Pool>)
    ensures |pools| == |refs|
    ensures forall i :: 0 <= i < |pools| ==> pools[i] == PoolFor(env, Resolve(env, refs[i]), depth)
    decreases 2 * depth + 1, |refs|
  {
    if refs == [] then []
    else PoolsOf(env, refs[..|refs| - 1], depth) + [PoolFor(env, Resolve(env, refs[|refs| - 1]), depth)]
  }

  predicate AllTyped(pools: seq<Pool>) {
    forall i :: 0 <= i < |pools| ==> pools[i].typed
  }

  function Firsts(pools: seq<Pool>): (values: seq<Json>)
    ensures |values| == |pools| && forall i :: 0 <= i < |values| ==> values[i] == First(pools[i].values)
  {
    seq(|pools|, i requires 0 <= i < |pools| => First(pools[i].values))
  }

  function TupleOf(elements: seq<Pool>): Pool {
    Pool([JArray(Firsts(elements))], [], AllTyped(elements))
  }

  function ArrayOf(element: Pool): Pool {
    var edges := if |element.values| > 4 then element.values[..4] else element.values;
    var more := if edges == [] then [] else [JArray([edges[0]]), JArray(edges), JArray(edges + edges)];
    Pool([JArray([])] + more, [], element.typed)
  }

  function IndexedOf(value: Pool): Pool {
    Pool([JObject([]), JObject(IndexEntries(value.values))], [], value.typed)
  }

  /** The first values under the first three keys. */
  function IndexEntries(values: seq<Json>): (entries: seq<Entry>)
    ensures |entries| == if |values| < 3 then |values| else 3
    ensures forall i :: 0 <= i < |entries| ==> entries[i] == Entry(TEXTS[i], values[i])
  {
    var n := if |values| < 3 then |values| else 3;
    seq(n, i requires 0 <= i < n => Entry(TEXTS[i], values[i]))
  }

  function RefsOf(properties: seq<Property>): (refs: seq<Ref>)
    ensures |refs| == |properties| && forall i :: 0 <= i < |refs| ==> refs[i] == properties[i].ref
  {
    seq(|properties|, i requires 0 <= i < |properties| => properties[i].ref)
  }

  function FullEntries(properties: seq<Property>, pools: seq<Pool>): seq<Entry>
    requires |properties| == |pools|
  {
    seq(|pools|, i requires 0 <= i < |pools| => Entry(properties[i].name, First(pools[i].values)))
  }

  function RequiredEntries(properties: seq<Property>, pools: seq<Pool>): seq<Entry>
    requires |properties| == |pools|
  {
    if pools == [] then []
    else
      var n := |pools| - 1;
      RequiredEntries(properties[..n], pools[..n])
      + if properties[n].optional then [] else [Entry(properties[n].name, Second(pools[n].values))]
  }

  function Considered(properties: seq<Property>): seq<Property> {
    if |properties| > MAX_PROPERTIES then properties[..MAX_PROPERTIES] else properties
  }

  predicate BearsMethods(env: Env, properties: seq<Property>) {
    exists i :: 0 <= i < |properties| && Resolve(env, properties[i].ref).Callable?
  }

  /** `pools` are those of the properties considered. */
  function RecordOf(env: Env, properties: seq<Property>, pools: seq<Pool>): Pool
    requires |pools| == |Considered(properties)|
  {
    var some := Considered(properties);
    if some == [] then Typed([JObject([])])
    else if BearsMethods(env, some) then MIXED
    else Pool([JObject(FullEntries(some, pools)), JObject(RequiredEntries(some, pools))], [], AllTyped(pools))
  }

  // ---- inhabitants -----------------------------------------------------------------------

  predicate Inhabits(env: Env, v: Json, t: Type)
    decreases v, t, 2
  {
    match t
    case Boolean => v.JBool?
    case BooleanLiteral(flag) => v == JBool(flag)
    case Number => v.JNumber?
    case Text => v.JText?
    case Literal(literal) => literal == Some(v)
    case Null => v.JNull?
    case Undefined => false
    case Union(members) => exists i :: 0 <= i < |members| && Inhabits(env, v, members[i])
    case Tuple(elements) =>
      v.JArray? && |v.items| == |elements| && forall i :: 0 <= i < |v.items| ==>
          Inhabits(env, v.items[i], Resolve(env, elements[i]))
    case Array(element) =>
      v.JArray? && element.Some? && forall i :: 0 <= i < |v.items| ==>
          Inhabits(env, v.items[i], Resolve(env, element.value))
    case Callable => false
    case Opaque => false
    case Indexed(index, declared) =>
      && v.JObject? && (forall i :: 0 <= i < |v.entries| ==> Inhabits(env, v.entries[i].value, Resolve(env, index)))
      && Fills(env, v, t, declared)
    case Record(properties) => v.JObject? && Fills(env, v, t, properties)
  }

  /** Each property is there with a value of its type, or is optional and not there. `t` is the type
      whose properties these are. */
  predicate Fills(env: Env, v: Json, t: Type, properties: seq<Property>)
    requires v.JObject?
    decreases v, t, 1
  {
    forall i :: 0 <= i < |properties| ==> Filled(env, v, t, properties[i])
  }

  predicate Filled(env: Env, v: Json, t: Type, p: Property)
    requires v.JObject?
    decreases v, t, 0
  {
    && (!p.optional ==> exists k :: 0 <= k < |v.entries| && v.entries[k].key == p.name)
    && forall k :: 0 <= k < |v.entries| && v.entries[k].key == p.name ==>
        Inhabits(env, v.entries[k].value, Resolve(env, p.ref))
  }

  /** What the non-JSON markers stand for. */
  predicate SpecialInhabits(s: string, t: Type) {
    match t
    case Number => s in NUMBER_SPECIALS
    case Undefined => s == "undefined"
    case Union(members) => exists i :: 0 <= i < |members| && SpecialInhabits(s, members[i])
    case _ => false
  }

  /** No JSON value inhabits the type: it is undefined, or a union of nothing else. */
  predicate OnlyUndefined(t: Type) {
    t.Undefined? || (t.Union? && forall i :: 0 <= i < |t.members| ==> OnlyUndefined(t.members[i]))
  }

  // ---- typed means inhabited -------------------------------------------------------------

  /** The types whose shapes the pools carry: no tuple or property is only undefined, no required
      property comes after the sixth, no indexed type declares properties besides. Looked at as deep
      as the pools go. */
  predicate Carried(env: Env, t: Type, depth: nat)
    decreases 2 * depth, t
  {
    depth == 0 ||
    match t
    case Union(members) => forall i :: 0 <= i < |members| ==> Carried(env, members[i], depth)
    case Tuple(elements) => forall i :: 0 <= i < |elements| ==> CarriedRef(env, elements[i], depth - 1)
    case Array(element) => element.None? || Carried(env, Resolve(env, element.value), depth - 1)
    case Indexed(index, declared) => declared == [] && Carried(env, Resolve(env, index), depth - 1)
    case Record(properties) =>
      && Distinct(properties)
      && (forall i :: MAX_PROPERTIES <= i < |properties| ==> properties[i].optional)
      && forall i :: 0 <= i < |properties| && i < MAX_PROPERTIES ==> CarriedRef(env, properties[i].ref, depth - 1)
    case _ => true
  }

  predicate CarriedRef(env: Env, ref: Ref, depth: nat)
    decreases 2 * depth + 1
  {
    !OnlyUndefined(Resolve(env, ref)) && Carried(env, Resolve(env, ref), depth)
  }

  /** Property names are distinct, as the compiler has them. */
  predicate Distinct(properties: seq<Property>) {
    forall i, j :: 0 <= i < j < |properties| ==> properties[i].name != properties[j].name
  }

  ghost predicate AllIn(env: Env, values: seq<Json>, t: Type) {
    forall i :: 0 <= i < |values| ==> Inhabits(env, values[i], t)
  }

  lemma {:induction false} UnionParts(env: Env, t: Type, depth: nat, n: nat)
    requires t.Union? && n <= |t.members|
    ensures var all := UnionOf(env, t, depth, n);
            && (all.typed ==> forall i :: 0 <= i < n ==> PoolFor(env, t.members[i], depth).typed)
            && (forall v :: v in all.values ==> exists i :: 0 <= i < n && v in PoolFor(env, t.members[i], depth).values)
            && (forall s :: s in all.specials ==>
                exists i :: 0 <= i < n && s in PoolFor(env, t.members[i], depth).specials)
            && (all.values == [] ==> forall i :: 0 <= i < n ==> PoolFor(env, t.members[i], depth).values == [])
  {
    if n > 0 {
      UnionParts(env, t, depth, n - 1);
    }
  }

  lemma {:induction false} DedupedSame(strings: seq<string>)
    ensures forall s :: s in Deduped(strings) <==> s in strings
    ensures forall i, j :: 0 <= i < j < |Deduped(strings)| ==> Deduped(strings)[i] != Deduped(strings)[j]
  {
    if strings != [] {
      DedupedSame(strings[..|strings| - 1]);
      assert strings == strings[..|strings| - 1] + [strings[|strings| - 1]];
    }
  }

  /** A pool is empty only for a type no value inhabits. */
  lemma {:induction false} EmptyPool(env: Env, t: Type, depth: nat)
    requires PoolFor(env, t, depth).values == []
    ensures OnlyUndefined(t)
    decreases t
  {
    if depth > 0 && t.Union? {
      UnionParts(env, t, depth, |t.members|);
      forall i | 0 <= i < |t.members| ensures OnlyUndefined(t.members[i]) {
        EmptyPool(env, t.members[i], depth);
      }
    }
  }

  lemma PicksInhabit(env: Env, values: seq<Json>, t: Type)
    requires values != [] && AllIn(env, values, t)
    ensures Inhabits(env, First(values), t) && Inhabits(env, Second(values), t)
  {
  }

  lemma ArrayInhabits(env: Env, element: Ref, pool: Pool)
    requires AllIn(env, pool.values, Resolve(env, element))
    ensures AllIn(env, ArrayOf(pool).values, Array(Some(element)))
  {
    var edges := if |pool.values| > 4 then pool.values[..4] else pool.values;
    var t := Resolve(env, element);
    assert forall i :: 0 <= i < |edges| ==> edges[i] == pool.values[i];
    assert forall i :: 0 <= i < |edges + edges| ==> Inhabits(env, (edges + edges)[i], t);
  }

  lemma IndexedInhabits(env: Env, index: Ref, pool: Pool)
    requires AllIn(env, pool.values, Resolve(env, index))
    ensures AllIn(env, IndexedOf(pool).values, Indexed(index, []))
  {
  }

  /** The pools of a record's considered properties, each with values of the property's type. */
  ghost predicate Supply(env: Env, properties: seq<Property>, pools: seq<Pool>) {
    && |pools| <= |properties|
    && forall i :: 0 <= i < |pools| ==>
        pools[i].values != [] && AllIn(env, pools[i].values, Resolve(env, properties[i].ref))
  }

  lemma FullFills(env: Env, properties: seq<Property>, pools: seq<Pool>, p: nat)
    requires Distinct(properties) && Supply(env, properties, pools) && p < |properties|
    requires p < |pools| || properties[p].optional
    ensures Filled(env, JObject(FullEntries(properties[..|pools|], pools)), Record(properties), properties[p])
  {
    var entries := FullEntries(properties[..|pools|], pools);
    assert forall k :: 0 <= k < |pools| ==> entries[k] == Entry(properties[k].name, First(pools[k].values));
    if p < |pools| {
      assert entries[p].key == properties[p].name;
      PicksInhabit(env, pools[p].values, Resolve(env, properties[p].ref));
    }
    forall k | 0 <= k < |entries| && entries[k].key == properties[p].name ensures k == p {
    }
  }

  /** The entry of required property `i`. */
  predicate ComesFrom(e: Entry, properties: seq<Property>, pools: seq<Pool>, i: nat) {
    && i < |pools| && i < |properties| && !properties[i].optional
    && e == Entry(properties[i].name, Second(pools[i].values))
  }

  lemma {:induction false} RequiredFrom(properties: seq<Property>, pools: seq<Pool>, e: Entry) returns (i: nat)
    requires |properties| == |pools| && e in RequiredEntries(properties, pools)
    ensures ComesFrom(e, properties, pools, i)
  {
    var n := |pools| - 1;
    if e in RequiredEntries(properties[..n], pools[..n]) {
      i := RequiredFrom(properties[..n], pools[..n], e);
    } else {
      i := n;
    }
  }

  lemma {:induction false} RequiredHas(properties: seq<Property>, pools: seq<Pool>, i: nat)
    requires |properties| == |pools| && i < |pools| && !properties[i].optional
    ensures Entry(properties[i].name, Second(pools[i].values)) in RequiredEntries(properties, pools)
  {
    var n := |pools| - 1;
    if i < n {
      RequiredHas(properties[..n], pools[..n], i);
    }
  }

  lemma RequiredFills(env: Env, properties: seq<Property>, pools: seq<Pool>, p: nat)
    requires Distinct(properties) && Supply(env, properties, pools) && p < |properties|
    requires p < |pools| || properties[p].optional
    ensures Filled(env, JObject(RequiredEntries(properties[..|pools|], pools)), Record(properties), properties[p])
  {
    var some := properties[..|pools|];
    var entries := RequiredEntries(some, pools);
    forall k | 0 <= k < |entries| && entries[k].key == properties[p].name
      ensures Inhabits(env, entries[k].value, Resolve(env, properties[p].ref))
    {
      var i := RequiredFrom(some, pools, entries[k]);
      assert some[i] == properties[i];
      PicksInhabit(env, pools[i].values, Resolve(env, properties[i].ref));
    }
    if !properties[p].optional {
      RequiredHas(some, pools, p);
      var k :| 0 <= k < |entries| && entries[k] == Entry(some[p].name, Second(pools[p].values));
      assert entries[k].key == properties[p].name;
    }
  }

  lemma RecordInhabits(env: Env, properties: seq<Property>, pools: seq<Pool>)
    requires Distinct(properties) && Supply(env, properties, pools) && |pools| == |Considered(properties)|
    requires forall i :: |pools| <= i < |properties| ==> properties[i].optional
    ensures RecordOf(env, properties, pools).typed ==>
              AllIn(env, RecordOf(env, properties, pools).values, Record(properties))
  {
    assert Considered(properties) == properties[..|pools|];
    forall p: nat | p < |properties| && |properties| > 0
      ensures Filled(env, JObject(FullEntries(properties[..|pools|], pools)), Record(properties), properties[p])
      ensures Filled(env, JObject(RequiredEntries(properties[..|pools|], pools)), Record(properties), properties[p])
    {
      FullFills(env, properties, pools, p);
      RequiredFills(env, properties, pools, p);
    }
  }

  /** What `typed` promises, level by level. */
  lemma {:induction false} TypedInhabits(env: Env, t: Type, depth: nat)
    requires PoolFor(env, t, depth).typed && Carried(env, t, depth)
    ensures AllIn(env, PoolFor(env, t, depth).values, t)
    ensures forall s :: s in PoolFor(env, t, depth).specials ==> SpecialInhabits(s, t)
    decreases 2 * depth, t
  {
    match t
    case Union(members) => UnionInhabits(env, t, depth);
    case Tuple(elements) => TupleInhabits(env, elements, depth);
    case Array(element) => ArraySupplied(env, element.value, depth);
    case Indexed(index, declared) => IndexedSupplied(env, index, depth);
    case Record(properties) => RecordSupplied(env, properties, depth);
    case _ => PlainInhabits(env, t, depth);
  }

  predicate Composite(t: Type) {
    t.Union? || t.Tuple? || t.Array? || t.Indexed? || t.Record?
  }

  lemma PlainInhabits(env: Env, t: Type, depth: nat)
    requires PoolFor(env, t, depth).typed && !Composite(t)
    ensures AllIn(env, PoolFor(env, t, depth).values, t)
    ensures forall s :: s in PoolFor(env, t, depth).specials ==> SpecialInhabits(s, t)
  {
  }

  lemma {:induction false} ArraySupplied(env: Env, element: Ref, depth: nat)
    requires depth > 0 && PoolFor(env, Array(Some(element)), depth).typed && Carried(env, Array(Some(element)), depth)
    ensures AllIn(env, PoolFor(env, Array(Some(element)), depth).values, Array(Some(element)))
    decreases 2 * depth, Array(Some(element)), 0
  {
    TypedInhabits(env, Resolve(env, element), depth - 1);
    ArrayInhabits(env, element, PoolFor(env, Resolve(env, element), depth - 1));
  }

  lemma {:induction false} IndexedSupplied(env: Env, index: Ref, depth: nat)
    requires depth > 0 && PoolFor(env, Indexed(index, []), depth).typed && Carried(env, Indexed(index, []), depth)
    ensures AllIn(env, PoolFor(env, Indexed(index, []), depth).values, Indexed(index, []))
    decreases 2 * depth, Indexed(index, []), 0
  {
    TypedInhabits(env, Resolve(env, index), depth - 1);
    IndexedInhabits(env, index, PoolFor(env, Resolve(env, index), depth - 1));
  }

  lemma {:induction false} TupleInhabits(env: Env, elements: seq<Ref>, depth: nat)
    requires depth > 0 && PoolFor(env, Tuple(elements), depth).typed && Carried(env, Tuple(elements), depth)
    ensures AllIn(env, PoolFor(env, Tuple(elements), depth).values, Tuple(elements))
    decreases 2 * depth, Tuple(elements), 0
  {
    TupleComponents(env, elements, depth - 1);
    FirstsInhabit(env, elements, PoolsOf(env, elements, depth - 1));
  }

  lemma {:induction false} TupleComponents(env: Env, elements: seq<Ref>, depth: nat)
    requires AllTyped(PoolsOf(env, elements, depth))
    requires forall i :: 0 <= i < |elements| ==> CarriedRef(env, elements[i], depth)
    ensures forall i :: 0 <= i < |elements| ==>
              Inhabits(env, First(PoolsOf(env, elements, depth)[i].values), Resolve(env, elements[i]))
    decreases 2 * depth + 1, 1
  {
    forall i | 0 <= i < |elements|
      ensures Inhabits(env, First(PoolFor(env, Resolve(env, elements[i]), depth).values), Resolve(env, elements[i]))
    {
      assert PoolsOf(env, elements, depth)[i].typed;
      ComponentSupplies(env, elements[i], depth);
      PicksInhabit(env, PoolFor(env, Resolve(env, elements[i]), depth).values, Resolve(env, elements[i]));
    }
  }

  lemma FirstsInhabit(env: Env, elements: seq<Ref>, pools: seq<Pool>)
    requires |pools| == |elements|
    requires forall i :: 0 <= i < |elements| ==> Inhabits(env, First(pools[i].values), Resolve(env, elements[i]))
    ensures AllIn(env, TupleOf(pools).values, Tuple(elements))
  {
  }

  lemma {:induction false} RecordSupplied(env: Env, properties: seq<Property>, depth: nat)
    requires depth > 0 && PoolFor(env, Record(properties), depth).typed && Carried(env, Record(properties), depth)
    ensures AllIn(env, PoolFor(env, Record(properties), depth).values, Record(properties))
    decreases 2 * depth, Record(properties), 0
  {
    var some := Considered(properties);
    var pools := PoolsOf(env, RefsOf(some), depth - 1);
    forall i | 0 <= i < |some|
      ensures pools[i].values != [] && AllIn(env, pools[i].values, Resolve(env, properties[i].ref))
    {
      assert CarriedRef(env, properties[i].ref, depth - 1);
      ComponentSupplies(env, properties[i].ref, depth - 1);
    }
    RecordInhabits(env, properties, pools);
  }

  /** A component whose pool is typed has values, all of its type. */
  lemma {:induction false} ComponentSupplies(env: Env, ref: Ref, depth: nat)
    requires PoolFor(env, Resolve(env, ref), depth).typed && CarriedRef(env, ref, depth)
    ensures PoolFor(env, Resolve(env, ref), depth).values != []
    ensures AllIn(env, PoolFor(env, Resolve(env, ref), depth).values, Resolve(env, ref))
    decreases 2 * depth + 1, 0
  {
    if PoolFor(env, Resolve(env, ref), depth).values == [] {
      EmptyPool(env, Resolve(env, ref), depth);
    }
    TypedInhabits(env, Resolve(env, ref), depth);
  }

  lemma {:induction false} UnionInhabits(env: Env, t: Type, depth: nat)
    requires t.Union? && PoolFor(env, t, depth).typed && Carried(env, t, depth)
    ensures AllIn(env, PoolFor(env, t, depth).values, t)
    ensures forall s :: s in PoolFor(env, t, depth).specials ==> SpecialInhabits(s, t)
    decreases 2 * depth, t, 0
  {
    UnionParts(env, t, depth, |t.members|);
    DedupedSame(UnionOf(env, t, depth, |t.members|).specials);
    forall i | 0 <= i < |t.members|
      ensures AllIn(env, PoolFor(env, t.members[i], depth).values, t.members[i])
      ensures forall s :: s in PoolFor(env, t.members[i], depth).specials ==> SpecialInhabits(s, t.members[i])
    {
      TypedInhabits(env, t.members[i], depth);
    }
    var pool := PoolFor(env, t, depth);
    forall k | 0 <= k < |pool.values| ensures Inhabits(env, pool.values[k], t) {
      assert pool.values[k] in UnionOf(env, t, depth, |t.members|).values;
      var i :| 0 <= i < |t.members| && pool.values[k] in PoolFor(env, t.members[i], depth).values;
      assert Inhabits(env, pool.values[k], t.members[i]);
    }
  }

  // ---- constructor by constructor, exactly -----------------------------------------------

  /** A typed pool is empty exactly for a type that is only undefined, and no value inhabits that. */
  lemma {:induction false} OnlyUndefinedEmpty(env: Env, t: Type, depth: nat)
    requires PoolFor(env, t, depth).typed
    ensures PoolFor(env, t, depth).values == [] <==> OnlyUndefined(t)
    decreases t
  {
    if OnlyUndefined(t) && t.Union? {
      UnionParts(env, t, depth, |t.members|);
      forall i | 0 <= i < |t.members| ensures PoolFor(env, t.members[i], depth).values == [] {
        OnlyUndefinedEmpty(env, t.members[i], depth);
      }
      UnionEmpty(env, t, depth, |t.members|);
    } else if PoolFor(env, t, depth).values == [] {
      EmptyPool(env, t, depth);
    }
  }

  lemma {:induction false} UnionEmpty(env: Env, t: Type, depth: nat, n: nat)
    requires t.Union? && n <= |t.members|
    requires forall i :: 0 <= i < n ==> PoolFor(env, t.members[i], depth).values == []
    ensures UnionOf(env, t, depth, n).values == []
  {
    if n > 0 {
      UnionEmpty(env, t, depth, n - 1);
    }
  }

  lemma {:induction false} NobodyInhabits(env: Env, v: Json, t: Type)
    requires OnlyUndefined(t)
    ensures !Inhabits(env, v, t)
    decreases t
  {
    if t.Union? {
      forall i | 0 <= i < |t.members| ensures !Inhabits(env, v, t.members[i]) {
        NobodyInhabits(env, v, t.members[i]);
      }
    }
  }

  /** The typed pools of components, each with values of its component only. */
  ghost predicate SoundPools(env: Env, refs: seq<Ref>, depth: nat) {
    var pools := PoolsOf(env, refs, depth);
    AllTyped(pools) && forall i :: 0 <= i < |refs| ==> AllIn(env, pools[i].values, Resolve(env, refs[i]))
  }

  lemma SoundComponent(env: Env, refs: seq<Ref>, depth: nat, i: nat)
    requires SoundPools(env, refs, depth) && i < |refs|
    ensures var pool, t := PoolsOf(env, refs, depth)[i], Resolve(env, refs[i]);
            && (pool.values == [] <==> OnlyUndefined(t))
            && (Inhabits(env, First(pool.values), t) <==> !OnlyUndefined(t))
  {
    var pool, t := PoolsOf(env, refs, depth)[i], Resolve(env, refs[i]);
    OnlyUndefinedEmpty(env, t, depth);
    if OnlyUndefined(t) {
      NobodyInhabits(env, First(pool.values), t);
    } else {
      PicksInhabit(env, pool.values, t);
    }
  }

  /** A tuple's candidate has its type if and only if no component is only undefined. */
  lemma TupleExactly(env: Env, elements: seq<Ref>, depth: nat)
    requires SoundPools(env, elements, depth)
    ensures AllIn(env, TupleOf(PoolsOf(env, elements, depth)).values, Tuple(elements)) <==>
            forall i :: 0 <= i < |elements| ==> !OnlyUndefined(Resolve(env, elements[i]))
  {
    var values := Firsts(PoolsOf(env, elements, depth));
    FirstsSuit(env, elements, depth);
    TupleBy(env, elements, values);
    assert TupleOf(PoolsOf(env, elements, depth)).values == [JArray(values)];
    OneIn(env, JArray(values), Tuple(elements));
  }

  lemma OneIn(env: Env, v: Json, t: Type)
    ensures AllIn(env, [v], t) <==> Inhabits(env, v, t)
  {
    assert [v][0] == v;
  }

  lemma FirstsSuit(env: Env, elements: seq<Ref>, depth: nat)
    requires SoundPools(env, elements, depth)
    ensures var values := Firsts(PoolsOf(env, elements, depth));
            forall i :: 0 <= i < |elements| ==>
              (Inhabits(env, values[i], Resolve(env, elements[i])) <==> !OnlyUndefined(Resolve(env, elements[i])))
  {
    var pools := PoolsOf(env, elements, depth);
    forall i | 0 <= i < |elements|
      ensures Inhabits(env, First(pools[i].values), Resolve(env, elements[i])) <==>
                !OnlyUndefined(Resolve(env, elements[i]))
    {
      SoundComponent(env, elements, depth, i);
    }
  }

  lemma TupleBy(env: Env, elements: seq<Ref>, values: seq<Json>)
    requires |values| == |elements|
    ensures Inhabits(env, JArray(values), Tuple(elements)) <==>
            forall i :: 0 <= i < |elements| ==> Inhabits(env, values[i], Resolve(env, elements[i]))
  {
  }

  /** A record's candidates have its type if and only if no property among the first six is only
      undefined and none after them is required. */
  lemma RecordExactly(env: Env, properties: seq<Property>, depth: nat)
    requires Distinct(properties) && SoundPools(env, RefsOf(Considered(properties)), depth)
    requires RecordOf(env, properties, PoolsOf(env, RefsOf(Considered(properties)), depth)).typed
    ensures var pools := PoolsOf(env, RefsOf(Considered(properties)), depth);
            AllIn(env, RecordOf(env, properties, pools).values, Record(properties)) <==> RecordSuits(env, properties)
  {
    var some := Considered(properties);
    var pools := PoolsOf(env, RefsOf(some), depth);
    forall i | 0 <= i < |some|
      ensures pools[i].values == [] <==> OnlyUndefined(Resolve(env, properties[i].ref))
      ensures AllIn(env, pools[i].values, Resolve(env, properties[i].ref))
    {
      SoundComponent(env, RefsOf(some), depth, i);
    }
    if RecordSuits(env, properties) {
      RecordInhabits(env, properties, pools);
    } else {
      RecordMisfits(env, properties, pools);
    }
  }

  ghost predicate RecordSuits(env: Env, properties: seq<Property>) {
    && (forall i :: MAX_PROPERTIES <= i < |properties| ==> properties[i].optional)
    && (forall i :: 0 <= i < |properties| && i < MAX_PROPERTIES ==> !OnlyUndefined(Resolve(env, properties[i].ref)))
  }

  lemma RecordMisfits(env: Env, properties: seq<Property>, pools: seq<Pool>)
    requires |pools| == |Considered(properties)| && Distinct(properties) && !RecordSuits(env, properties)
    requires forall i :: 0 <= i < |pools| ==>
               (pools[i].values == [] <==> OnlyUndefined(Resolve(env, properties[i].ref)))
    requires RecordOf(env, properties, pools).typed
    ensures !AllIn(env, RecordOf(env, properties, pools).values, Record(properties))
  {
    var some := Considered(properties);
    var full := FullEntries(some, pools);
    assert forall k :: 0 <= k < |full| ==> full[k] == Entry(properties[k].name, First(pools[k].values));
    assert some != [];
    assert RecordOf(env, properties, pools).values[0] == JObject(full);
    if i :| MAX_PROPERTIES <= i < |properties| && !properties[i].optional {
      assert !Filled(env, JObject(full), Record(properties), properties[i]);
    } else {
      var i :| 0 <= i < |properties| && i < MAX_PROPERTIES && OnlyUndefined(Resolve(env, properties[i].ref));
      NobodyInhabits(env, First(pools[i].values), Resolve(env, properties[i].ref));
      assert full[i].key == properties[i].name;
      assert !Filled(env, JObject(full), Record(properties), properties[i]);
    }
    assert !Fills(env, JObject(full), Record(properties), properties);
  }

  /** An indexed type's candidates have its type if and only if every declared property is optional
      and suits the value a candidate happens to hold under its name. */
  lemma IndexedExactly(env: Env, index: Ref, declared: seq<Property>, pool: Pool)
    requires AllIn(env, pool.values, Resolve(env, index))
    ensures AllIn(env, IndexedOf(pool).values, Indexed(index, declared)) <==>
            forall i :: 0 <= i < |declared| ==>
                declared[i].optional && SuitsEntries(env, declared[i], IndexEntries(pool.values))
  {
    var t, entries := Indexed(index, declared), IndexEntries(pool.values);
    var empty, full := JObject([]), JObject(IndexEntries(pool.values));
    forall i | 0 <= i < |declared|
      ensures Filled(env, empty, t, declared[i]) <==> declared[i].optional
      ensures declared[i].optional ==> (Filled(env, full, t, declared[i]) <==> SuitsEntries(env, declared[i], entries))
    {
    }
    assert Inhabits(env, empty, t) <==> Fills(env, empty, t, declared);
    assert Inhabits(env, full, t) <==> Fills(env, full, t, declared);
    BothIn(env, empty, full, t);
    if Fills(env, empty, t, declared) {
      assert forall i :: 0 <= i < |declared| ==> declared[i].optional;
    }
    assert IndexedOf(pool).values == [empty, full];
  }

  lemma BothIn(env: Env, v: Json, w: Json, t: Type)
    ensures AllIn(env, [v, w], t) <==> Inhabits(env, v, t) && Inhabits(env, w, t)
  {
    assert [v, w][0] == v && [v, w][1] == w;
  }

  ghost predicate SuitsEntries(env: Env, p: Property, entries: seq<Entry>) {
    forall k :: 0 <= k < |entries| && entries[k].key == p.name ==> Inhabits(env, entries[k].value, Resolve(env, p.ref))
  }

  // ---- where the promise fails -----------------------------------------------------------

  /** A tuple with an undefined component is marked typed and carries a null no tuple of that type
      has. */
  lemma UndefinedComponentFails(env: Env, depth: nat)
    requires depth > 1
    ensures var t := Tuple([Here(Undefined)]);
            var pool := PoolFor(env, t, depth);
            pool.typed && pool.values == [JArray([JNull])] && !Inhabits(env, JArray([JNull]), t)
  {
    var t := Tuple([Here(Undefined)]);
    var pools := PoolsOf(env, t.elements, depth - 1);
    assert pools[0] == Pool([], ["undefined"], true);
    assert Firsts(pools) == [JNull];
    var v := JArray([JNull]);
    assert !Inhabits(env, v.items[0], Resolve(env, t.elements[0]));
  }

  /** So is an object type whose seventh property is required: no candidate has that property. */
  lemma SeventhPropertyFails(env: Env, properties: seq<Property>, depth: nat)
    requires depth > 1 && |properties| > MAX_PROPERTIES && Distinct(properties)
    requires forall i :: 0 <= i < |properties| ==> properties[i].ref == Here(Number) && !properties[i].optional
    ensures PoolFor(env, Record(properties), depth).typed
    ensures forall v :: v in PoolFor(env, Record(properties), depth).values ==> !Inhabits(env, v, Record(properties))
  {
    var some := Considered(properties);
    var pools := PoolsOf(env, RefsOf(some), depth - 1);
    forall i | 0 <= i < |some|
      ensures pools[i] == Pool(NUMBERS, NUMBER_SPECIALS, true) && !Resolve(env, some[i].ref).Callable?
    {
      assert some[i] == properties[i];
    }
    var full, required := FullEntries(some, pools), RequiredEntries(some, pools);
    forall k | 0 <= k < |full| ensures full[k].key != properties[6].name {
      assert full[k].key == properties[k].name;
    }
    forall k | 0 <= k < |required| ensures required[k].key != properties[6].name {
      var i := RequiredFrom(some, pools, required[k]);
      assert some[i] == properties[i];
    }
    assert !Filled(env, JObject(full), Record(properties), properties[6]);
    assert !Filled(env, JObject(required), Record(properties), properties[6]);
    assert PoolFor(env, Record(properties), depth) == RecordOf(env, properties, pools);
  }

  /** And an indexed type with a required property beside: the empty object is offered for it. */
  lemma DeclaredPropertyFails(env: Env, name: string, depth: nat)
    requires depth > 1
    ensures var t := Indexed(Here(Number), [Property(name, Here(Number), false)]);
            && PoolFor(env, t, depth).typed && JObject([]) in PoolFor(env, t, depth).values
            && !Inhabits(env, JObject([]), t)
  {
    var t := Indexed(Here(Number), [Property(name, Here(Number), false)]);
    assert PoolFor(env, t, depth) == IndexedOf(Pool(NUMBERS, NUMBER_SPECIALS, true));
    assert !Filled(env, JObject([]), t, t.declared[0]);
  }
}
