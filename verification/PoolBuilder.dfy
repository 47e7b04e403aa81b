/** The pools as they are built, and a parameter's final list of candidates. */
module PoolBuilder {
  import opened Pools

  method PoolForType(env: Env, t: Type, depth: nat) returns (pool: Pool)
    ensures pool == PoolFor(env, t, depth)
    decreases 2 * depth, t, 1
  {
    if depth > 0 && t.Union? {
      pool := UnionPool(env, t, depth);
    } else if depth > 0 && t.Tuple? {
      pool := TuplePool(env, t, depth);
    } else if depth > 0 && t.Array? && t.element.Some? {
      pool := ArrayPool(env, t, depth);
    } else if depth > 0 && t.Indexed? {
      pool := IndexedPool(env, t, depth);
    } else if depth > 0 && t.Record? {
      pool := ObjectPool(env, t.properties, depth - 1);
    } else {
      pool := PoolFor(env, t, depth);
    }
  }

  method TuplePool(env: Env, t: Type, depth: nat) returns (pool: Pool)
    requires t.Tuple? && depth > 0
    ensures pool == PoolFor(env, t, depth)
    decreases 2 * depth, t, 0
  {
    TupleUnfolds(env, t, depth);
    var pools := ComponentPools(env, t.elements, depth - 1);
    pool := TupleOf(pools);
  }

  method UnionPool(env: Env, t: Type, depth: nat) returns (pool: Pool)
    requires t.Union? && depth > 0
    ensures pool == PoolFor(env, t, depth)
    decreases 2 * depth, t, 0
  {
    var values: seq<Json>, specials: seq<string>, typed := [], [], true;
    for i := 0 to |t.members|
      invariant Pool(values, specials, typed) == UnionOf(env, t, depth, i)
    {
      var member := PoolForType(env, t.members[i], depth);
      values := values + member.values;
      specials := specials + member.specials;
      typed := typed && member.typed;
    }
    pool := Pool(values, Deduped(specials), typed);
  }

  method ComponentPools(env: Env, refs: seq<Ref>, depth: nat) returns (pools: seq<Pool>)
    ensures pools == PoolsOf(env, refs, depth)
    decreases 2 * depth + 1
  {
    pools := [];
    for i := 0 to |refs|
      invariant pools == PoolsOf(env, refs[..i], depth)
    {
      assert refs[..i + 1][..i] == refs[..i];
      var inner := PoolForType(env, Resolve(env, refs[i]), depth);
      pools := pools + [inner];
    }
    assert refs[..|refs|] == refs;
  }

  lemma TupleUnfolds(env: Env, t: Type, depth: nat)
    requires depth > 0 && t.Tuple?
    ensures PoolFor(env, t, depth) == TupleOf(PoolsOf(env, t.elements, depth - 1))
  {
  }

  method ArrayPool(env: Env, t: Type, depth: nat) returns (pool: Pool)
    requires t.Array? && t.element.Some? && depth > 0
    ensures pool == PoolFor(env, t, depth)
    decreases 2 * depth, t, 0
  {
    var element := PoolForType(env, Resolve(env, t.element.value), depth - 1);
    var edges := if |element.values| > 4 then element.values[..4] else element.values;
    var values := [JArray([])];
    if |edges| > 0 {
      values := values + [JArray([edges[0]]), JArray(edges), JArray(edges + edges)];
    }
    pool := Pool(values, [], element.typed);
    assert pool == ArrayOf(element);
  }

  method IndexedPool(env: Env, t: Type, depth: nat) returns (pool: Pool)
    requires t.Indexed? && depth > 0
    ensures pool == PoolFor(env, t, depth)
    decreases 2 * depth, t, 0
  {
    var value := PoolForType(env, Resolve(env, t.index), depth - 1);
    var entries: seq<Entry> := [];
    for i := 0 to 3
      invariant |entries| == if i < |value.values| then i else |value.values|
      invariant forall k :: 0 <= k < |entries| ==> entries[k] == Entry(TEXTS[k], value.values[k])
    {
      if i < |value.values| {
        entries := entries + [Entry(TEXTS[i], value.values[i])];
      }
    }
    assert entries == IndexEntries(value.values);
    pool := Pool([JObject([]), JObject(entries)], [], value.typed);
  }

  /** `depth` is the level of the properties. */
  method ObjectPool(env: Env, properties: seq<Property>, depth: nat) returns (pool: Pool)
    ensures pool == PoolFor(env, Record(properties), depth + 1)
    decreases 2 * depth + 1
  {
    var some := Considered(properties);
    if some == [] {
      return Typed([JObject([])]);
    }
    if BearsMethods(env, some) {
      return MIXED;
    }
    var first, required: seq<Entry> := [], [];
    var typed := true;
    ghost var pools := PoolsOf(env, RefsOf(some), depth);
    for i := 0 to |some|
      invariant first == FullEntries(some[..i], pools[..i]) && required == RequiredEntries(some[..i], pools[..i])
      invariant typed <==> AllTyped(pools[..i])
    {
      var inner := PoolForType(env, Resolve(env, some[i].ref), depth);
      OneMoreProperty(some, pools, i);
      typed := typed && inner.typed;
      first := first + [Entry(some[i].name, First(inner.values))];
      if !some[i].optional {
        required := required + [Entry(some[i].name, Second(inner.values))];
      }
    }
    assert some[..|some|] == some && pools[..|some|] == pools;
    pool := Pool([JObject(first), JObject(required)], [], typed);
  }

  lemma OneMoreProperty(some: seq<Property>, pools: seq<Pool>, i: nat)
    requires |some| == |pools| && i < |some|
    ensures FullEntries(some[..i + 1], pools[..i + 1]) ==
              FullEntries(some[..i], pools[..i]) + [Entry(some[i].name, First(pools[i].values))]
    ensures RequiredEntries(some[..i + 1], pools[..i + 1]) ==
            RequiredEntries(some[..i], pools[..i])
                + if some[i].optional then [] else [Entry(some[i].name, Second(pools[i].values))]
    ensures AllTyped(pools[..i + 1]) <==> AllTyped(pools[..i]) && pools[i].typed
  {
    assert some[..i + 1][..i] == some[..i] && pools[..i + 1][..i] == pools[..i];
    assert pools[..i + 1] == pools[..i] + [pools[i]];
  }

  /** Every print of the list is kept. */
  lemma {:induction false} EveryPrintKept(text: Json -> string, values: seq<Json>)
    ensures forall v :: v in values ==> Printed(text, DistinctBy(text, values), v)
  {
    if values != [] {
      var init, last := values[..|values| - 1], values[|values| - 1];
      EveryPrintKept(text, init);
      PrintsKept(text, DistinctBy(text, init), last);
      assert forall v :: v in values ==> v in init || v == last;
    }
  }

  /** `out` holds the values at these places, in the order of the list, each the first of its print. */
  ghost predicate FirstsAt(text: Json -> string, values: seq<Json>, out: seq<Json>, at: seq<nat>) {
    && |at| == |out|
    && (forall i, j :: 0 <= i < j < |at| ==> at[i] < at[j])
    && (forall i :: 0 <= i < |at| ==> at[i] < |values| && out[i] == values[at[i]])
    && (forall i, k :: 0 <= i < |at| && 0 <= k < at[i] ==> text(values[k]) != text(out[i]))
  }

  lemma {:induction false} DistinctAt(text: Json -> string, values: seq<Json>) returns (at: seq<nat>)
    ensures FirstsAt(text, values, DistinctBy(text, values), at)
  {
    at := [];
    if values != [] {
      var n := |values| - 1;
      var init, last := values[..n], values[n];
      at := DistinctAt(text, init);
      LongerList(text, init, last, DistinctBy(text, init), at);
      assert init + [last] == values;
      if !Printed(text, DistinctBy(text, init), last) {
        EveryPrintKept(text, init);
        NewFirst(text, init, last, DistinctBy(text, init), at);
        at := at + [n];
      }
    }
  }

  lemma LongerList(text: Json -> string, values: seq<Json>, last: Json, out: seq<Json>, at: seq<nat>)
    requires FirstsAt(text, values, out, at)
    ensures FirstsAt(text, values + [last], out, at)
  {
    assert forall k :: 0 <= k < |values| ==> (values + [last])[k] == values[k];
  }

  lemma NewFirst(text: Json -> string, values: seq<Json>, last: Json, out: seq<Json>, at: seq<nat>)
    requires FirstsAt(text, values + [last], out, at) && FirstsAt(text, values, out, at)
    requires !Printed(text, out, last) && forall v :: v in values ==> Printed(text, out, v)
    ensures FirstsAt(text, values + [last], out + [last], at + [|values|])
  {
    forall k | 0 <= k < |values| ensures text((values + [last])[k]) != text(last) {
      assert values[k] in values;
    }
  }

  /** Values added behind keep every print there was. */
  lemma PrintsKept(text: Json -> string, values: seq<Json>, last: Json)
    ensures forall v :: Printed(text, values, v) ==> Printed(text, values + [last], v)
    ensures Printed(text, values + [last], last)
  {
    var all := values + [last];
    assert all[|values|] == last && forall i :: 0 <= i < |values| ==> all[i] == values[i];
  }

  /** Keep the first of the values that print alike: what is kept is exactly the values no earlier
      one prints like, in their order. */
  method DedupeValues(text: Json -> string, values: seq<Json>) returns (out: seq<Json>, ghost at: seq<nat>)
    ensures out == DistinctBy(text, values)
    ensures FirstsAt(text, values, out, at)
    ensures forall v :: v in values ==> Printed(text, out, v)
  {
    out := [];
    var seen: set<string> := {};
    for k := 0 to |values|
      invariant out == DistinctBy(text, values[..k])
      invariant forall s :: s in seen <==> exists i :: 0 <= i < |out| && text(out[i]) == s
    {
      assert values[..k + 1][..k] == values[..k];
      if text(values[k]) !in seen {
        seen := seen + {text(values[k])};
        PrintsKept(text, out, values[k]);
        ghost var before := out;
        out := out + [values[k]];
        assert out[|before|] == values[k] && forall i :: 0 <= i < |before| ==> out[i] == before[i];
      }
    }
    assert values[..|values|] == values;
    at := DistinctAt(text, values);
    EveryPrintKept(text, values);
  }

  /** A parameter's candidates are the first eighty of its type's that print differently, with the
      type's mark and markers; when the pool is marked typed and the type's shape is one the pools
      carry, every one of them is of the parameter's type. */
  method ParameterPool(env: Env, text: Json -> string, t: Type, optional: bool) returns (pool: Pool)
    ensures var inner := PoolFor(env, t, MAX_DEPTH);
            && pool.typed == inner.typed
            && pool.specials == Deduped(inner.specials + if optional then ["undefined"] else [])
            && KeptEighty(text, inner.values, pool.values)
    ensures pool.typed && Carried(env, t, MAX_DEPTH) ==>
              && AllIn(env, pool.values, t)
              && forall s :: s in pool.specials ==> SpecialInhabits(s, t) || (optional && s == "undefined")
  {
    var inner := PoolForType(env, t, MAX_DEPTH);
    var values, at := DedupeValues(text, inner.values);
    CappedDiffer(text, inner.values, values, at);
    if |values| > MAX_POOL_SIZE {
      values := values[..MAX_POOL_SIZE];
    }
    var specials := inner.specials + if optional then ["undefined"] else [];
    pool := Pool(values, Deduped(specials), inner.typed);
    if pool.typed && Carried(env, t, MAX_DEPTH) {
      CandidatesInhabit(env, t, optional, values);
    }
  }

  /** The first eighty values that print differently: no two print alike, and unless eighty are kept
      every print there is is among them. */
  ghost predicate KeptEighty(text: Json -> string, values: seq<Json>, kept: seq<Json>) {
    && kept == FirstEighty(DistinctBy(text, values))
    && |kept| <= MAX_POOL_SIZE
    && (forall i, j :: 0 <= i < j < |kept| ==> text(kept[i]) != text(kept[j]))
    && (forall v :: v in kept ==> v in values)
    && (|kept| == MAX_POOL_SIZE || forall v :: v in values ==> Printed(text, kept, v))
  }

  lemma CappedDiffer(text: Json -> string, values: seq<Json>, out: seq<Json>, at: seq<nat>)
    requires out == DistinctBy(text, values) && FirstsAt(text, values, out, at)
    requires forall v :: v in values ==> Printed(text, out, v)
    ensures KeptEighty(text, values, FirstEighty(out))
  {
    Differ(text, values, out, at);
  }

  lemma CandidatesInhabit(env: Env, t: Type, optional: bool, kept: seq<Json>)
    requires forall v :: v in kept ==> v in PoolFor(env, t, MAX_DEPTH).values
    requires PoolFor(env, t, MAX_DEPTH).typed
    requires Carried(env, t, MAX_DEPTH)
    ensures AllIn(env, kept, t)
    ensures forall s :: s in Deduped(PoolFor(env, t, MAX_DEPTH).specials + if optional then ["undefined"] else [])
                    ==> SpecialInhabits(s, t) || (optional && s == "undefined")
  {
    TypedInhabits(env, t, MAX_DEPTH);
    Inherited(env, kept, PoolFor(env, t, MAX_DEPTH).values, t);
    DedupedSame(PoolFor(env, t, MAX_DEPTH).specials + if optional then ["undefined"] else []);
  }

  function FirstEighty(values: seq<Json>): seq<Json> {
    if |values| > MAX_POOL_SIZE then values[..MAX_POOL_SIZE] else values
  }

  lemma Differ(text: Json -> string, values: seq<Json>, out: seq<Json>, at: seq<nat>)
    requires FirstsAt(text, values, out, at)
    ensures forall i, j :: 0 <= i < j < |out| ==> text(out[i]) != text(out[j])
    ensures forall v :: v in out ==> v in values
  {
    forall i, j | 0 <= i < j < |out| ensures text(out[i]) != text(out[j]) {
      assert at[i] < at[j] && values[at[i]] == out[i];
    }
  }

  lemma Inherited(env: Env, some: seq<Json>, values: seq<Json>, t: Type)
    requires AllIn(env, values, t) && forall v :: v in some ==> v in values
    ensures AllIn(env, some, t)
  {
    forall i | 0 <= i < |some| ensures Inhabits(env, some[i], t) {
      assert some[i] in values;
    }
  }
}
