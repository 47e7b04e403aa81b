/** What the pools offer: everything a small type has, every member of a union, and for the composite
    types which candidates there are. */
module PoolCoverage {
  import opened Options
  import opened Pools

  /** The types with finitely many values. */
  predicate Finite(t: Type) {
    match t
    case Boolean => true
    case BooleanLiteral(_) => true
    case Literal(literal) => literal.Some?
    case Null => true
    case Undefined => true
    case Union(members) => forall i :: 0 <= i < |members| ==> Finite(members[i])
    case _ => false
  }

  /** The pools of the first `n` members. */
  function MemberPools(env: Env, t: Type, depth: nat, n: nat): (pools: seq<Pool>)
    requires t.Union? && n <= |t.members|
    ensures |pools| == n && forall i :: 0 <= i < n ==> pools[i] == PoolFor(env, t.members[i], depth)
  {
    if n == 0 then [] else MemberPools(env, t, depth, n - 1) + [PoolFor(env, t.members[n - 1], depth)]
  }

  /** The values, markers and mark of `whole` are those of `pools` together. */
  ghost predicate JoinedOf(pools: seq<Pool>, whole: Pool) {
    && (forall v :: v in whole.values <==> exists i :: 0 <= i < |pools| && v in pools[i].values)
    && (forall s :: s in whole.specials <==> exists i :: 0 <= i < |pools| && s in pools[i].specials)
    && (whole.typed <==> forall i :: 0 <= i < |pools| ==> pools[i].typed)
  }

  lemma JoinedMore(pools: seq<Pool>, whole: Pool, last: Pool)
    requires JoinedOf(pools, whole)
    ensures JoinedOf(pools + [last], Pool(whole.values + last.values, whole.specials + last.specials,
                                          whole.typed && last.typed))
  {
    var all := pools + [last];
    assert forall i :: 0 <= i < |pools| ==> all[i] == pools[i];
    assert all[|pools|] == last;
    JoinedValues(pools, last, all);
    JoinedSpecials(pools, last, all);
  }

  lemma JoinedValues(pools: seq<Pool>, last: Pool, all: seq<Pool>)
    requires all == pools + [last]
    ensures forall v :: (exists i :: 0 <= i < |all| && v in all[i].values) <==>
              (exists i :: 0 <= i < |pools| && v in pools[i].values) || v in last.values
  {
    assert forall i :: 0 <= i < |pools| ==> all[i] == pools[i];
    assert all[|pools|] == last;
  }

  lemma JoinedSpecials(pools: seq<Pool>, last: Pool, all: seq<Pool>)
    requires all == pools + [last]
    ensures forall s :: (exists i :: 0 <= i < |all| && s in all[i].specials) <==>
              (exists i :: 0 <= i < |pools| && s in pools[i].specials) || s in last.specials
  {
    assert forall i :: 0 <= i < |pools| ==> all[i] == pools[i];
    assert all[|pools|] == last;
  }

  lemma {:induction false} UnionJoins(env: Env, t: Type, depth: nat, n: nat)
    requires t.Union? && n <= |t.members|
    ensures JoinedOf(MemberPools(env, t, depth, n), UnionOf(env, t, depth, n))
  {
    if n > 0 {
      UnionJoins(env, t, depth, n - 1);
      JoinedMore(MemberPools(env, t, depth, n - 1), UnionOf(env, t, depth, n - 1), PoolFor(env, t.members[n - 1],
          depth));
    }
  }

  /** A union's pool holds exactly its members' values and markers, each marker once, and is typed exactly
      when all of them are. */
  lemma UnionCovers(env: Env, t: Type, depth: nat)
    requires t.Union? && depth > 0
    ensures JoinedOf(MemberPools(env, t, depth, |t.members|), PoolFor(env, t, depth))
    ensures var specials := PoolFor(env, t, depth).specials;
            forall i, j :: 0 <= i < j < |specials| ==> specials[i] != specials[j]
  {
    UnionJoins(env, t, depth, |t.members|);
    DedupedSame(UnionOf(env, t, depth, |t.members|).specials);
    JoinedSame(MemberPools(env, t, depth, |t.members|), UnionOf(env, t, depth, |t.members|), PoolFor(env, t, depth));
  }

  lemma JoinedSame(pools: seq<Pool>, whole: Pool, same: Pool)
    requires JoinedOf(pools, whole) && same.values == whole.values && same.typed == whole.typed
    requires forall s :: s in same.specials <==> s in whole.specials
    ensures JoinedOf(pools, same)
  {
  }

  lemma {:induction false} UnionGrows(env: Env, t: Type, depth: nat, m: nat, n: nat)
    requires t.Union? && m <= n <= |t.members|
    ensures UnionOf(env, t, depth, m).values <= UnionOf(env, t, depth, n).values
  {
    if m < n {
      UnionGrows(env, t, depth, m, n - 1);
    }
  }

  lemma UnionNext(env: Env, t: Type, depth: nat, m: nat)
    requires t.Union? && m < |t.members|
    ensures UnionOf(env, t, depth, m + 1).values ==
            UnionOf(env, t, depth, m).values + PoolFor(env, t.members[m], depth).values
  {
  }

  /** The members' values come in the order of the members. */
  lemma UnionInOrder(env: Env, t: Type, depth: nat, m: nat)
    requires t.Union? && m < |t.members| && depth > 0
    ensures UnionOf(env, t, depth, m).values + PoolFor(env, t.members[m], depth).values
              <= PoolFor(env, t, depth).values
  {
    UnionNext(env, t, depth, m);
    UnionGrows(env, t, depth, m + 1, |t.members|);
  }

  /** Every value of a type with finitely many is offered, and nothing else. */
  lemma {:induction false} FiniteIsCovered(env: Env, t: Type, depth: nat, v: Json)
    requires depth > 0 && Finite(t)
    ensures v in PoolFor(env, t, depth).values <==> Inhabits(env, v, t)
    ensures PoolFor(env, t, depth).typed
    decreases t
  {
    if t.Union? {
      UnionCovers(env, t, depth);
      forall i | 0 <= i < |t.members|
        ensures v in PoolFor(env, t.members[i], depth).values <==> Inhabits(env, v, t.members[i])
        ensures PoolFor(env, t.members[i], depth).typed
      {
        FiniteIsCovered(env, t.members[i], depth, v);
      }
    } else if t.Boolean? {
      assert [JBool(true), JBool(false)][0] == JBool(true) && [JBool(true), JBool(false)][1] == JBool(false);
    }
  }

  /** The arrays offered: the empty one, and if the element has values at all its first alone, its first
      four in order, and those twice. */
  lemma ArrayOffers(env: Env, element: Ref, depth: nat)
    requires depth > 0
    ensures var values, e := PoolFor(env, Array(Some(element)), depth).values,
                             PoolFor(env, Resolve(env, element), depth - 1).values;
            var n := if |e| < 4 then |e| else 4;
            && values != [] && values[0] == JArray([])
            && (e == [] ==> |values| == 1)
            && (e != [] ==>
                && |values| == 4 && values[1] == JArray([e[0]])
                && values[2].JArray? && |values[2].items| == n
                && (forall i :: 0 <= i < n ==> values[2].items[i] == e[i])
                && values[3].JArray? && |values[3].items| == 2 * n
                && (forall i :: 0 <= i < n ==> values[3].items[i] == e[i] && values[3].items[n + i] == e[i]))
    ensures PoolFor(env, Array(Some(element)), depth).typed == PoolFor(env, Resolve(env, element), depth - 1).typed
  {
    var pool := PoolFor(env, Resolve(env, element), depth - 1);
    assert PoolFor(env, Array(Some(element)), depth) == ArrayOf(pool);
  }

  /** The one tuple offered holds each component's first value, null for a component without any. */
  lemma TupleOffers(env: Env, elements: seq<Ref>, depth: nat)
    requires depth > 0
    ensures var values := PoolFor(env, Tuple(elements), depth).values;
            && |values| == 1 && values[0].JArray? && |values[0].items| == |elements|
            && forall i :: 0 <= i < |elements| ==>
                 var e := PoolFor(env, Resolve(env, elements[i]), depth - 1).values;
                 values[0].items[i] == if e == [] then JNull else e[0]
    ensures PoolFor(env, Tuple(elements), depth).typed <==>
            forall i :: 0 <= i < |elements| ==> PoolFor(env, Resolve(env, elements[i]), depth - 1).typed
  {
    var pools := PoolsOf(env, elements, depth - 1);
    assert PoolFor(env, Tuple(elements), depth) == TupleOf(pools);
    assert TupleOf(pools).values[0].items == Firsts(pools);
  }

  /** The value offered under a required property: the second where there is one that is not null. */
  predicate IsSecond(values: seq<Json>, v: Json) {
    if |values| > 1 && values[1] != JNull then v == values[1] else v == if values == [] then JNull else values[0]
  }

  /** Every one of these properties is there, in order, with the first value of its pool. */
  predicate HasAll(properties: seq<Property>, pools: seq<Pool>, v: Json)
    requires |pools| == |properties|
  {
    && v.JObject? && |v.entries| == |properties|
    && forall i :: 0 <= i < |properties| ==>
         v.entries[i] == Entry(properties[i].name, if pools[i].values == [] then JNull else pools[i].values[0])
  }

  /** Exactly the required ones of these properties are there, each with a second value. */
  ghost predicate HasRequired(properties: seq<Property>, pools: seq<Pool>, v: Json)
    requires |pools| == |properties|
  {
    && v.JObject?
    && (forall i :: 0 <= i < |properties| && !properties[i].optional ==>
          exists e :: e in v.entries && IsEntryOf(properties[i], pools[i], e))
    && (forall e :: e in v.entries ==>
          exists i :: 0 <= i < |properties| && !properties[i].optional && IsEntryOf(properties[i], pools[i], e))
  }

  predicate IsEntryOf(p: Property, pool: Pool, e: Entry) {
    e.key == p.name && IsSecond(pool.values, e.value)
  }

  ghost predicate OffersRecord(properties: seq<Property>, pools: seq<Pool>, values: seq<Json>) {
    |pools| == |properties| && |values| == 2
    && HasAll(properties, pools, values[0]) && HasRequired(properties, pools, values[1])
  }

  lemma FullHasAll(some: seq<Property>, pools: seq<Pool>)
    requires |pools| == |some|
    ensures HasAll(some, pools, JObject(FullEntries(some, pools)))
  {
  }

  lemma RequiredOnly(some: seq<Property>, pools: seq<Pool>)
    requires |pools| == |some|
    ensures HasRequired(some, pools, JObject(RequiredEntries(some, pools)))
  {
    var required := RequiredEntries(some, pools);
    forall i | 0 <= i < |some| && !some[i].optional
      ensures exists e :: e in required && IsEntryOf(some[i], pools[i], e)
    {
      RequiredHas(some, pools, i);
      assert IsEntryOf(some[i], pools[i], Entry(some[i].name, Second(pools[i].values)));
    }
    forall e | e in required
      ensures exists i :: 0 <= i < |some| && !some[i].optional && IsEntryOf(some[i], pools[i], e)
    {
      var i := RequiredFrom(some, pools, e);
      assert IsEntryOf(some[i], pools[i], e);
    }
  }

  lemma RecordOfOffers(env: Env, properties: seq<Property>, pools: seq<Pool>, values: seq<Json>)
    requires |pools| == |Considered(properties)| && values == RecordOf(env, properties, pools).values
    requires properties != [] && !BearsMethods(env, Considered(properties))
    ensures OffersRecord(Considered(properties), pools, values)
  {
    FullHasAll(Considered(properties), pools);
    RequiredOnly(Considered(properties), pools);
  }

  lemma RecordPool(env: Env, properties: seq<Property>, depth: nat)
    requires depth > 0
    ensures var pools := PoolsOf(env, RefsOf(Considered(properties)), depth - 1);
            PoolFor(env, Record(properties), depth) == RecordOf(env, properties, pools)
  {
  }

  /** The two objects offered for a record without methods: one with every considered property and its
      first value, in order, and one with exactly the required ones. */
  lemma RecordOffers(env: Env, properties: seq<Property>, depth: nat)
    requires depth > 0 && properties != [] && !BearsMethods(env, Considered(properties))
    ensures var pools := PoolsOf(env, RefsOf(Considered(properties)), depth - 1);
            && OffersRecord(Considered(properties), pools, PoolFor(env, Record(properties), depth).values)
            && (PoolFor(env, Record(properties), depth).typed <==> forall i :: 0 <= i < |pools| ==> pools[i].typed)
  {
    var pools := PoolsOf(env, RefsOf(Considered(properties)), depth - 1);
    RecordPool(env, properties, depth);
    RecordOfOffers(env, properties, pools, PoolFor(env, Record(properties), depth).values);
  }

  /** The two objects offered for an indexed type: the empty one, and one with the first three values
      under three keys. */
  lemma IndexedOffers(env: Env, index: Ref, declared: seq<Property>, depth: nat)
    requires depth > 0
    ensures var values, e := PoolFor(env, Indexed(index, declared), depth).values,
                             PoolFor(env, Resolve(env, index), depth - 1).values;
            var n := if |e| < 3 then |e| else 3;
            && |values| == 2 && values[0] == JObject([]) && values[1].JObject? && |values[1].entries| == n
            && forall i :: 0 <= i < n ==> values[1].entries[i] == Entry(["", "a", "abc"][i], e[i])
    ensures PoolFor(env, Indexed(index, declared), depth).typed == PoolFor(env, Resolve(env, index), depth - 1).typed
  {
    assert PoolFor(env, Indexed(index, declared), depth) == IndexedOf(PoolFor(env, Resolve(env, index), depth - 1));
  }

  // ---- the edges of the open types -------------------------------------------------------

  /** Among the numbers are zero, one of each sign, both ends of the 32-bit range and a fraction, beside
      them what JSON cannot write. The pool is typed. */
  lemma NumberEdges(env: Env, depth: nat)
    requires depth > 0
    ensures var pool := PoolFor(env, Number, depth);
            && pool.typed && pool.specials == ["NaN", "Infinity", "-Infinity"]
            && JNumber(0.0) in pool.values && JNumber(1.0) in pool.values && JNumber(-1.0) in pool.values
            && JNumber((0x8000_0000 - 1) as real) in pool.values && JNumber((-0x8000_0000) as real) in pool.values
            && JNumber(0.5) in pool.values
  {
    var numbers := NUMBERS;
    assert numbers[0] == JNumber(0.0) && numbers[1] == JNumber(1.0) && numbers[2] == JNumber(-1.0);
    assert numbers[3] == JNumber(2147483647.0) && numbers[4] == JNumber(-2147483648.0) && numbers[6] == JNumber(0.5);
  }

  /** Among the texts are the empty one, a blank, one with a line break and one outside ASCII. The pool is
      typed. */
  lemma TextEdges(env: Env, depth: nat)
    requires depth > 0
    ensures var pool := PoolFor(env, Text, depth);
            && pool.typed && JText("") in pool.values && JText(" ") in pool.values
            && (exists s: string :: '\n' in s && JText(s) in pool.values)
            && exists s: string :: OutsideAscii(s) && JText(s) in pool.values
  {
    var texts := TextValues();
    assert texts[0] == JText("") && texts[3] == JText(" ");
    assert texts[4] == JText(TEXTS[4]) && texts[5] == JText(TEXTS[5]);
    assert TEXTS[4][0] as nat >= 0x80 && TEXTS[5][4] == '\n';
  }

  predicate OutsideAscii(s: string) {
    exists i :: 0 <= i < |s| && s[i] as nat >= 0x80
  }

  /** The guess offered for a type that says nothing has a value of every JSON kind and is never marked
      typed. */
  lemma MixedHasAllKinds()
    ensures !MIXED.typed
    ensures exists v :: v in MIXED.values && v.JNumber?
    ensures exists v :: v in MIXED.values && v.JText?
    ensures JBool(true) in MIXED.values && JBool(false) in MIXED.values && JNull in MIXED.values
    ensures JArray([]) in MIXED.values && exists v :: v in MIXED.values && v.JArray? && v.items != []
    ensures exists v :: v in MIXED.values && v.JObject? && v.entries != []
  {
    var values := MIXED.values;
    assert values[0].JNumber? && values[5].JText? && values[9] == JBool(true) && values[10] == JBool(false);
    assert values[11] == JNull && values[12].JArray? && values[13] == JArray([]) && values[14].JObject?;
  }
}
