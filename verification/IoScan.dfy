/** The depth-bounded search of a call graph for input and output, with its one shared set of
    functions already looked at. */
module IoScan {
  type Name = string

  /** What the scan looks at inside a function, in visiting order: a reference to an IO surface, a
      call by plain name, anything else. */
  datatype Item = Io | Call(callee: Name) | Plain

  type Body = seq<Item>

  /** The functions of the module under scan. */
  type Module = map<Name, Body>

  const CALLEE_SCAN_DEPTH: nat := 2

  /** The answer and the functions looked at by then. */
  function Scan(m: Module, body: Body, depth: nat, seen: set<Name>): (bool, set<Name>)
    decreases depth, |body|
  {
    if body == [] then (false, seen)
    else
      match body[0]
      case Io => (true, seen)
      case Plain => Scan(m, body[1..], depth, seen)
      case Call(n) =>
        if depth > 0 && n in m && n !in seen then
          var (found, more) := Scan(m, m[n], depth - 1, seen + {n});
          if found then (true, more) else Scan(m, body[1..], depth, more)
        else Scan(m, body[1..], depth, seen)
  }

  predicate HasIo(body: Body) {
    Io in body
  }

  /** IO is at most `depth` calls away. */
  predicate Reaches(m: Module, body: Body, depth: nat)
    decreases depth
  {
    HasIo(body) || (depth > 0 && exists n :: n in Callees(m, body) && Reaches(m, m[n], depth - 1))
  }

  /** The functions of the module a body calls. */
  function Callees(m: Module, body: Body): (names: set<Name>)
    ensures forall n :: n in names <==> Call(n) in body && n in m
  {
    set i | 0 <= i < |body| && body[i].Call? && body[i].callee in m :: body[i].callee
  }

  lemma CalleesTail(m: Module, body: Body)
    requires body != []
    ensures Callees(m, body) ==
              Callees(m, body[1..]) + (if body[0].Call? && body[0].callee in m then {body[0].callee} else {})
    ensures HasIo(body) <==> body[0].Io? || HasIo(body[1..])
  {
    assert body == [body[0]] + body[1..];
  }

  // ---- soundness -------------------------------------------------------------------------

  lemma ReachesFrom(m: Module, body: Body, tail: Body, depth: nat)
    requires Callees(m, tail) <= Callees(m, body) && (HasIo(tail) ==> HasIo(body)) && Reaches(m, tail, depth)
    ensures Reaches(m, body, depth)
  {
    if !HasIo(tail) {
      var n :| n in Callees(m, tail) && Reaches(m, m[n], depth - 1);
      assert n in Callees(m, body);
    }
  }

  /** The scan ends on every call graph, cyclic ones included, and a true answer is right: some IO is
      at most `depth` calls away. */
  lemma {:induction false} FoundIsThere(m: Module, body: Body, depth: nat, seen: set<Name>)
    requires Scan(m, body, depth, seen).0
    ensures Reaches(m, body, depth)
    decreases depth, |body|
  {
    CalleesTail(m, body);
    if body[0].Call? && depth > 0 && body[0].callee in m && body[0].callee !in seen {
      var n := body[0].callee;
      var (found, more) := Scan(m, m[n], depth - 1, seen + {n});
      if found {
        FoundIsThere(m, m[n], depth - 1, seen + {n});
        assert n in Callees(m, body);
      } else {
        FoundIsThere(m, body[1..], depth, more);
        ReachesFrom(m, body, body[1..], depth);
      }
    } else if !body[0].Io? {
      FoundIsThere(m, body[1..], depth, seen);
      ReachesFrom(m, body, body[1..], depth);
    }
  }

  // ---- what a false answer means ---------------------------------------------------------

  /** A false answer: no IO in the body or in any function newly looked at, and with a call to
      spare every direct callee has been looked at. Each newly seen function is called from the body
      or from another function that was looked at. */
  lemma {:induction false} NotFoundMeans(m: Module, body: Body, depth: nat, seen: set<Name>)
    requires !Scan(m, body, depth, seen).0
    ensures var seen' := Scan(m, body, depth, seen).1;
            && !HasIo(body) && seen <= seen'
            && (forall n :: n in seen' - seen ==> n in m && !HasIo(m[n]))
            && (depth > 0 ==> Callees(m, body) <= seen')
            && (depth == 0 ==> seen' == seen)
    decreases depth, |body|
  {
    if body != [] {
      CalleesTail(m, body);
      if body[0].Call? && depth > 0 && body[0].callee in m && body[0].callee !in seen {
        var n := body[0].callee;
        NotFoundMeans(m, m[n], depth - 1, seen + {n});
        NotFoundMeans(m, body[1..], depth, Scan(m, m[n], depth - 1, seen + {n}).1);
      } else {
        NotFoundMeans(m, body[1..], depth, seen);
      }
    }
  }

  /** A false answer at any depth from 1 on rules out IO in the body, in its direct callees and in
      every function the scan looked at. */
  lemma FalseRulesOut(m: Module, body: Body, depth: nat)
    requires depth > 0 && !Scan(m, body, depth, {}).0
    ensures !Reaches(m, body, 1)
    ensures forall n :: n in Scan(m, body, depth, {}).1 ==> n in m && !HasIo(m[n])
  {
    NotFoundMeans(m, body, depth, {});
    forall n | n in Callees(m, body) ensures !Reaches(m, m[n], 0) {
    }
  }

  /** With one call to spare, or none, the scan is exact. */
  lemma ShallowIsExact(m: Module, body: Body, depth: nat)
    requires depth <= 1
    ensures Scan(m, body, depth, {}).0 <==> Reaches(m, body, depth)
  {
    if Scan(m, body, depth, {}).0 {
      FoundIsThere(m, body, depth, {});
    } else {
      NotFoundMeans(m, body, depth, {});
    }
  }

  // ---- two calls deep --------------------------------------------------------------------

  /** The functions a two-call scan looks at when it finds nothing. A direct callee that some earlier
      callee called is not opened again. */
  function Examined(m: Module, body: Body, seen: set<Name>): set<Name> {
    if body == [] then seen
    else if body[0].Call? && body[0].callee in m && body[0].callee !in seen then
      Examined(m, body[1..], seen + {body[0].callee} + Callees(m, m[body[0].callee]))
    else Examined(m, body[1..], seen)
  }

  lemma {:induction false} ExaminedGrows(m: Module, body: Body, seen: set<Name>)
    ensures seen <= Examined(m, body, seen)
  {
    if body != [] {
      if body[0].Call? && body[0].callee in m && body[0].callee !in seen {
        ExaminedGrows(m, body[1..], seen + {body[0].callee} + Callees(m, m[body[0].callee]));
      } else {
        ExaminedGrows(m, body[1..], seen);
      }
    }
  }

  /** At depth 0 a scan sees only the body; at depth 1 also the callees not seen before. */
  lemma {:induction false} OneDeep(m: Module, body: Body, seen: set<Name>)
    ensures var (found, seen') := Scan(m, body, 1, seen);
            && (found <==> HasIo(body) || exists n :: n in Callees(m, body) - seen && HasIo(m[n]))
            && (!found ==> seen' == seen + Callees(m, body))
    decreases |body|
  {
    if body != [] {
      CalleesTail(m, body);
      if body[0].Call? && body[0].callee in m && body[0].callee !in seen {
        var n := body[0].callee;
        ZeroDeep(m, m[n], seen + {n});
        OneDeep(m, body[1..], seen + {n});
        if HasIo(m[n]) {
          assert n in Callees(m, body) - seen;
        } else if k :| k in Callees(m, body) - seen && HasIo(m[k]) {
          assert k in Callees(m, body[1..]) - (seen + {n});
        }
      } else {
        OneDeep(m, body[1..], seen);
        assert Callees(m, body) - seen == Callees(m, body[1..]) - seen;
      }
    }
  }

  lemma {:induction false} ZeroDeep(m: Module, body: Body, seen: set<Name>)
    ensures Scan(m, body, 0, seen).0 <==> HasIo(body)
    ensures Scan(m, body, 0, seen).1 == seen
    decreases |body|
  {
    if body != [] {
      CalleesTail(m, body);
      ZeroDeep(m, body[1..], seen);
    }
  }

  /** Nothing with IO among the functions seen so far. */
  ghost predicate Clean(m: Module, seen: set<Name>) {
    forall n :: n in seen && n in m ==> !HasIo(m[n])
  }

  lemma {:induction false} TwoDeep(m: Module, body: Body, seen: set<Name>)
    requires Clean(m, seen)
    ensures Scan(m, body, 2, seen).0 <==> HasIo(body) || !Clean(m, Examined(m, body, seen))
    decreases |body|
  {
    if body != [] {
      CalleesTail(m, body);
      if body[0].Call? && body[0].callee in m && body[0].callee !in seen {
        var n := body[0].callee;
        OneDeep(m, m[n], seen + {n});
        var next := seen + {n} + Callees(m, m[n]);
        ExaminedGrows(m, body[1..], next);
        if Scan(m, m[n], 1, seen + {n}).0 {
          var k :| k in next && k in m && HasIo(m[k]);
          assert k in Examined(m, body, seen);
        } else {
          assert Clean(m, next);
          TwoDeep(m, body[1..], next);
        }
      } else {
        TwoDeep(m, body[1..], seen);
      }
    }
  }

  /** The scan the classifier runs answers true exactly when the body, or a function it examines,
      touches IO. */
  lemma ClassifierExact(m: Module, body: Body)
    ensures Scan(m, body, CALLEE_SCAN_DEPTH, {}).0 <==>
            HasIo(body) || exists n :: n in Examined(m, body, {}) && n in m && HasIo(m[n])
  {
    TwoDeep(m, body, {});
  }

  /** No direct callee is called by a callee that comes before it. */
  predicate Forward(m: Module, body: Body, seen: set<Name>) {
    body == [] ||
    if body[0].Call? && body[0].callee in m && body[0].callee !in seen then
      && Callees(m, m[body[0].callee]) !! (Callees(m, body[1..]) - seen - {body[0].callee})
      && Forward(m, body[1..], seen + {body[0].callee})
    else Forward(m, body[1..], seen)
  }

  /** `followed` are the direct callees whose own calls have been followed. */
  lemma {:induction false} ForwardExamines(m: Module, body: Body, followed: set<Name>, seen: set<Name>)
    requires followed <= seen && Forward(m, body, followed)
    requires forall n :: n in Callees(m, body) && n in seen ==> n in followed
    requires forall n :: n in followed ==> n in m && Callees(m, m[n]) <= seen
    ensures forall n :: n in Callees(m, body) ==>
              n in Examined(m, body, seen) && Callees(m, m[n]) <= Examined(m, body, seen)
    decreases |body|
  {
    if body != [] {
      CalleesTail(m, body);
      ExaminedGrows(m, body, seen);
      if body[0].Call? && body[0].callee in m && body[0].callee !in seen {
        var n := body[0].callee;
        var next := seen + {n} + Callees(m, m[n]);
        ExaminedGrows(m, body[1..], next);
        ForwardExamines(m, body[1..], followed + {n}, next);
      } else {
        ForwardExamines(m, body[1..], followed, seen);
      }
    }
  }

  /** Then the two-call scan is exact as well. */
  lemma ForwardIsExact(m: Module, body: Body)
    requires Forward(m, body, {})
    ensures Scan(m, body, CALLEE_SCAN_DEPTH, {}).0 <==> Reaches(m, body, CALLEE_SCAN_DEPTH)
  {
    if Scan(m, body, 2, {}).0 {
      FoundIsThere(m, body, 2, {});
    } else {
      TwoDeep(m, body, {});
      ForwardExamines(m, body, {}, {});
    }
  }

  /** The functions a body calls and those they call. */
  function TwoCalls(m: Module, body: Body): set<Name> {
    Callees(m, body) + set n, k | n in Callees(m, body) && k in Callees(m, m[n]) :: k
  }

  /** A body's calls, in order. */
  function CallsOf(body: Body): Body {
    if body == [] then []
    else (if body[0].Call? then [body[0]] else []) + CallsOf(body[1..])
  }

  /** The same functions with the same calls; where they do IO may differ. */
  ghost predicate SameCalls(m: Module, m': Module) {
    m.Keys == m'.Keys && forall n :: n in m ==> CallsOf(m[n]) == CallsOf(m'[n])
  }

  lemma {:induction false} CallsKept(body: Body, n: Name)
    ensures Call(n) in body <==> Call(n) in CallsOf(body)
  {
    if body != [] {
      CallsKept(body[1..], n);
      assert body == [body[0]] + body[1..];
    }
  }

  lemma CalleesSame(m: Module, m': Module, body: Body, body': Body)
    requires m.Keys == m'.Keys && CallsOf(body) == CallsOf(body')
    ensures Callees(m, body) == Callees(m', body')
  {
    forall n ensures n in Callees(m, body) <==> n in Callees(m', body') {
      CallsKept(body, n);
      CallsKept(body', n);
    }
  }

  lemma {:induction false} ExaminedSame(m: Module, m': Module, body: Body, seen: set<Name>)
    requires SameCalls(m, m')
    ensures Examined(m, body, seen) == Examined(m', body, seen)
  {
    if body != [] {
      var next := seen;
      if body[0].Call? && body[0].callee in m && body[0].callee !in seen {
        var n := body[0].callee;
        CalleesSame(m, m', m[n], m'[n]);
        next := seen + {n} + Callees(m, m[n]);
      }
      ExaminedSame(m, m', body[1..], next);
    }
  }

  lemma TwoCallsSame(m: Module, m': Module, body: Body)
    requires SameCalls(m, m')
    ensures TwoCalls(m, body) == TwoCalls(m', body)
  {
    CalleesSame(m, m', body, body);
    forall n | n in Callees(m, body) ensures Callees(m, m[n]) == Callees(m', m'[n]) {
      CalleesSame(m, m', m[n], m'[n]);
    }
  }

  /** Two calls away is IO in the body or in one of those functions. */
  lemma ReachesTwo(m: Module, body: Body)
    ensures Reaches(m, body, 2) <==> HasIo(body) || exists k :: k in TwoCalls(m, body) && k in m && HasIo(m[k])
  {
    if Reaches(m, body, 2) && !HasIo(body) {
      var n :| n in Callees(m, body) && Reaches(m, m[n], 1);
      if !HasIo(m[n]) {
        var k :| k in Callees(m, m[n]) && Reaches(m, m[k], 0);
        assert k in TwoCalls(m, body);
      }
    }
    if k :| k in TwoCalls(m, body) && k in m && HasIo(m[k]) {
      assert Reaches(m, m[k], 0) && Reaches(m, m[k], 1);
      if k !in Callees(m, body) {
        var n :| n in Callees(m, body) && k in Callees(m, m[n]);
        assert Reaches(m, m[n], 1);
      }
    }
  }

  lemma {:induction false} ExaminedWithin(m: Module, body: Body, seen: set<Name>)
    ensures Examined(m, body, seen) <= seen + TwoCalls(m, body)
  {
    if body != [] {
      CalleesTail(m, body);
      if body[0].Call? && body[0].callee in m && body[0].callee !in seen {
        var n := body[0].callee;
        ExaminedWithin(m, body[1..], seen + {n} + Callees(m, m[n]));
      } else {
        ExaminedWithin(m, body[1..], seen);
      }
    }
  }

  /** Module `m` with IO in `k` and nowhere else. */
  function OnlyIn(m: Module, k: Name): Module {
    map n | n in m :: if n == k then [Io] + CallsOf(m[n]) else CallsOf(m[n])
  }

  lemma {:induction false} CallsOfCalls(body: Body)
    ensures CallsOf(CallsOf(body)) == CallsOf(body) && !HasIo(CallsOf(body))
  {
    if body != [] {
      CallsOfCalls(body[1..]);
      var calls := CallsOf(body[1..]);
      assert [] + calls == calls && ([body[0]] + calls)[1..] == calls;
    }
  }

  lemma OnlyInSame(m: Module, k: Name)
    ensures SameCalls(m, OnlyIn(m, k))
    ensures forall n :: n in m ==> (HasIo(OnlyIn(m, k)[n]) <==> n == k)
  {
    forall n | n in m ensures CallsOf(OnlyIn(m, k)[n]) == CallsOf(m[n]) && (HasIo(OnlyIn(m, k)[n]) <==> n == k) {
      CallsOfCalls(m[n]);
      if n == k {
        assert ([Io] + CallsOf(m[n]))[1..] == CallsOf(m[n]) && ([Io] + CallsOf(m[n]))[0] == Io;
      }
    }
  }

  /** The two-call scan is exact wherever the functions do their IO, if and only if the body does IO
      itself or the scan examines every function within two calls. */
  lemma ExactIffAllExamined(m: Module, body: Body)
    ensures (forall m' :: SameCalls(m, m') ==>
               (Scan(m', body, CALLEE_SCAN_DEPTH, {}).0 <==> Reaches(m', body, CALLEE_SCAN_DEPTH)))
            <==> HasIo(body) || TwoCalls(m, body) <= Examined(m, body, {})
  {
    if HasIo(body) || TwoCalls(m, body) <= Examined(m, body, {}) {
      forall m' | SameCalls(m, m')
        ensures Scan(m', body, CALLEE_SCAN_DEPTH, {}).0 <==> Reaches(m', body, CALLEE_SCAN_DEPTH)
      {
        ExaminedSame(m, m', body, {});
        TwoCallsSame(m, m', body);
        ExaminedWithin(m', body, {});
        ClassifierExact(m', body);
        ReachesTwo(m', body);
      }
    } else {
      var k :| k in TwoCalls(m, body) && k !in Examined(m, body, {});
      MissedIn(m, body, k);
    }
  }

  /** IO only in a function two calls away that is not examined is missed. */
  lemma MissedIn(m: Module, body: Body, k: Name)
    requires !HasIo(body) && k in TwoCalls(m, body) && k !in Examined(m, body, {})
    ensures SameCalls(m, OnlyIn(m, k))
    ensures Reaches(OnlyIn(m, k), body, CALLEE_SCAN_DEPTH) && !Scan(OnlyIn(m, k), body, CALLEE_SCAN_DEPTH, {}).0
  {
    var m' := OnlyIn(m, k);
    OnlyInSame(m, k);
    ExaminedSame(m, m', body, {});
    TwoCallsSame(m, m', body);
    ClassifierExact(m', body);
    ReachesTwo(m', body);
  }

  /** Not so in general: `f` calls `a` then `h`, `a` calls `h`, and only `k`, which `h` calls, does
      IO. The scan of `a` marks `h` as seen, so `h` is never followed and `k`, two calls away, is missed;
      with the two calls in the other order it is found. */
  lemma SeenHidesIo()
    ensures var m: Module := map["a" := [Call("h")], "h" := [Call("k")], "k" := [Io]];
            && Reaches(m, [Call("a"), Call("h")], 2)
            && !Scan(m, [Call("a"), Call("h")], 2, {}).0
            && Scan(m, [Call("h"), Call("a")], 2, {}).0
  {
    var m: Module := map["a" := [Call("h")], "h" := [Call("k")], "k" := [Io]];
    var body, other := [Call("a"), Call("h")], [Call("h"), Call("a")];
    assert Reaches(m, m["k"], 0);
    assert "k" in Callees(m, m["h"]) && Reaches(m, m["h"], 1);
    assert "h" in Callees(m, body);
    ClassifierExact(m, body);
    ClassifierExact(m, other);
    assert body[1..] == [Call("h")] && [Call("h")][1..] == [];
    assert Callees(m, m["a"]) == {"h"} && Callees(m, m["h"]) == {"k"};
    assert Examined(m, [Call("h")], {"a", "h"}) == Examined(m, [], {"a", "h"}) == {"a", "h"};
    assert {} + {"a"} + {"h"} == {"a", "h"};
    assert Examined(m, body, {}) == {"a", "h"};
    assert other[1..] == [Call("a")];
    ExaminedGrows(m, [Call("a")], {} + {"h"} + {"k"});
    assert "k" in Examined(m, other, {});
  }

  // ---- the scan as it runs ---------------------------------------------------------------

  /** The set the recursive calls share. */
  class SeenSet {
    var names: set<Name>

    constructor ()
      ensures names == {}
    {
      names := {};
    }
  }

  method TouchesIo(m: Module, body: Body, depth: nat, seen: SeenSet) returns (found: bool)
    modifies seen
    ensures (found, seen.names) == Scan(m, body, depth, old(seen.names))
    decreases depth, |body| + 1
  {
    found := false;
    var i := 0;
    while i < |body|
      invariant 0 <= i <= |body| && !found
      invariant Scan(m, body, depth, old(seen.names)) == Scan(m, body[i..], depth, seen.names)
    {
      assert body[i..][1..] == body[i + 1..] && body[i..][0] == body[i];
      if body[i].Io? {
        return true;
      }
      if body[i].Call? && depth > 0 {
        found := CallsIoCallee(m, body[i].callee, depth, seen);
        if found {
          return;
        }
      }
      i := i + 1;
    }
  }

  method CallsIoCallee(m: Module, callee: Name, depth: nat, seen: SeenSet) returns (found: bool)
    requires depth > 0
    modifies seen
    ensures (found, seen.names) ==
            if callee !in m || callee in old(seen.names) then (false, old(seen.names))
            else Scan(m, m[callee], depth - 1, old(seen.names) + {callee})
    decreases depth, 0
  {
    if callee !in m || callee in seen.names {
      return false;
    }
    seen.names := seen.names + {callee};
    found := TouchesIo(m, m[callee], depth - 1, seen);
  }
}
