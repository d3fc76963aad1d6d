/** The pairs of match_test_cases in src/testcases.py, read off the cases themselves: first by id, then by parameters,
    then by shape, each time among the cases that are still unpaired. */
module MatchingMeaning {
  import opened Wrappers
  import opened JsonValues
  import opened PythonValues
  import opened CaseMatching

  // ---- The three keys ----

  predicate IsMarked(c: Case) {
    c.metadata.Some? && SYNTHETIC in c.metadata.value && Truthy(c.metadata.value[SYNTHETIC])
  }

  function IdKey(c: Case): Option<Value> {
    if c.id != "" && !IsMarked(c) then Some(Text(c.id)) else None
  }

  predicate HasParams(c: Case) {
    c.metadata.Some? && "params" in c.metadata.value && c.metadata.value["params"].Object?
    && c.metadata.value["params"].fields != map[]
  }

  function ParamsKey(c: Case): Option<Value> {
    if HasParams(c) then Some(Frozen(c.metadata.value["params"])) else None
  }

  function ShapeKey(c: Case): Option<Value> {
    if Truthy(c.shape) then Some(Frozen(c.shape)) else None
  }

  // ---- Pairing by one key ----

  /** The only case left whose key is this one. */
  ghost predicate Only(key: Case -> Option<Value>, cases: seq<Case>, taken: set<nat>, i: nat) {
    && i < |cases| && i !in taken && key(cases[i]).Some?
    && forall k: nat :: k < |cases| && k !in taken && key(cases[k]) == key(cases[i]) ==> k == i
  }

  ghost predicate Partners(key: Case -> Option<Value>, base: seq<Case>, opt: seq<Case>, before: set<Pair>, p: Pair) {
    && Only(key, base, set q | q in before :: q.0, p.0) && Only(key, opt, set q | q in before :: q.1, p.1)
    && key(base[p.0]) == key(opt[p.1])
  }

  ghost function WithPartners(key: Case -> Option<Value>, base: seq<Case>, opt: seq<Case>, before: set<Pair>)
    : (s: set<Pair>)
    ensures forall p: Pair :: p in s <==> p in before || Partners(key, base, opt, before, p)
  {
    before + set i: nat, j: nat | i < |base| && j < |opt| && Partners(key, base, opt, before, (i, j)) :: (i, j)
  }

  lemma PassIsByKey(s: Strategy, key: Case -> Option<Value>, base: seq<Case>, opt: seq<Case>, before: set<Pair>)
    requires forall c :: KeyOf(s, c) == key(c)
    ensures Pass(s, base, opt, before) == WithPartners(key, base, opt, before)
  {
    hide KeyOf;
    assert Firsts(before) == (set q | q in before :: q.0);
    assert Seconds(before) == (set q | q in before :: q.1);
    forall i: nat ensures Sole(s, base, Firsts(before), i) <==> Only(key, base, set q | q in before :: q.0, i) {
    }
    forall j: nat ensures Sole(s, opt, Seconds(before), j) <==> Only(key, opt, set q | q in before :: q.1, j) {
    }
    forall p: Pair ensures p in Pass(s, base, opt, before) <==> p in WithPartners(key, base, opt, before) {
      assert p == (p.0, p.1);
    }
  }

  /** Ids decide first, then parameters, then shapes. */
  lemma IdsThenParamsThenShapes(base: seq<Case>, opt: seq<Case>)
    ensures var byId := WithPartners(IdKey, base, opt, {});
            var byParams := WithPartners(ParamsKey, base, opt, byId);
            Matching(base, opt) == WithPartners(ShapeKey, base, opt, byParams)
  {
    hide Pass, Frozen;
    PassIsByKey(ById, IdKey, base, opt, {});
    PassIsByKey(ByParams, ParamsKey, base, opt, Pass(ById, base, opt, {}));
    PassIsByKey(ByShape, ShapeKey, base, opt, Pass(ByParams, base, opt, Pass(ById, base, opt, {})));
  }

  /** Whatever is paired by position comes after that, in order: the k-th case left of one list with the k-th of the
      other. */
  lemma RestIsPairedInOrder(base: seq<Case>, opt: seq<Case>, a: seq<nat>, b: seq<nat>)
    requires var m := Matching(base, opt);
             && (forall k, l :: 0 <= k < l < |a| ==> a[k] < a[l]) && (forall k, l :: 0 <= k < l < |b| ==> b[k] < b[l])
             && (forall i: nat :: i in a <==> i < |base| && forall j: nat :: (i, j) !in m)
             && (forall j: nat :: j in b <==> j < |opt| && forall i: nat :: (i, j) !in m)
    ensures forall i: nat, j: nat :: (i, j) in Paired(base, opt, true) <==>
              (i, j) in Matching(base, opt) || exists k :: 0 <= k < |a| && k < |b| && a[k] == i && b[k] == j
  {
    hide Matching, Remaining;
    var m := Matching(base, opt);
    assert forall p: Pair :: p == (p.0, p.1);
    SameAscending(a, Remaining(|base|, Firsts(m)));
    SameAscending(b, Remaining(|opt|, Seconds(m)));
  }

  lemma {:induction false} SameAscending(a: seq<nat>, b: seq<nat>)
    requires Ascending(a) && Ascending(b) && forall i: nat :: i in a <==> i in b
    ensures a == b
  {
    if a == [] {
      assert forall k :: 0 <= k < |b| ==> b[k] in a;
    } else {
      assert a[|a| - 1] in b && b[|b| - 1] in a;
      var x, y := a[|a| - 1], b[|b| - 1];
      assert forall k :: 0 <= k < |a| ==> a[k] <= x;
      assert forall k :: 0 <= k < |b| ==> b[k] <= y;
      assert x == y;
      var a', b' := a[..|a| - 1], b[..|b| - 1];
      forall i: nat ensures i in a' <==> i in b' {
        assert i in a <==> i in a' || i == x;
        assert i in b <==> i in b' || i == y;
        assert x !in a' && y !in b';
      }
      SameAscending(a', b');
      assert a == a' + [x] && b == b' + [y];
    }
  }
}
