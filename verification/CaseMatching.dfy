/** Pairing baseline and optimized cases: match_test_cases of src/testcases.py. An object in one of the two lists
    is named by its position there. */
module CaseMatching {
  import opened Wrappers
  import opened JsonValues
  import opened PythonValues

  /** A finite time, or one of nan and the infinities. */
  datatype Time = Finite(ms: real) | NotFinite

  datatype Case = Case(id: string, shape: Value, time: Time, metadata: Option<map<string, Value>>)

  const SYNTHETIC := "_synthetic_test_case_id"

  function Meta(c: Case): map<string, Value> {
    if c.metadata.Some? then c.metadata.value else map[]
  }

  function Get(c: Case, key: string): Value {
    if key in Meta(c) then Meta(c)[key] else Null
  }

  datatype Strategy = ById | ByParams | ByShape

  function KeyOf(s: Strategy, c: Case): Option<Value> {
    match s
    case ById => if c.id == "" || Truthy(Get(c, SYNTHETIC)) then None else Some(Text(c.id))
    case ByParams =>
      var params := Get(c, "params");
      if params.Object? && Truthy(params) then Some(Frozen(params)) else None
    case ByShape => if Truthy(c.shape) then Some(Frozen(c.shape)) else None
  }

  // ---- The three passes, as sets ----

  type Pair = (nat, nat)

  ghost predicate Unpaired(side: set<nat>, n: nat, i: nat) {
    i < n && i !in side
  }

  function Firsts(pairs: set<Pair>): (side: set<nat>)
    ensures forall i: nat :: i in side <==> exists p :: p in pairs && p.0 == i
  {
    set p | p in pairs :: p.0
  }

  function Seconds(pairs: set<Pair>): (side: set<nat>)
    ensures forall i: nat :: i in side <==> exists p :: p in pairs && p.1 == i
  {
    set p | p in pairs :: p.1
  }

  /** The case at i has a key, and no other case still unpaired on its side has that key. */
  ghost predicate Sole(s: Strategy, cases: seq<Case>, side: set<nat>, i: nat) {
    && Unpaired(side, |cases|, i) && KeyOf(s, cases[i]).Some?
    && forall j: nat :: Unpaired(side, |cases|, j) && KeyOf(s, cases[j]) == KeyOf(s, cases[i]) ==> j == i
  }

  ghost predicate PassPairs(s: Strategy, base: seq<Case>, opt: seq<Case>, before: set<Pair>, i: nat, j: nat) {
    && Sole(s, base, Firsts(before), i) && Sole(s, opt, Seconds(before), j)
    && KeyOf(s, base[i]) == KeyOf(s, opt[j])
  }

  ghost function Pass(s: Strategy, base: seq<Case>, opt: seq<Case>, before: set<Pair>): (after: set<Pair>)
    ensures forall i: nat, j: nat :: (i, j) in after <==> (i, j) in before || PassPairs(s, base, opt, before, i, j)
  {
    before + set i: nat, j: nat | i < |base| && j < |opt| && PassPairs(s, base, opt, before, i, j) :: (i, j)
  }

  ghost function Matching(base: seq<Case>, opt: seq<Case>): set<Pair> {
    Pass(ByShape, base, opt, Pass(ByParams, base, opt, Pass(ById, base, opt, {})))
  }

  ghost predicate PartialInjection(pairs: set<Pair>, m: nat, n: nat) {
    && (forall i: nat, j: nat :: (i, j) in pairs ==> i < m && j < n)
    && (forall i: nat, j: nat, k: nat, l: nat :: (i, j) in pairs && (k, l) in pairs ==> (i == k <==> j == l))
  }

  lemma PassIsInjective(s: Strategy, base: seq<Case>, opt: seq<Case>, before: set<Pair>)
    requires PartialInjection(before, |base|, |opt|)
    ensures PartialInjection(Pass(s, base, opt, before), |base|, |opt|)
  {
  }

  /** No case is paired twice, on either side. */
  lemma MatchingIsInjective(base: seq<Case>, opt: seq<Case>)
    ensures PartialInjection(Matching(base, opt), |base|, |opt|)
  {
  }

  // ---- Order independence ----

  /** to moves every position of a list of n, and from moves it back. */
  ghost predicate Inverse(to: seq<nat>, from: seq<nat>, n: nat) {
    && |to| == |from| == n
    && (forall i :: 0 <= i < n ==> to[i] < n && from[to[i]] == i)
    && (forall i :: 0 <= i < n ==> from[i] < n && to[from[i]] == i)
  }

  ghost predicate Rearranged<T>(s: seq<T>, t: seq<T>, to: seq<nat>, from: seq<nat>) {
    |s| == |t| && Inverse(to, from, |s|) && forall i :: 0 <= i < |s| ==> t[to[i]] == s[i]
  }

  /** The same cases are paired, wherever they now stand. */
  ghost predicate Moved(a: set<Pair>, b: set<Pair>, p: seq<nat>, q: seq<nat>) {
    && PartialInjection(a, |p|, |q|) && PartialInjection(b, |p|, |q|)
    && forall i: nat, j: nat :: 0 <= i < |p| && 0 <= j < |q| ==> ((i, j) in a <==> (p[i], q[j]) in b)
  }

  ghost predicate SideMoved(a: set<nat>, b: set<nat>, to: seq<nat>) {
    forall i :: 0 <= i < |to| ==> (i in a <==> to[i] in b)
  }

  lemma SidesMove(a: set<Pair>, b: set<Pair>, p: seq<nat>, p': seq<nat>, q: seq<nat>, q': seq<nat>)
    requires Inverse(p, p', |p|) && Inverse(q, q', |q|) && Moved(a, b, p, q)
    ensures SideMoved(Firsts(a), Firsts(b), p) && SideMoved(Seconds(a), Seconds(b), q)
  {
    forall i | 0 <= i < |p| ensures i in Firsts(a) <==> p[i] in Firsts(b) {
      if i in Firsts(a) {
        var x :| x in a && x.0 == i;
        assert (x.0, x.1) in a && (p[i], q[x.1]) in b;
      }
      if p[i] in Firsts(b) {
        var y :| y in b && y.0 == p[i];
        assert (y.0, y.1) in b && q[q'[y.1]] == y.1;
        assert (i, q'[y.1]) in a;
      }
    }
    forall j | 0 <= j < |q| ensures j in Seconds(a) <==> q[j] in Seconds(b) {
      if j in Seconds(a) {
        var x :| x in a && x.1 == j;
        assert (x.0, x.1) in a && (p[x.0], q[j]) in b;
      }
      if q[j] in Seconds(b) {
        var y :| y in b && y.1 == q[j];
        assert (y.0, y.1) in b && p[p'[y.0]] == y.0;
        assert (p'[y.0], j) in a;
      }
    }
  }

  lemma SoleMoves(s: Strategy, cases: seq<Case>, cases': seq<Case>, to: seq<nat>, from: seq<nat>, a: set<nat>,
                  b: set<nat>, i: nat)
    requires Rearranged(cases, cases', to, from) && SideMoved(a, b, to) && i < |cases|
    ensures Sole(s, cases, a, i) <==> Sole(s, cases', b, to[i])
  {
    hide KeyOf;
    assert forall j: nat :: Unpaired(a, |cases|, j) ==> Unpaired(b, |cases|, to[j]) && from[to[j]] == j;
    forall j: nat | Unpaired(b, |cases|, j) ensures Unpaired(a, |cases|, from[j]) && to[from[j]] == j {
    }
  }

  lemma PassMoves(s: Strategy, base: seq<Case>, base': seq<Case>, opt: seq<Case>, opt': seq<Case>, p: seq<nat>,
                  p': seq<nat>, q: seq<nat>, q': seq<nat>, a: set<Pair>, b: set<Pair>)
    requires Rearranged(base, base', p, p') && Rearranged(opt, opt', q, q') && Moved(a, b, p, q)
    ensures Moved(Pass(s, base, opt, a), Pass(s, base', opt', b), p, q)
  {
    hide KeyOf, Sole;
    PassIsInjective(s, base, opt, a);
    PassIsInjective(s, base', opt', b);
    SidesMove(a, b, p, p', q, q');
    forall i: nat, j: nat | 0 <= i < |p| && 0 <= j < |q|
      ensures (i, j) in Pass(s, base, opt, a) <==> (p[i], q[j]) in Pass(s, base', opt', b)
    {
      SoleMoves(s, base, base', p, p', Firsts(a), Firsts(b), i);
      SoleMoves(s, opt, opt', q, q', Seconds(a), Seconds(b), j);
      assert PassPairs(s, base, opt, a, i, j) <==> PassPairs(s, base', opt', b, p[i], q[j]);
    }
  }

  /** The order of neither list matters: rearranged lists pair exactly the same cases. */
  lemma MatchingIgnoresOrder(base: seq<Case>, base': seq<Case>, opt: seq<Case>, opt': seq<Case>, p: seq<nat>,
                             p': seq<nat>, q: seq<nat>, q': seq<nat>)
    requires Rearranged(base, base', p, p') && Rearranged(opt, opt', q, q')
    ensures Moved(Matching(base, opt), Matching(base', opt'), p, q)
  {
    hide KeyOf, Pass;
    PassMoves(ById, base, base', opt, opt', p, p', q, q', {}, {});
    var a, b := Pass(ById, base, opt, {}), Pass(ById, base', opt', {});
    PassMoves(ByParams, base, base', opt, opt', p, p', q, q', a, b);
    var c, d := Pass(ByParams, base, opt, a), Pass(ByParams, base', opt', b);
    PassMoves(ByShape, base, base', opt, opt', p, p', q, q', c, d);
  }

  // ---- Swapping the lists ----

  ghost predicate Transposed(a: set<Pair>, b: set<Pair>) {
    forall i: nat, j: nat :: (i, j) in a <==> (j, i) in b
  }

  lemma PassTransposes(s: Strategy, base: seq<Case>, opt: seq<Case>, a: set<Pair>, b: set<Pair>)
    requires Transposed(a, b)
    ensures Transposed(Pass(s, base, opt, a), Pass(s, opt, base, b))
  {
    hide KeyOf;
    forall i: nat ensures i in Firsts(a) <==> i in Seconds(b) {
      assert forall p :: p in a <==> (p.1, p.0) in b;
      assert forall p :: p in b <==> (p.1, p.0) in a;
    }
    forall i: nat ensures i in Seconds(a) <==> i in Firsts(b) {
      assert forall p :: p in a <==> (p.1, p.0) in b;
      assert forall p :: p in b <==> (p.1, p.0) in a;
    }
    assert Firsts(a) == Seconds(b) && Seconds(a) == Firsts(b);
    forall i: nat, j: nat ensures (i, j) in Pass(s, base, opt, a) <==> (j, i) in Pass(s, opt, base, b) {
      assert PassPairs(s, base, opt, a, i, j) <==> PassPairs(s, opt, base, b, j, i);
    }
  }

  /** Neither side is favoured: swapping the lists transposes the pairs. */
  lemma MatchingTransposes(base: seq<Case>, opt: seq<Case>)
    ensures Transposed(Matching(base, opt), Matching(opt, base))
  {
    hide KeyOf, Pass;
    PassTransposes(ById, base, opt, {}, {});
    var a, b := Pass(ById, base, opt, {}), Pass(ById, opt, base, {});
    PassTransposes(ByParams, base, opt, a, b);
    PassTransposes(ByShape, base, opt, Pass(ByParams, base, opt, a), Pass(ByParams, opt, base, b));
  }

  // ---- Positions still unpaired, in order ----

  predicate Ascending(s: seq<nat>) {
    forall i, j :: 0 <= i < j < |s| ==> s[i] < s[j]
  }

  function Remaining(n: nat, used: set<nat>): (r: seq<nat>)
    ensures Ascending(r) && Below(r, n)
    ensures forall i: nat :: i in r <==> i < n && i !in used
  {
    if n == 0 then []
    else if n - 1 in used then Remaining(n - 1, used)
    else Remaining(n - 1, used) + [n - 1]
  }

  predicate Below(s: seq<nat>, n: nat) {
    forall k :: 0 <= k < |s| ==> s[k] < n
  }

  /** Those of the positions whose case has this key. */
  function Carriers(s: Strategy, cases: seq<Case>, left: seq<nat>, key: Value): seq<nat>
    requires Below(left, |cases|)
  {
    if left == [] then []
    else
      var n := |left| - 1;
      Carriers(s, cases, left[..n], key) + if KeyOf(s, cases[left[n]]) == Some(key) then [left[n]] else []
  }

  lemma {:induction false} CarriersMeaning(s: Strategy, cases: seq<Case>, left: seq<nat>, key: Value)
    requires Below(left, |cases|)
    ensures forall i: nat :: i in Carriers(s, cases, left, key) <==> i in left && KeyOf(s, cases[i]) == Some(key)
  {
    hide KeyOf;
    if left != [] {
      var n := |left| - 1;
      assert left == left[..n] + [left[n]];
      CarriersMeaning(s, cases, left[..n], key);
    }
  }

  lemma {:induction false} CarriersAscend(s: Strategy, cases: seq<Case>, left: seq<nat>, key: Value, bound: nat)
    requires Below(left, |cases|) && Below(left, bound) && Ascending(left)
    ensures Below(Carriers(s, cases, left, key), bound) && Ascending(Carriers(s, cases, left, key))
  {
    hide KeyOf;
    if left != [] {
      var n := |left| - 1;
      CarriersAscend(s, cases, left[..n], key, left[n]);
    }
  }

  ghost predicate Grouped(s: Strategy, cases: seq<Case>, left: seq<nat>, groups: map<Value, seq<nat>>)
    requires Below(left, |cases|)
  {
    forall key :: GroupAt(groups, key) == Carriers(s, cases, left, key)
  }

  function GroupAt(groups: map<Value, seq<nat>>, key: Value): seq<nat> {
    if key in groups then groups[key] else []
  }

  lemma GroupedSnoc(s: Strategy, cases: seq<Case>, left: seq<nat>, groups: map<Value, seq<nat>>, n: nat)
    requires Below(left, |cases|) && n < |left| && Grouped(s, cases, left[..n], groups)
    ensures var key := KeyOf(s, cases[left[n]]);
            Grouped(s, cases, left[..n + 1],
                    if key.None? then groups else groups[key.value := GroupAt(groups, key.value) + [left[n]]])
  {
    hide KeyOf;
    assert left[..n + 1][..n] == left[..n];
    var key := KeyOf(s, cases[left[n]]);
    var after := if key.None? then groups else groups[key.value := GroupAt(groups, key.value) + [left[n]]];
    forall k ensures GroupAt(after, k) == Carriers(s, cases, left[..n + 1], k) {
      assert GroupAt(groups, k) == Carriers(s, cases, left[..n], k);
    }
  }

  /** The dictionary from keys to the cases that have them. */
  method GroupByKey(s: Strategy, cases: seq<Case>, left: seq<nat>) returns (groups: map<Value, seq<nat>>)
    requires Below(left, |cases|)
    ensures Grouped(s, cases, left, groups)
  {
    groups := map[];
    assert Grouped(s, cases, left[..0], groups);
    hide KeyOf, Grouped;
    var n := 0;
    while n < |left|
      invariant 0 <= n <= |left|
      invariant Grouped(s, cases, left[..n], groups)
    {
      GroupedSnoc(s, cases, left, groups, n);
      var key := KeyOf(s, cases[left[n]]);
      if key.Some? {
        groups := groups[key.value := GroupAt(groups, key.value) + [left[n]]];
      }
      n := n + 1;
    }
    assert left[..n] == left;
  }

  /** A group of one is a sole case, and a sole case is a group of one. */
  lemma GroupOfOne(s: Strategy, cases: seq<Case>, side: set<nat>, key: Value)
    ensures var c := Carriers(s, cases, Remaining(|cases|, side), key);
            |c| == 1 ==> c[0] < |cases| && Sole(s, cases, side, c[0]) && KeyOf(s, cases[c[0]]) == Some(key)
  {
    hide KeyOf, Carriers;
    var left := Remaining(|cases|, side);
    var c := Carriers(s, cases, left, key);
    CarriersMeaning(s, cases, left, key);
    if |c| == 1 {
      assert c[0] in c;
      assert forall j: nat :: Unpaired(side, |cases|, j) && KeyOf(s, cases[j]) == Some(key) ==> j in c;
    }
  }

  lemma SoleIsAlone(s: Strategy, cases: seq<Case>, side: set<nat>, i: nat)
    requires Sole(s, cases, side, i)
    ensures Carriers(s, cases, Remaining(|cases|, side), KeyOf(s, cases[i]).value) == [i]
  {
    hide KeyOf, Carriers;
    var left, key := Remaining(|cases|, side), KeyOf(s, cases[i]).value;
    var c := Carriers(s, cases, left, key);
    CarriersMeaning(s, cases, left, key);
    CarriersAscend(s, cases, left, key, |cases|);
    assert i in left && i in c;
    assert |c| > 1 ==> c[0] < c[1];
    forall k | 0 <= k < |c| ensures c[k] == i {
      assert c[k] in c;
      assert Unpaired(side, |cases|, c[k]);
    }
  }

  // ---- match_test_cases ----

  ghost function Elements(matched: seq<Pair>): set<Pair> {
    set p | p in matched
  }

  predicate Unrepeated<T(==)>(s: seq<T>) {
    forall i, j :: 0 <= i < j < |s| ==> s[i] != s[j]
  }

  /** The list of pairs and the two sets of paired positions tell the same story. */
  ghost predicate Recorded(matched: seq<Pair>, usedBase: set<nat>, usedOpt: set<nat>) {
    && Unrepeated(matched)
    && usedBase == Firsts(Elements(matched)) && usedOpt == Seconds(Elements(matched))
  }

  lemma RecordedSnoc(matched: seq<Pair>, usedBase: set<nat>, usedOpt: set<nat>, i: nat, j: nat)
    requires Recorded(matched, usedBase, usedOpt) && i !in usedBase
    ensures Recorded(matched + [(i, j)], usedBase + {i}, usedOpt + {j})
    ensures Elements(matched + [(i, j)]) == Elements(matched) + {(i, j)}
  {
  }

  lemma UsedSnoc(pairs: set<Pair>, i: nat, j: nat)
    ensures Firsts(pairs + {(i, j)}) == Firsts(pairs) + {i} && Seconds(pairs + {(i, j)}) == Seconds(pairs) + {j}
  {
  }

  /** The lengths of the two groups decide whether a case is paired, and with what. */
  lemma GroupsDecide(s: Strategy, base: seq<Case>, opt: seq<Case>, before: set<Pair>, i: nat, j: nat)
    requires Unpaired(Firsts(before), |base|, i)
    ensures PassPairs(s, base, opt, before, i, j) <==>
              var key := KeyOf(s, base[i]);
              && key.Some?
              && |Carriers(s, base, Remaining(|base|, Firsts(before)), key.value)| == 1
              && Carriers(s, opt, Remaining(|opt|, Seconds(before)), key.value) == [j]
  {
    hide KeyOf, Carriers, Sole, Pass;
    var key := KeyOf(s, base[i]);
    if key.Some? {
      var left := Remaining(|base|, Firsts(before));
      CarriersMeaning(s, base, left, key.value);
      assert i in left && i in Carriers(s, base, left, key.value);
      GroupOfOne(s, base, Firsts(before), key.value);
      GroupOfOne(s, opt, Seconds(before), key.value);
      if PassPairs(s, base, opt, before, i, j) {
        SoleIsAlone(s, base, Firsts(before), i);
        SoleHasPlace(s, opt, Seconds(before), j);
        SoleIsAlone(s, opt, Seconds(before), j);
      }
    } else if PassPairs(s, base, opt, before, i, j) {
      SoleHasPlace(s, base, Firsts(before), i);
    }
  }

  lemma SoleHasPlace(s: Strategy, cases: seq<Case>, side: set<nat>, i: nat)
    requires Sole(s, cases, side, i)
    ensures i < |cases| && i !in side && KeyOf(s, cases[i]).Some?
  {
  }

  /** How far one pass has come. */
  ghost predicate PassedBy(s: Strategy, base: seq<Case>, opt: seq<Case>, before: set<Pair>, done: seq<nat>,
                           now: set<Pair>)
  {
    forall i: nat, j: nat :: (i, j) in now <==> (i, j) in before || (i in done && PassPairs(s, base, opt, before, i, j))
  }

  lemma PassedSnoc(s: Strategy, base: seq<Case>, opt: seq<Case>, before: set<Pair>, done: seq<nat>, now: set<Pair>,
                   i: nat, found: Option<nat>)
    requires PassedBy(s, base, opt, before, done, now) && i !in done && i !in Firsts(before)
    requires forall j: nat :: PassPairs(s, base, opt, before, i, j) <==> found == Some(j)
    ensures PassedBy(s, base, opt, before, done + [i], if found.Some? then now + {(i, found.value)} else now)
    ensures i !in Firsts(now)
  {
  }

  lemma PassedAll(s: Strategy, base: seq<Case>, opt: seq<Case>, before: set<Pair>, now: set<Pair>)
    requires PassedBy(s, base, opt, before, Remaining(|base|, Firsts(before)), now)
    ensures now == Pass(s, base, opt, before)
  {
    hide KeyOf;
    forall p: Pair ensures p in now <==> p in Pass(s, base, opt, before) {
      assert p == (p.0, p.1);
    }
  }

  lemma RecordedSides(matched: seq<Pair>, usedBase: set<nat>, usedOpt: set<nat>)
    requires Recorded(matched, usedBase, usedOpt)
    ensures usedBase == Firsts(Elements(matched)) && usedOpt == Seconds(Elements(matched))
  {
  }

  /** One pass over the cases that are still unpaired. */
  method MatchByUniqueKey(s: Strategy, base: seq<Case>, opt: seq<Case>, matched: seq<Pair>, usedBase: set<nat>,
                          usedOpt: set<nat>)
    returns (matched': seq<Pair>, usedBase': set<nat>, usedOpt': set<nat>)
    requires Recorded(matched, usedBase, usedOpt)
    ensures Recorded(matched', usedBase', usedOpt')
    ensures Elements(matched') == Pass(s, base, opt, Elements(matched))
  {
    hide KeyOf, Carriers, PassPairs, Pass, Elements, Recorded;
    RecordedSides(matched, usedBase, usedOpt);
    var remainingBase, remainingOpt := Remaining(|base|, usedBase), Remaining(|opt|, usedOpt);
    var baseByKey := GroupByKey(s, base, remainingBase);
    var optByKey := GroupByKey(s, opt, remainingOpt);
    matched', usedBase', usedOpt' := matched, usedBase, usedOpt;
    var n := 0;
    while n < |remainingBase|
      invariant 0 <= n <= |remainingBase|
      invariant Recorded(matched', usedBase', usedOpt')
      invariant PassedBy(s, base, opt, Elements(matched), remainingBase[..n], Elements(matched'))
    {
      var i := remainingBase[n];
      ghost var found: Option<nat> := None;
      ghost var now := Elements(matched');
      assert i in remainingBase;
      assert i !in remainingBase[..n] by { assert forall k :: 0 <= k < n ==> remainingBase[k] < i; }
      forall j: nat ensures PassPairs(s, base, opt, Elements(matched), i, j) <==>
                         var key := KeyOf(s, base[i]);
                         && key.Some? && |GroupAt(baseByKey, key.value)| == 1 && GroupAt(optByKey, key.value) == [j]
      {
        GroupsDecide(s, base, opt, Elements(matched), i, j);
      }
      var key := KeyOf(s, base[i]);
      if key.Some? && |GroupAt(baseByKey, key.value)| == 1 && |GroupAt(optByKey, key.value)| == 1 {
        var j := GroupAt(optByKey, key.value)[0];
        found := Some(j);
        RecordedSides(matched', usedBase', usedOpt');
        PassedSnoc(s, base, opt, Elements(matched), remainingBase[..n], now, i, found);
        RecordedSnoc(matched', usedBase', usedOpt', i, j);
        matched', usedBase', usedOpt' := matched' + [(i, j)], usedBase' + {i}, usedOpt' + {j};
      } else {
        PassedSnoc(s, base, opt, Elements(matched), remainingBase[..n], now, i, found);
      }
      assert remainingBase[..n + 1] == remainingBase[..n] + [i];
      n := n + 1;
    }
    assert remainingBase[..n] == remainingBase;
    PassedAll(s, base, opt, Elements(matched), Elements(matched'));
  }

  // ---- The fallback by position ----

  ghost function Zipped(a: seq<nat>, b: seq<nat>): set<Pair> {
    set k | 0 <= k < |a| && k < |b| :: (a[k], b[k])
  }

  /** All the pairs: the three passes and, when allowed, what is left on both sides in order. */
  ghost function Paired(base: seq<Case>, opt: seq<Case>, fallback: bool): set<Pair> {
    var m := Matching(base, opt);
    if fallback then m + Zipped(Remaining(|base|, Firsts(m)), Remaining(|opt|, Seconds(m))) else m
  }

  lemma ZippedPairs(a: seq<nat>, b: seq<nat>)
    requires Ascending(a) && Ascending(b)
    ensures forall i: nat, j: nat :: (i, j) in Zipped(a, b) ==> i in a && j in b
    ensures forall i: nat, j: nat, k: nat, l: nat :: (i, j) in Zipped(a, b) && (k, l) in Zipped(a, b) ==>
              (i == k <==> j == l)
  {
  }

  lemma ZippedIsInjective(pairs: set<Pair>, m: nat, n: nat)
    requires PartialInjection(pairs, m, n)
    ensures PartialInjection(pairs + Zipped(Remaining(m, Firsts(pairs)), Remaining(n, Seconds(pairs))), m, n)
  {
    hide Zipped, Remaining, Ascending, Below;
    var rest := Zipped(Remaining(m, Firsts(pairs)), Remaining(n, Seconds(pairs)));
    ZippedPairs(Remaining(m, Firsts(pairs)), Remaining(n, Seconds(pairs)));
    forall i: nat, j: nat, k: nat, l: nat | (i, j) in pairs && (k, l) in rest ensures i != k && j != l {
      assert k !in Firsts(pairs) && l !in Seconds(pairs);
    }
  }

  lemma PairedIsInjective(base: seq<Case>, opt: seq<Case>, fallback: bool)
    ensures PartialInjection(Paired(base, opt, fallback), |base|, |opt|)
  {
    hide Matching, PartialInjection, Zipped;
    MatchingIsInjective(base, opt);
    ZippedIsInjective(Matching(base, opt), |base|, |opt|);
  }

  /** One case on each side: they are paired, with or without a key. */
  lemma SingleCasesPair(base: seq<Case>, opt: seq<Case>)
    requires |base| == |opt| == 1
    ensures Paired(base, opt, true) == {(0, 0)}
  {
  }

  method MatchTestCases(base: seq<Case>, opt: seq<Case>, fallback: bool) returns (matched: seq<Pair>)
    ensures Unrepeated(matched) && Elements(matched) == Paired(base, opt, fallback)
  {
    hide Pass, Recorded, Elements, Zipped, Remaining, Unrepeated, Ascending, Below, Firsts, Seconds;
    matched := [];
    var usedBase: set<nat>, usedOpt: set<nat> := {}, {};
    NothingRecorded();
    matched, usedBase, usedOpt := MatchByUniqueKey(ById, base, opt, matched, usedBase, usedOpt);
    matched, usedBase, usedOpt := MatchByUniqueKey(ByParams, base, opt, matched, usedBase, usedOpt);
    matched, usedBase, usedOpt := MatchByUniqueKey(ByShape, base, opt, matched, usedBase, usedOpt);
    RecordedSides(matched, usedBase, usedOpt);
    RecordedUnrepeated(matched, usedBase, usedOpt);
    if fallback {
      matched := MatchRest(matched, usedBase, usedOpt, Remaining(|base|, usedBase), Remaining(|opt|, usedOpt));
    }
  }

  /** The cases left on both sides, paired in order. */
  method MatchRest(matched: seq<Pair>, usedBase: set<nat>, usedOpt: set<nat>, restBase: seq<nat>, restOpt: seq<nat>)
    returns (matched': seq<Pair>)
    requires Recorded(matched, usedBase, usedOpt)
    requires Ascending(restBase) && forall i: nat :: i in restBase ==> i !in usedBase
    ensures Unrepeated(matched') && Elements(matched') == Elements(matched) + Zipped(restBase, restOpt)
  {
    hide Elements, Recorded, Zipped;
    matched' := matched;
    var usedBase', usedOpt' := usedBase, usedOpt;
    ZippedEnds(restBase, restOpt);
    assert forall x :: 0 <= x < |restBase| ==> restBase[x] in restBase;
    var k := 0;
    while k < |restBase| && k < |restOpt|
      invariant 0 <= k <= |restBase| && k <= |restOpt|
      invariant Recorded(matched', usedBase', usedOpt')
      invariant Elements(matched') == Elements(matched) + Zipped(restBase[..k], restOpt[..k])
      invariant forall x :: k <= x < |restBase| ==> restBase[x] !in usedBase'
    {
      ZippedSnoc(restBase, restOpt, k);
      RecordedSnoc(matched', usedBase', usedOpt', restBase[k], restOpt[k]);
      matched' := matched' + [(restBase[k], restOpt[k])];
      usedBase', usedOpt' := usedBase' + {restBase[k]}, usedOpt' + {restOpt[k]};
      k := k + 1;
    }
    RecordedUnrepeated(matched', usedBase', usedOpt');
  }

  lemma ZippedEnds(a: seq<nat>, b: seq<nat>)
    ensures Zipped(a[..0], b[..0]) == {}
    ensures var k := if |a| < |b| then |a| else |b|; Zipped(a[..k], b[..k]) == Zipped(a, b)
  {
  }

  lemma NothingRecorded()
    ensures Recorded([], {}, {}) && Elements([]) == {}
  {
  }

  lemma RecordedUnrepeated(matched: seq<Pair>, usedBase: set<nat>, usedOpt: set<nat>)
    requires Recorded(matched, usedBase, usedOpt)
    ensures Unrepeated(matched)
  {
  }

  lemma ZippedSnoc(a: seq<nat>, b: seq<nat>, k: nat)
    requires k < |a| && k < |b|
    ensures Zipped(a[..k + 1], b[..k + 1]) == Zipped(a[..k], b[..k]) + {(a[k], b[k])}
  {
  }
}
