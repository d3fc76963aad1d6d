/** Comparing paired cases and averaging their speedups: src/testcases.py. Times are reals; rounding is left out. */
module Speedup {
  import opened Wrappers
  import opened JsonValues
  import opened PythonValues
  import opened TaskProtocol
  import opened CaseMatching

  // ---- Workloads ----

  /** In the order in which their names sort. */
  datatype Field = Dtype | Params | Shape

  function Reported(c: Case, f: Field): Option<Value> {
    match f
    case Dtype => if "dtype" in Meta(c) then Some(Meta(c)["dtype"]) else None
    case Params => if "params" in Meta(c) then Some(Meta(c)["params"]) else None
    case Shape => if c.shape.Null? then None else Some(c.shape)
  }

  predicate Changed(b: Case, o: Case, f: Field) {
    match (Reported(b, f), Reported(o, f))
    case (None, None) => false
    case (Some(u), Some(v)) => !Equal(u, v)
    case _ => true
  }

  ghost predicate SameWorkload(b: Case, o: Case) {
    forall f :: !Changed(b, o, f)
  }

  datatype WorkloadMismatch = WorkloadMismatch(base: string, opt: string, fields: seq<Field>)

  function ChangedFields(b: Case, o: Case): (fields: seq<Field>)
    ensures forall f :: f in fields <==> Changed(b, o, f)
  {
    (if Changed(b, o, Dtype) then [Dtype] else []) + (if Changed(b, o, Params) then [Params] else [])
    + (if Changed(b, o, Shape) then [Shape] else [])
  }

  predicate InRange(matched: seq<Pair>, m: nat, n: nat) {
    forall k :: 0 <= k < |matched| ==> matched[k].0 < m && matched[k].1 < n
  }

  /** The changed pairs in order, each with exactly the fields that changed. */
  method WorkloadMismatches(base: seq<Case>, opt: seq<Case>, matched: seq<Pair>) returns (m: seq<WorkloadMismatch>)
    requires InRange(matched, |base|, |opt|)
    ensures m == [] <==> forall p :: p in matched ==> SameWorkload(base[p.0], opt[p.1])
    ensures forall x :: x in m <==>
              exists p :: p in matched && !SameWorkload(base[p.0], opt[p.1])
                          && x == WorkloadMismatch(base[p.0].id, opt[p.1].id, ChangedFields(base[p.0], opt[p.1]))
  {
    m := [];
    var n := 0;
    while n < |matched|
      invariant 0 <= n <= |matched|
      invariant m == [] <==> forall p :: p in matched[..n] ==> SameWorkload(base[p.0], opt[p.1])
      invariant forall x :: x in m <==>
                  exists p :: p in matched[..n] && !SameWorkload(base[p.0], opt[p.1])
                              && x == WorkloadMismatch(base[p.0].id, opt[p.1].id, ChangedFields(base[p.0], opt[p.1]))
    {
      var b, o := base[matched[n].0], opt[matched[n].1];
      var fields := ChangedFields(b, o);
      assert matched[..n + 1] == matched[..n] + [matched[n]];
      if fields != [] {
        assert fields[0] in fields;
        m := m + [WorkloadMismatch(b.id, o.id, fields)];
      }
      n := n + 1;
    }
    assert matched[..n] == matched;
  }

  // ---- Timing methods ----

  function MethodOf(c: Case): Value {
    Get(c, "benchmark_method")
  }

  predicate Flagged(c: Case) {
    Get(c, "benchmark_method_consistent") == Bool(false)
  }

  predicate Known(v: Value) {
    v.Text? && v.s in TIMING_METHODS
  }

  predicate Mixed(v: Value) {
    v.Text? && "mixed:" <= v.s
  }

  /** Both sides were timed by the same known method, and neither says its own methods disagreed. */
  predicate SameMethod(b: Case, o: Case) {
    Known(MethodOf(b)) && MethodOf(b) == MethodOf(o) && !Flagged(b) && !Flagged(o)
  }

  datatype Reason = TaskReported | MixedAggregate | MissingOrUnknown | Unequal

  datatype MethodMismatch = MethodMismatch(base: string, opt: string, baseMethod: Value, optMethod: Value,
                                           reason: Reason)

  function Why(b: Case, o: Case): Reason {
    if Flagged(b) || Flagged(o) then TaskReported
    else if Mixed(MethodOf(b)) || Mixed(MethodOf(o)) then MixedAggregate
    else if !Known(MethodOf(b)) || !Known(MethodOf(o)) then MissingOrUnknown
    else Unequal
  }

  function DescribeMethods(b: Case, o: Case): MethodMismatch {
    MethodMismatch(b.id, o.id, MethodOf(b), MethodOf(o), Why(b, o))
  }

  method BenchmarkMethodMismatches(base: seq<Case>, opt: seq<Case>, matched: seq<Pair>)
    returns (m: seq<MethodMismatch>)
    requires InRange(matched, |base|, |opt|)
    ensures m == [] <==> forall p :: p in matched ==> SameMethod(base[p.0], opt[p.1])
    ensures forall x :: x in m <==>
              exists p :: p in matched && !SameMethod(base[p.0], opt[p.1])
                          && x == DescribeMethods(base[p.0], opt[p.1])
  {
    hide Get;
    m := [];
    var n := 0;
    while n < |matched|
      invariant 0 <= n <= |matched|
      invariant m == [] <==> forall p :: p in matched[..n] ==> SameMethod(base[p.0], opt[p.1])
      invariant forall x :: x in m <==>
                  exists p :: p in matched[..n] && !SameMethod(base[p.0], opt[p.1])
                              && x == DescribeMethods(base[p.0], opt[p.1])
    {
      var b, o := base[matched[n].0], opt[matched[n].1];
      var flagged := Flagged(b) || Flagged(o);
      var mixed := Mixed(MethodOf(b)) || Mixed(MethodOf(o));
      var unknown := !Known(MethodOf(b)) || !Known(MethodOf(o));
      KnownMethods(MethodOf(b), MethodOf(o));
      assert matched[..n + 1] == matched[..n] + [matched[n]];
      if !(Equal(MethodOf(b), MethodOf(o)) && !mixed && !unknown && !flagged) {
        var reason := if flagged then TaskReported else if mixed then MixedAggregate
                      else if unknown then MissingOrUnknown else Unequal;
        m := m + [MethodMismatch(b.id, o.id, MethodOf(b), MethodOf(o), reason)];
      }
      n := n + 1;
    }
    assert matched[..n] == matched;
  }

  /** A known method is no aggregate, and equal texts are the same text. */
  lemma KnownMethods(u: Value, v: Value)
    ensures Known(u) ==> !Mixed(u)
    ensures Known(u) && Known(v) ==> (Equal(u, v) <==> u == v)
  {
    assert Mixed(u) ==> u.s[0] == 'm';
  }

  // ---- Sums over sets of pairs ----

  predicate Valid(t: Time) {
    t.Finite? && t.ms > 0.0
  }

  predicate Timed(base: seq<Case>, opt: seq<Case>, p: Pair) {
    p.0 < |base| && p.1 < |opt| && Valid(base[p.0].time) && Valid(opt[p.1].time)
  }

  function Ratio(base: seq<Case>, opt: seq<Case>, p: Pair): (r: real)
    requires Timed(base, opt, p)
    ensures r > 0.0
  {
    base[p.0].time.ms / opt[p.1].time.ms
  }

  ghost predicate AllTimed(base: seq<Case>, opt: seq<Case>, pairs: set<Pair>) {
    forall p :: p in pairs ==> Timed(base, opt, p)
  }

  ghost function Total(base: seq<Case>, opt: seq<Case>, pairs: set<Pair>): real
    requires AllTimed(base, opt, pairs)
  {
    if pairs == {} then 0.0
    else
      var p :| p in pairs;
      Ratio(base, opt, p) + Total(base, opt, pairs - {p})
  }

  /** The order in which a sum is taken does not matter. */
  lemma {:induction false} TotalWithout(base: seq<Case>, opt: seq<Case>, pairs: set<Pair>, p: Pair)
    requires AllTimed(base, opt, pairs) && p in pairs
    ensures Total(base, opt, pairs) == Ratio(base, opt, p) + Total(base, opt, pairs - {p})
    decreases |pairs|
  {
    hide Timed, Ratio;
    var q :| q in pairs && Total(base, opt, pairs) == Ratio(base, opt, q) + Total(base, opt, pairs - {q});
    if p != q {
      TotalWithout(base, opt, pairs - {q}, p);
      TotalWithout(base, opt, pairs - {p}, q);
      assert pairs - {p} - {q} == pairs - {q} - {p};
    }
  }

  lemma {:induction false} TotalBetween(base: seq<Case>, opt: seq<Case>, pairs: set<Pair>, lo: real, hi: real)
    requires AllTimed(base, opt, pairs)
    requires forall p :: p in pairs ==> lo <= Ratio(base, opt, p) <= hi
    ensures lo * |pairs| as real <= Total(base, opt, pairs) <= hi * |pairs| as real
    decreases |pairs|
  {
    hide Timed, Ratio, Total;
    if pairs == {} {
      NoTotal(base, opt);
    } else {
      var p :| p in pairs;
      TotalWithout(base, opt, pairs, p);
      TotalBetween(base, opt, pairs - {p}, lo, hi);
      OneMoreTerm(lo, |pairs - {p}|);
      OneMoreTerm(hi, |pairs - {p}|);
      assert |pairs - {p}| + 1 == |pairs|;
    }
  }

  lemma NoTotal(base: seq<Case>, opt: seq<Case>)
    ensures Total(base, opt, {}) == 0.0
  {
  }

  lemma OneMoreTerm(x: real, n: nat)
    ensures x * (n + 1) as real == x * n as real + x
  {
  }

  lemma {:induction false} TotalPositive(base: seq<Case>, opt: seq<Case>, pairs: set<Pair>)
    requires AllTimed(base, opt, pairs)
    ensures pairs != {} ==> Total(base, opt, pairs) > 0.0
    ensures Total(base, opt, pairs) >= 0.0
    decreases |pairs|
  {
    hide Timed;
    if pairs != {} {
      var p :| p in pairs;
      TotalWithout(base, opt, pairs, p);
      TotalPositive(base, opt, pairs - {p});
    }
  }

  ghost predicate Covers(moved: set<Pair>, pairs: set<Pair>, p: seq<nat>, q: seq<nat>) {
    && (forall x :: x in pairs ==> x.0 < |p| && x.1 < |q| && (p[x.0], q[x.1]) in moved)
    && (forall y :: y in moved ==> exists x :: x in pairs && x.0 < |p| && x.1 < |q| && y == (p[x.0], q[x.1]))
  }

  /** The same pairs at other positions have the same sum, and there are as many of them. */
  lemma {:induction false} TotalMoves(base: seq<Case>, base': seq<Case>, opt: seq<Case>, opt': seq<Case>, p: seq<nat>,
                                      p': seq<nat>, q: seq<nat>, q': seq<nat>, a: set<Pair>, b: set<Pair>)
    requires Rearranged(base, base', p, p') && Rearranged(opt, opt', q, q')
    requires AllTimed(base, opt, a) && AllTimed(base', opt', b) && Covers(b, a, p, q)
    ensures Total(base, opt, a) == Total(base', opt', b) && |a| == |b|
    decreases |a|
  {
    hide Timed, Ratio, Rearranged, Covers;
    if a == {} {
      CoversNothing(p, q, b);
    } else {
      assert |a| != 0;
      var x: Pair :| x in a;
      RatioMoves(base, base', opt, opt', p, p', q, q', a, b, x);
      var y := (p[x.0], q[x.1]);
      TotalWithout(base, opt, a, x);
      TotalWithout(base', opt', b, y);
      TotalMoves(base, base', opt, opt', p, p', q, q', a - {x}, b - {y});
    }
  }

  lemma CoversNothing(p: seq<nat>, q: seq<nat>, b: set<Pair>)
    requires Covers(b, {}, p, q)
    ensures b == {}
  {
  }

  lemma RatioMoves(base: seq<Case>, base': seq<Case>, opt: seq<Case>, opt': seq<Case>, p: seq<nat>, p': seq<nat>,
                   q: seq<nat>, q': seq<nat>, a: set<Pair>, b: set<Pair>, x: Pair)
    requires Rearranged(base, base', p, p') && Rearranged(opt, opt', q, q')
    requires AllTimed(base, opt, a) && AllTimed(base', opt', b) && Covers(b, a, p, q) && x in a
    ensures x.0 < |p| && x.1 < |q|
    ensures var y := (p[x.0], q[x.1]);
            && y in b && Ratio(base, opt, x) == Ratio(base', opt', y) && Covers(b - {y}, a - {x}, p, q)
  {
  }

  lemma CoversWithout(p: seq<nat>, p': seq<nat>, q: seq<nat>, q': seq<nat>, a: set<Pair>, b: set<Pair>, x: Pair)
    requires Inverse(p, p', |p|) && Inverse(q, q', |q|) && Covers(b, a, p, q) && x in a
    ensures x.0 < |p| && x.1 < |q| && (p[x.0], q[x.1]) in b
    ensures Covers(b - {(p[x.0], q[x.1])}, a - {x}, p, q)
  {
  }

  // ---- Verdicts over all the pairs ----

  /** With complete matching, position decides only when there is one case on each side. */
  ghost function PairsFor(base: seq<Case>, opt: seq<Case>, complete: bool): (pairs: set<Pair>)
    ensures PartialInjection(pairs, |base|, |opt|)
  {
    var fallback := !complete || (|base| == 1 && |opt| == 1);
    PairedIsInjective(base, opt, fallback);
    Paired(base, opt, fallback)
  }

  ghost predicate Full(pairs: set<Pair>, m: nat, n: nat) {
    pairs != {} && |pairs| == m == n
  }

  ghost predicate WorkloadsEqual(base: seq<Case>, opt: seq<Case>, pairs: set<Pair>)
    requires PartialInjection(pairs, |base|, |opt|)
  {
    forall i: nat, j: nat :: (i, j) in pairs ==> SameWorkload(base[i], opt[j])
  }

  ghost predicate MethodsEqual(base: seq<Case>, opt: seq<Case>, pairs: set<Pair>)
    requires PartialInjection(pairs, |base|, |opt|)
  {
    forall i: nat, j: nat :: (i, j) in pairs ==> SameMethod(base[i], opt[j])
  }

  ghost function TimedPairs(base: seq<Case>, opt: seq<Case>, pairs: set<Pair>): (timed: set<Pair>)
    ensures AllTimed(base, opt, timed) && timed <= pairs
    ensures timed == pairs <==> AllTimed(base, opt, pairs)
  {
    set p | p in pairs && Timed(base, opt, p)
  }

  ghost predicate Refuses(base: seq<Case>, opt: seq<Case>, complete: bool) {
    var pairs := PairsFor(base, opt, complete);
    || pairs == {} || (complete && !Full(pairs, |base|, |opt|))
    || !WorkloadsEqual(base, opt, pairs) || !MethodsEqual(base, opt, pairs)
    || (complete && !AllTimed(base, opt, pairs)) || TimedPairs(base, opt, pairs) == {}
  }

  /** The mean over the pairs with valid times, or zero. */
  ghost function AverageSpeedup(base: seq<Case>, opt: seq<Case>, complete: bool): real {
    var timed := TimedPairs(base, opt, PairsFor(base, opt, complete));
    if Refuses(base, opt, complete) then 0.0 else Total(base, opt, timed) / |timed| as real
  }

  /** An injection with as many pairs as there are cases on a side leaves no case of that side out. */
  lemma FullLeavesNothingOut(pairs: set<Pair>, m: nat, n: nat)
    requires PartialInjection(pairs, m, n) && |pairs| == m == n
    ensures forall i: nat :: i < m ==> i in Firsts(pairs)
    ensures forall j: nat :: j < n ==> j in Seconds(pairs)
  {
    SidesHaveAllPairs(pairs, m, n);
    var all := Numbers(m);
    assert Firsts(pairs) <= all by {
      forall i | i in Firsts(pairs) ensures i in all {
        var p :| p in pairs && p.0 == i;
        assert (p.0, p.1) in pairs;
      }
    }
    assert Seconds(pairs) <= all by {
      forall j | j in Seconds(pairs) ensures j in all {
        var p :| p in pairs && p.1 == j;
        assert (p.0, p.1) in pairs;
      }
    }
    SubsetOfSameSize(Firsts(pairs), all);
    SubsetOfSameSize(Seconds(pairs), all);
  }

  lemma SubsetOfSameSize<T>(a: set<T>, b: set<T>)
    requires a <= b && |a| == |b|
    ensures a == b
  {
    assert b == a + (b - a) && |b| == |a| + |b - a|;
  }

  ghost function Numbers(n: nat): (s: set<nat>)
    ensures |s| == n && forall i: nat :: i in s <==> i < n
  {
    if n == 0 then {} else Numbers(n - 1) + {n - 1}
  }

  lemma {:induction false} SidesHaveAllPairs(pairs: set<Pair>, m: nat, n: nat)
    requires PartialInjection(pairs, m, n)
    ensures |Firsts(pairs)| == |Seconds(pairs)| == |pairs|
    decreases |pairs|
  {
    hide PartialInjection;
    if pairs == {} {
      assert Firsts(pairs) == {} && Seconds(pairs) == {};
    } else {
      var p :| p in pairs;
      var rest := pairs - {p};
      NotAmongTheRest(pairs, m, n, p);
      SidesHaveAllPairs(rest, m, n);
      UsedSnoc(rest, p.0, p.1);
      assert pairs == rest + {(p.0, p.1)};
    }
  }

  lemma NotAmongTheRest(pairs: set<Pair>, m: nat, n: nat, p: Pair)
    requires PartialInjection(pairs, m, n) && p in pairs
    ensures p.0 !in Firsts(pairs - {p}) && p.1 !in Seconds(pairs - {p}) && PartialInjection(pairs - {p}, m, n)
  {
  }

  /** A complete comparison scores exactly when the pairs are a full bijection with equal workloads, equal known
      timing methods and positive finite times; the score is then the mean ratio, and lies between any bounds on
      the ratios. */
  lemma SpeedupMeansComparable(base: seq<Case>, opt: seq<Case>, lo: real, hi: real)
    ensures var pairs := PairsFor(base, opt, true);
            AverageSpeedup(base, opt, true) > 0.0 <==>
              && Full(pairs, |base|, |opt|) && WorkloadsEqual(base, opt, pairs) && MethodsEqual(base, opt, pairs)
              && AllTimed(base, opt, pairs)
    ensures var r, pairs := AverageSpeedup(base, opt, true), PairsFor(base, opt, true);
            r > 0.0 ==>
              && (forall i: nat :: i < |base| ==> i in Firsts(pairs))
              && (forall j: nat :: j < |opt| ==> j in Seconds(pairs))
              && r * |base| as real == Total(base, opt, pairs)
              && ((forall p :: p in pairs ==> lo <= Ratio(base, opt, p) <= hi) ==> lo <= r <= hi)
  {
    hide Paired, WorkloadsEqual, MethodsEqual, Timed, Ratio, PartialInjection, Total;
    var pairs := PairsFor(base, opt, true);
    if !Refuses(base, opt, true) {
      TotalPositive(base, opt, pairs);
      FullLeavesNothingOut(pairs, |base|, |opt|);
      Quotient(Total(base, opt, pairs), |base|);
      if forall p :: p in pairs ==> lo <= Ratio(base, opt, p) <= hi {
        TotalBetween(base, opt, pairs, lo, hi);
        Between(Total(base, opt, pairs), |base|, lo, hi);
      }
    }
  }

  lemma Quotient(x: real, n: nat)
    requires n > 0
    ensures x / n as real * n as real == x
    ensures x > 0.0 ==> x / n as real > 0.0
  {
  }

  lemma Between(x: real, n: nat, lo: real, hi: real)
    requires n > 0 && lo * n as real <= x <= hi * n as real
    ensures lo <= x / n as real <= hi
  {
  }

  // ---- The size of a score ----

  predicate HasTime(c: Case) {
    c.time.Finite? && c.time.ms > 0.0
  }

  /** On every pair with two measured times, the baseline took between lo and hi times as long. */
  ghost predicate TakesTimes(base: seq<Case>, opt: seq<Case>, pairs: set<Pair>, lo: real, hi: real) {
    forall i: nat, j: nat :: (i, j) in pairs && i < |base| && j < |opt| && HasTime(base[i]) && HasTime(opt[j]) ==>
      lo * opt[j].time.ms <= base[i].time.ms <= hi * opt[j].time.ms
  }

  lemma RatioWithin(base: seq<Case>, opt: seq<Case>, p: Pair, lo: real, hi: real)
    requires Timed(base, opt, p) && lo * opt[p.1].time.ms <= base[p.0].time.ms <= hi * opt[p.1].time.ms
    ensures lo <= Ratio(base, opt, p) <= hi
  {
    var b, o := base[p.0].time.ms, opt[p.1].time.ms;
    assert b / o * o == b;
  }

  /** A score lies between whatever bounds the times keep. */
  lemma ScoreWithin(base: seq<Case>, opt: seq<Case>, complete: bool, lo: real, hi: real)
    requires AverageSpeedup(base, opt, complete) != 0.0
    requires TakesTimes(base, opt, PairsFor(base, opt, complete), lo, hi)
    ensures lo <= AverageSpeedup(base, opt, complete) <= hi
  {
    hide PairsFor, WorkloadsEqual, MethodsEqual, Ratio, Total;
    var timed := TimedPairs(base, opt, PairsFor(base, opt, complete));
    forall p | p in timed ensures lo <= Ratio(base, opt, p) <= hi {
      assert p == (p.0, p.1);
      RatioWithin(base, opt, p, lo, hi);
    }
    TotalBetween(base, opt, timed, lo, hi);
    Between(Total(base, opt, timed), |timed|, lo, hi);
  }

  /** The score does not depend on the order in which either side reported its cases. */
  lemma SpeedupIgnoresOrder(base: seq<Case>, base': seq<Case>, opt: seq<Case>, opt': seq<Case>, p: seq<nat>,
                            p': seq<nat>, q: seq<nat>, q': seq<nat>)
    requires Rearranged(base, base', p, p') && Rearranged(opt, opt', q, q')
    ensures AverageSpeedup(base, opt, true) == AverageSpeedup(base', opt', true)
  {
    hide Refuses, Total, TimedPairs, PairsFor, Rearranged, Covers;
    var a, b := PairsFor(base, opt, true), PairsFor(base', opt', true);
    PairsMove(base, base', opt, opt', p, p', q, q');
    RefusesMoves(base, base', opt, opt', p, p', q, q');
    TimedMoves(base, base', opt, opt', p, p', q, q', a, b);
    TotalMoves(base, base', opt, opt', p, p', q, q', TimedPairs(base, opt, a), TimedPairs(base', opt', b));
  }

  lemma PairsMove(base: seq<Case>, base': seq<Case>, opt: seq<Case>, opt': seq<Case>, p: seq<nat>, p': seq<nat>,
                  q: seq<nat>, q': seq<nat>)
    requires Rearranged(base, base', p, p') && Rearranged(opt, opt', q, q')
    ensures Covers(PairsFor(base', opt', true), PairsFor(base, opt, true), p, q)
  {
    hide Matching, Moved, PartialInjection, Covers;
    if |base| == |opt| == 1 {
      SingleCasesPair(base, opt);
      SingleCasesPair(base', opt');
      CoversOne(p, q);
    } else {
      MatchingIgnoresOrder(base, base', opt, opt', p, p', q, q');
      MovedCovers(Matching(base, opt), Matching(base', opt'), p, p', q, q');
    }
  }

  lemma CoversOne(p: seq<nat>, q: seq<nat>)
    requires |p| == |q| == 1 && p[0] < 1 && q[0] < 1
    ensures Covers({(0, 0)}, {(0, 0)}, p, q)
  {
  }

  lemma MovedCovers(a: set<Pair>, b: set<Pair>, p: seq<nat>, p': seq<nat>, q: seq<nat>, q': seq<nat>)
    requires Moved(a, b, p, q) && Inverse(p, p', |p|) && Inverse(q, q', |q|)
    ensures Covers(b, a, p, q)
  {
    forall x | x in a ensures x.0 < |p| && x.1 < |q| && (p[x.0], q[x.1]) in b {
      assert (x.0, x.1) in a;
    }
    forall y | y in b ensures exists x :: x in a && x.0 < |p| && x.1 < |q| && y == (p[x.0], q[x.1]) {
      assert (y.0, y.1) in b && (p[p'[y.0]], q[q'[y.1]]) == y;
      assert (p'[y.0], q'[y.1]) in a;
    }
  }

  lemma TimedMoves(base: seq<Case>, base': seq<Case>, opt: seq<Case>, opt': seq<Case>, p: seq<nat>, p': seq<nat>,
                   q: seq<nat>, q': seq<nat>, a: set<Pair>, b: set<Pair>)
    requires Rearranged(base, base', p, p') && Rearranged(opt, opt', q, q') && Covers(b, a, p, q)
    ensures Covers(TimedPairs(base', opt', b), TimedPairs(base, opt, a), p, q)
    ensures AllTimed(base, opt, a) <==> AllTimed(base', opt', b)
  {
  }

  lemma {:induction false} SizeMoves(p: seq<nat>, p': seq<nat>, q: seq<nat>, q': seq<nat>, a: set<Pair>, b: set<Pair>)
    requires Inverse(p, p', |p|) && Inverse(q, q', |q|) && Covers(b, a, p, q)
    ensures |a| == |b|
    decreases |a|
  {
    hide Inverse, Covers;
    if a == {} {
      CoversNothing(p, q, b);
    } else {
      var x: Pair :| x in a;
      CoversWithout(p, p', q, q', a, b, x);
      SizeMoves(p, p', q, q', a - {x}, b - {(p[x.0], q[x.1])});
    }
  }

  lemma VerdictsMove(base: seq<Case>, base': seq<Case>, opt: seq<Case>, opt': seq<Case>, p: seq<nat>, p': seq<nat>,
                     q: seq<nat>, q': seq<nat>, a: set<Pair>, b: set<Pair>)
    requires Rearranged(base, base', p, p') && Rearranged(opt, opt', q, q') && Covers(b, a, p, q)
    requires PartialInjection(a, |base|, |opt|) && PartialInjection(b, |base'|, |opt'|)
    ensures WorkloadsEqual(base, opt, a) <==> WorkloadsEqual(base', opt', b)
    ensures MethodsEqual(base, opt, a) <==> MethodsEqual(base', opt', b)
  {
  }

  lemma RefusesMoves(base: seq<Case>, base': seq<Case>, opt: seq<Case>, opt': seq<Case>, p: seq<nat>, p': seq<nat>,
                     q: seq<nat>, q': seq<nat>)
    requires Rearranged(base, base', p, p') && Rearranged(opt, opt', q, q')
    ensures Refuses(base, opt, true) <==> Refuses(base', opt', true)
  {
    hide TimedPairs, PairsFor, Covers, AllTimed, PartialInjection, WorkloadsEqual, MethodsEqual;
    var a, b := PairsFor(base, opt, true), PairsFor(base', opt', true);
    PairsMove(base, base', opt, opt', p, p', q, q');
    SizeMoves(p, p', q, q', a, b);
    VerdictsMove(base, base', opt, opt', p, p', q, q', a, b);
    TimedMoves(base, base', opt, opt', p, p', q, q', a, b);
    SizeMoves(p, p', q, q', TimedPairs(base, opt, a), TimedPairs(base', opt', b));
    assert |a| == 0 <==> a == {};
    assert |b| == 0 <==> b == {};
    assert |TimedPairs(base, opt, a)| == 0 <==> TimedPairs(base, opt, a) == {};
    assert |TimedPairs(base', opt', b)| == 0 <==> TimedPairs(base', opt', b) == {};
  }

  // ---- The checks and the mean, as the program computes them ----

  lemma {:induction false} UnrepeatedSize(matched: seq<Pair>)
    requires Unrepeated(matched)
    ensures |Elements(matched)| == |matched|
  {
    if matched != [] {
      var n := |matched| - 1;
      UnrepeatedSize(matched[..n]);
      assert Elements(matched) == Elements(matched[..n]) + {matched[n]} by {
        assert matched == matched[..n] + [matched[n]];
      }
    }
  }

  /** What match_test_cases returns, as a list that stands for the set of pairs. */
  ghost predicate Lists(matched: seq<Pair>, pairs: set<Pair>, m: nat, n: nat) {
    && Unrepeated(matched) && InRange(matched, m, n) && |matched| == |pairs| && PartialInjection(pairs, m, n)
    && (forall p: Pair :: p in matched <==> p in pairs) && Elements(matched) == pairs
  }

  lemma MatchedLists(matched: seq<Pair>, pairs: set<Pair>, m: nat, n: nat)
    requires Unrepeated(matched) && Elements(matched) == pairs && PartialInjection(pairs, m, n)
    ensures Lists(matched, pairs, m, n)
  {
    UnrepeatedSize(matched);
    forall k | 0 <= k < |matched| ensures matched[k].0 < m && matched[k].1 < n {
      assert (matched[k].0, matched[k].1) in pairs;
    }
  }

  lemma VerdictsOfList(base: seq<Case>, opt: seq<Case>, matched: seq<Pair>, pairs: set<Pair>)
    requires Lists(matched, pairs, |base|, |opt|)
    ensures WorkloadsEqual(base, opt, pairs) <==> forall p :: p in matched ==> SameWorkload(base[p.0], opt[p.1])
    ensures MethodsEqual(base, opt, pairs) <==> forall p :: p in matched ==> SameMethod(base[p.0], opt[p.1])
    ensures matched == [] <==> pairs == {}
  {
  }

  method AnalyzeWorkloadConsistency(base: seq<Case>, opt: seq<Case>)
    returns (consistent: bool, mismatches: seq<WorkloadMismatch>)
    ensures var pairs := PairsFor(base, opt, true);
            && (mismatches == [] <==> WorkloadsEqual(base, opt, pairs))
            && (consistent <==> Full(pairs, |base|, |opt|) && WorkloadsEqual(base, opt, pairs))
  {
    hide Paired, WorkloadsEqual, PartialInjection, SameWorkload, Elements, Unrepeated;
    var matched := MatchTestCases(base, opt, |base| == |opt| == 1);
    MatchedLists(matched, PairsFor(base, opt, true), |base|, |opt|);
    VerdictsOfList(base, opt, matched, PairsFor(base, opt, true));
    mismatches := WorkloadMismatches(base, opt, matched);
    var complete := matched != [] && |matched| == |base| == |opt|;
    consistent := complete && mismatches == [];
  }

  method AnalyzeBenchmarkMethodConsistency(base: seq<Case>, opt: seq<Case>, complete: bool)
    returns (consistent: bool, mismatches: seq<MethodMismatch>)
    ensures var pairs := PairsFor(base, opt, complete);
            var compared := pairs != {} && (complete ==> Full(pairs, |base|, |opt|));
            && (mismatches == [] <==> !compared || MethodsEqual(base, opt, pairs))
            && (consistent <==> compared && MethodsEqual(base, opt, pairs))
  {
    hide Paired, MethodsEqual, PartialInjection, SameMethod, Elements, Unrepeated;
    var matched := MatchTestCases(base, opt, !complete || (|base| == 1 && |opt| == 1));
    MatchedLists(matched, PairsFor(base, opt, complete), |base|, |opt|);
    VerdictsOfList(base, opt, matched, PairsFor(base, opt, complete));
    if matched == [] {
      return false, [];
    }
    if complete && (|matched| != |base| || |matched| != |opt|) {
      return false, [];
    }
    mismatches := BenchmarkMethodMismatches(base, opt, matched);
    consistent := mismatches == [];
  }

  function Sum(s: seq<real>): real {
    if s == [] then 0.0 else Sum(s[..|s| - 1]) + s[|s| - 1]
  }

  /** The ratios collected so far. */
  ghost predicate Collects(base: seq<Case>, opt: seq<Case>, done: seq<Pair>, speedups: seq<real>) {
    var timed := TimedPairs(base, opt, Elements(done));
    Sum(speedups) == Total(base, opt, timed) && |speedups| == |timed|
  }

  lemma CollectsSnoc(base: seq<Case>, opt: seq<Case>, done: seq<Pair>, p: Pair, speedups: seq<real>)
    requires Collects(base, opt, done, speedups) && p !in done
    ensures Collects(base, opt, done + [p], if Timed(base, opt, p) then speedups + [Ratio(base, opt, p)] else speedups)
  {
    hide Timed, Ratio, Total, Sum;
    var timed, now := TimedPairs(base, opt, Elements(done)), TimedPairs(base, opt, Elements(done + [p]));
    TimedSnoc(base, opt, done, p);
    if Timed(base, opt, p) {
      TotalWithout(base, opt, now, p);
      SumSnoc(speedups, Ratio(base, opt, p));
    }
  }

  lemma SumSnoc(s: seq<real>, x: real)
    ensures Sum(s + [x]) == Sum(s) + x
  {
  }

  lemma TimedSnoc(base: seq<Case>, opt: seq<Case>, done: seq<Pair>, p: Pair)
    requires p !in done
    ensures var timed, now := TimedPairs(base, opt, Elements(done)), TimedPairs(base, opt, Elements(done + [p]));
            if Timed(base, opt, p) then p in now && now - {p} == timed && |now| == |timed| + 1 else now == timed
  {
  }

  method CalculateAverageSpeedup(base: seq<Case>, opt: seq<Case>, complete: bool) returns (r: real)
    ensures r == AverageSpeedup(base, opt, complete)
    ensures r != 0.0 ==>
              forall lo, hi :: TakesTimes(base, opt, PairsFor(base, opt, complete), lo, hi) ==> lo <= r <= hi
  {
    hide Paired, WorkloadsEqual, MethodsEqual, PartialInjection, SameMethod, SameWorkload, Elements, Unrepeated;
    var matched := MatchTestCases(base, opt, !complete || (|base| == 1 && |opt| == 1));
    ghost var pairs := PairsFor(base, opt, complete);
    MatchedLists(matched, pairs, |base|, |opt|);
    VerdictsOfList(base, opt, matched, pairs);
    if matched == [] {
      return 0.0;
    }
    if complete && (|matched| != |base| || |matched| != |opt|) {
      return 0.0;
    }
    var workloadMismatches := WorkloadMismatches(base, opt, matched);
    if workloadMismatches != [] {
      return 0.0;
    }
    var methodMismatches := BenchmarkMethodMismatches(base, opt, matched);
    if methodMismatches != [] {
      return 0.0;
    }
    var untimed, speedups := CollectRatios(base, opt, matched, complete);
    assert !untimed ==> (|speedups| == 0 <==> TimedPairs(base, opt, pairs) == {});
    if untimed || speedups == [] {
      return 0.0;
    }
    r := Sum(speedups) / |speedups| as real;
    WithinAllBounds(base, opt, complete);
  }

  lemma WithinAllBounds(base: seq<Case>, opt: seq<Case>, complete: bool)
    ensures AverageSpeedup(base, opt, complete) != 0.0 ==>
              forall lo, hi :: TakesTimes(base, opt, PairsFor(base, opt, complete), lo, hi) ==>
                lo <= AverageSpeedup(base, opt, complete) <= hi
  {
    hide AverageSpeedup, TakesTimes, PairsFor;
    forall lo, hi | AverageSpeedup(base, opt, complete) != 0.0
                    && TakesTimes(base, opt, PairsFor(base, opt, complete), lo, hi)
      ensures lo <= AverageSpeedup(base, opt, complete) <= hi
    {
      ScoreWithin(base, opt, complete, lo, hi);
    }
  }

  /** The loop over the pairs; it stops at the first invalid time when every pair must count. */
  method CollectRatios(base: seq<Case>, opt: seq<Case>, matched: seq<Pair>, complete: bool)
    returns (untimed: bool, speedups: seq<real>)
    requires Unrepeated(matched) && InRange(matched, |base|, |opt|)
    ensures untimed <==> complete && !AllTimed(base, opt, Elements(matched))
    ensures !untimed ==> Collects(base, opt, matched, speedups)
  {
    hide Collects, Elements;
    speedups := [];
    NothingCollected(base, opt);
    var n := 0;
    while n < |matched|
      invariant 0 <= n <= |matched|
      invariant Collects(base, opt, matched[..n], speedups)
      invariant complete ==> forall k :: 0 <= k < n ==> Timed(base, opt, matched[k])
    {
      var p := matched[n];
      assert matched[..n + 1] == matched[..n] + [p];
      CollectsSnoc(base, opt, matched[..n], p, speedups);
      if Valid(base[p.0].time) && Valid(opt[p.1].time) {
        speedups := speedups + [base[p.0].time.ms / opt[p.1].time.ms];
      } else if complete {
        UntimedPair(base, opt, matched, n);
        return true, speedups;
      }
      n := n + 1;
    }
    assert matched[..n] == matched;
    AllPairsTimed(base, opt, matched);
    untimed := false;
  }

  lemma NothingCollected(base: seq<Case>, opt: seq<Case>)
    ensures Collects(base, opt, [], [])
  {
  }

  lemma UntimedPair(base: seq<Case>, opt: seq<Case>, matched: seq<Pair>, n: nat)
    requires n < |matched| && !Timed(base, opt, matched[n])
    ensures !AllTimed(base, opt, Elements(matched))
  {
  }

  lemma AllPairsTimed(base: seq<Case>, opt: seq<Case>, matched: seq<Pair>)
    ensures (forall k :: 0 <= k < |matched| ==> Timed(base, opt, matched[k])) ==> AllTimed(base, opt, Elements(matched))
  {
  }
}
