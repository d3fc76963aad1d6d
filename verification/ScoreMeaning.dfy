/** What a score says about the cases themselves: times, workloads and timing methods as they stand in the two lists.
    The lists are those of calculate_average_speedup in src/testcases.py and evaluate_kernel in src/evaluator.py. */
module ScoreMeaning {
  import opened Wrappers
  import opened JsonValues
  import opened PythonValues
  import opened CaseMatching
  import opened Speedup

  // ---- The size of a score ----

  /** When every baseline case took k times as long as its partner, the score is k. */
  lemma UniformScore(base: seq<Case>, opt: seq<Case>, complete: bool, k: real)
    requires AverageSpeedup(base, opt, complete) != 0.0
    requires forall i: nat, j: nat ::
               (i, j) in PairsFor(base, opt, complete) && i < |base| && j < |opt| && HasTime(base[i]) && HasTime(opt[j])
               ==> base[i].time.ms == k * opt[j].time.ms
    ensures AverageSpeedup(base, opt, complete) == k
  {
    hide AverageSpeedup, PairsFor;
    ScoreWithin(base, opt, complete, k, k);
  }

  /** The ratios of the first n cases to their partners, added up. */
  function RatioSum(base: seq<Case>, opt: seq<Case>, partner: seq<nat>, n: nat): real
    requires n <= |base| && n <= |partner|
    requires forall i :: 0 <= i < n ==> partner[i] < |opt| && HasTime(base[i]) && HasTime(opt[partner[i]])
  {
    if n == 0 then 0.0
    else
      var i, j := n - 1, partner[n - 1];
      assert HasTime(base[i]) && HasTime(opt[j]);
      RatioSum(base, opt, partner, i) + base[i].time.ms / opt[j].time.ms
  }

  ghost function FirstPairs(partner: seq<nat>, n: nat): (pairs: set<Pair>)
    requires n <= |partner|
    ensures forall p: Pair :: p in pairs <==> p.0 < n && p.1 == partner[p.0]
  {
    set i: nat | i < n :: (i, partner[i])
  }

  lemma {:induction false} TotalIsRatioSum(base: seq<Case>, opt: seq<Case>, partner: seq<nat>, n: nat)
    requires n <= |base| && n <= |partner|
    requires forall i :: 0 <= i < n ==> partner[i] < |opt| && HasTime(base[i]) && HasTime(opt[partner[i]])
    ensures AllTimed(base, opt, FirstPairs(partner, n))
    ensures Total(base, opt, FirstPairs(partner, n)) == RatioSum(base, opt, partner, n)
  {
    hide Total;
    var pairs := FirstPairs(partner, n);
    if n == 0 {
      NoTotal(base, opt);
      assert pairs == {};
    } else {
      var p := (n - 1, partner[n - 1]);
      TotalIsRatioSum(base, opt, partner, n - 1);
      TotalWithout(base, opt, pairs, p);
      assert pairs - {p} == FirstPairs(partner, n - 1);
    }
  }

  /** A complete score is the arithmetic mean: times the number of cases, it is the sum over the baseline cases of
      their own time divided by their partner's. */
  lemma ScoreIsTheMean(base: seq<Case>, opt: seq<Case>, partner: seq<nat>)
    requires AverageSpeedup(base, opt, true) != 0.0 && |partner| == |base|
    requires forall i: nat :: i < |base| ==> (i, partner[i]) in PairsFor(base, opt, true)
    ensures forall i :: 0 <= i < |base| ==> partner[i] < |opt| && HasTime(base[i]) && HasTime(opt[partner[i]])
    ensures AverageSpeedup(base, opt, true) * |base| as real == RatioSum(base, opt, partner, |base|)
  {
    hide PairsFor, AverageSpeedup, AllTimed, Total, PartialInjection;
    var pairs := PairsFor(base, opt, true);
    ScoreParts(base, opt);
    MeasuredPairs(base, opt, pairs, partner);
    TotalIsRatioSum(base, opt, partner, |base|);
    PairsAreFirst(pairs, partner, |base|, |opt|);
  }

  lemma ScoreParts(base: seq<Case>, opt: seq<Case>)
    requires AverageSpeedup(base, opt, true) != 0.0
    ensures var pairs := PairsFor(base, opt, true);
            AllTimed(base, opt, pairs) && AverageSpeedup(base, opt, true) * |base| as real == Total(base, opt, pairs)
  {
    hide PairsFor, WorkloadsEqual, MethodsEqual, Timed, Total;
    var pairs := PairsFor(base, opt, true);
    Quotient(Total(base, opt, pairs), |base|);
  }

  lemma MeasuredPairs(base: seq<Case>, opt: seq<Case>, pairs: set<Pair>, partner: seq<nat>)
    requires AllTimed(base, opt, pairs) && |partner| == |base|
    requires forall i: nat :: i < |base| ==> (i, partner[i]) in pairs
    ensures forall i :: 0 <= i < |base| ==> partner[i] < |opt| && HasTime(base[i]) && HasTime(opt[partner[i]])
  {
  }

  lemma PairsAreFirst(pairs: set<Pair>, partner: seq<nat>, m: nat, n: nat)
    requires PartialInjection(pairs, m, n) && |partner| == m && forall i: nat :: i < m ==> (i, partner[i]) in pairs
    ensures pairs == FirstPairs(partner, m)
  {
    forall p: Pair | p in pairs ensures p in FirstPairs(partner, m) {
      assert (p.0, p.1) in pairs && (p.0, partner[p.0]) in pairs;
    }
  }

  // ---- What makes two lists comparable ----

  /** Both cases name this entry with equal values, or neither has it. */
  predicate SameEntry(b: Case, o: Case, key: string) {
    match (b.metadata, o.metadata)
    case (Some(f), Some(g)) => (key in f <==> key in g) && (key in f && key in g ==> Equal(f[key], g[key]))
    case (Some(f), None) => key !in f
    case (None, Some(g)) => key !in g
    case (None, None) => true
  }

  predicate Says(c: Case, key: string, v: Value) {
    c.metadata.Some? && key in c.metadata.value && c.metadata.value[key] == v
  }

  predicate TimedBy(b: Case, o: Case, how: string) {
    Says(b, "benchmark_method", Text(how)) && Says(o, "benchmark_method", Text(how))
  }

  /** The same shape, dtype and params, timed by one device method, with measured times. */
  predicate ComparableCases(b: Case, o: Case) {
    && SameEntry(b, o, "params") && SameEntry(b, o, "dtype")
    && (b.shape.Null? <==> o.shape.Null?) && Equal(b.shape, o.shape)
    && (TimedBy(b, o, "cuda_graph") || TimedBy(b, o, "cuda_event_fallback"))
    && !Says(b, "benchmark_method_consistent", Bool(false)) && !Says(o, "benchmark_method_consistent", Bool(false))
    && HasTime(b) && HasTime(o)
  }

  lemma WorkloadOutright(b: Case, o: Case)
    ensures SameWorkload(b, o) <==> SameEntry(b, o, "params") && SameEntry(b, o, "dtype")
                                    && (b.shape.Null? <==> o.shape.Null?) && Equal(b.shape, o.shape)
  {
    assert Equal(Null, Null);
    assert Changed(b, o, Params) <==> !SameEntry(b, o, "params");
    assert Changed(b, o, Dtype) <==> !SameEntry(b, o, "dtype");
    assert Changed(b, o, Shape) <==> !((b.shape.Null? <==> o.shape.Null?) && Equal(b.shape, o.shape));
  }

  lemma MethodOutright(b: Case, o: Case)
    ensures SameMethod(b, o) <==>
              && (TimedBy(b, o, "cuda_graph") || TimedBy(b, o, "cuda_event_fallback"))
              && !Says(b, "benchmark_method_consistent", Bool(false))
              && !Says(o, "benchmark_method_consistent", Bool(false))
  {
  }

  /** The pairs leave no case of either list out, and every pair is comparable. */
  ghost predicate ComparableLists(base: seq<Case>, opt: seq<Case>) {
    var pairs := PairsFor(base, opt, true);
    && base != [] && |base| == |opt| == |pairs|
    && forall i: nat, j: nat :: (i, j) in pairs ==> i < |base| && j < |opt| && ComparableCases(base[i], opt[j])
  }

  /** Complete lists score exactly when they are comparable. */
  lemma ScoresExactly(base: seq<Case>, opt: seq<Case>)
    ensures AverageSpeedup(base, opt, true) > 0.0 <==> ComparableLists(base, opt)
  {
    hide PairsFor, AverageSpeedup, PartialInjection, SameWorkload, SameMethod, ComparableCases;
    var pairs := PairsFor(base, opt, true);
    SpeedupMeansComparable(base, opt, 0.0, 0.0);
    PairsInRange(pairs, |base|, |opt|);
    forall i: nat, j: nat | (i, j) in pairs
      ensures ComparableCases(base[i], opt[j]) <==>
                SameWorkload(base[i], opt[j]) && SameMethod(base[i], opt[j]) && Timed(base, opt, (i, j))
    {
      ComparableOutright(base, opt, i, j);
    }
    assert forall p: Pair :: p == (p.0, p.1);
  }

  lemma ComparableOutright(base: seq<Case>, opt: seq<Case>, i: nat, j: nat)
    requires i < |base| && j < |opt|
    ensures ComparableCases(base[i], opt[j]) <==>
              SameWorkload(base[i], opt[j]) && SameMethod(base[i], opt[j]) && Timed(base, opt, (i, j))
  {
    hide SameWorkload, SameMethod, SameEntry, TimedBy, Says;
    WorkloadOutright(base[i], opt[j]);
    MethodOutright(base[i], opt[j]);
  }

  lemma PairsInRange(pairs: set<Pair>, m: nat, n: nat)
    requires PartialInjection(pairs, m, n)
    ensures forall i: nat, j: nat :: (i, j) in pairs ==> i < m && j < n
  {
  }

  predicate NamesMethod(c: Case) {
    Says(c, "benchmark_method", Text("cuda_graph")) || Says(c, "benchmark_method", Text("cuda_event_fallback"))
  }

  ghost predicate NamesMixture(c: Case) {
    exists v: Value :: Says(c, "benchmark_method", v) && v.Text? && "mixed:" <= v.s
  }

  /** The reason given for a pair that was not timed alike: that a case reports disagreeing methods comes first, then
      that one names a mixture, then that one names no known method; what is left are two different known methods. */
  lemma ReasonMeans(b: Case, o: Case)
    ensures var flagged := Says(b, "benchmark_method_consistent", Bool(false))
                           || Says(o, "benchmark_method_consistent", Bool(false));
            && (Why(b, o) == TaskReported <==> flagged)
            && (Why(b, o) == MixedAggregate <==> !flagged && (NamesMixture(b) || NamesMixture(o)))
            && (Why(b, o) == MissingOrUnknown <==>
                  !flagged && !NamesMixture(b) && !NamesMixture(o) && !(NamesMethod(b) && NamesMethod(o)))
            && (Why(b, o) == Unequal ==> NamesMethod(b) && NamesMethod(o))
  {
    MethodIs(b);
    MethodIs(o);
  }

  lemma MethodIs(c: Case)
    ensures Flagged(c) <==> Says(c, "benchmark_method_consistent", Bool(false))
    ensures Mixed(MethodOf(c)) <==> NamesMixture(c)
    ensures Known(MethodOf(c)) <==> NamesMethod(c)
  {
    if c.metadata.Some? && "benchmark_method" in c.metadata.value {
      assert Says(c, "benchmark_method", c.metadata.value["benchmark_method"]);
    }
  }
}
