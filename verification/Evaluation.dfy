/** The decision chain of evaluate_kernel and the score that write_task_result records: src/evaluator.py. The
    commands, the evaluation tools and the measured cases are observations handed in by the environment. */
module Evaluation {
  import opened Wrappers
  import opened JsonValues
  import opened PythonValues
  import opened CaseMatching
  import opened Speedup
  import opened ScoreMeaning

  datatype Tools = Disabled | NoManager | Decided(allowed: bool, satisfied: bool)

  /** unusable: a legacy stub task whose declared targets are missing or still stubs. performance is None when
      the session's performance action failed, with that message. */
  datatype Env = Env(session: bool, schema2: bool, compiles: bool, unusable: bool, correct: bool, tools: Tools,
                     performance: Option<seq<Case>>, message: string)

  datatype SpeedupError = PerformanceFailed(message: string) | WorkloadsDiffer | MethodsDiffer | InvalidTimings
                        | NotMatched | BaselineInvalid | BaselineMissing

  datatype Evaluation = Evaluation(passCompilation: bool, passCorrectness: bool, passToolGate: bool,
                                   policySatisfied: bool, best: real, averageSpeedup: real, validBaseline: nat,
                                   validOptimized: nat, error: Option<SpeedupError>, methodConsistent: bool,
                                   methodMismatches: seq<MethodMismatch>, workloadConsistent: bool,
                                   workloadMismatches: seq<WorkloadMismatch>)

  datatype Raised = NoSession | NoToolManager

  const INITIAL := Evaluation(false, false, true, true, 0.0, 0.0, 0, 0, None, false, [], false, [])

  // ---- Valid cases and their mean time ----

  function ValidOnly(cases: seq<Case>): (valid: seq<Case>)
    ensures |valid| <= |cases|
    ensures |valid| == |cases| ==> valid == cases
    ensures AllValid(valid)
    ensures forall c :: c in valid <==> c in cases && c.time.Finite? && c.time.ms > 0.0
  {
    if cases == [] then []
    else
      var n := |cases| - 1;
      assert cases == cases[..n] + [cases[n]];
      ValidOnly(cases[..n]) + if Valid(cases[n].time) then [cases[n]] else []
  }

  predicate AllValid(cases: seq<Case>) {
    forall k :: 0 <= k < |cases| ==> Valid(cases[k].time)
  }

  lemma {:induction false} AllValidAreKept(cases: seq<Case>)
    requires AllValid(cases)
    ensures ValidOnly(cases) == cases
  {
    if cases != [] {
      AllValidAreKept(cases[..|cases| - 1]);
    }
  }

  method ValidPerfCases(cases: seq<Case>) returns (valid: seq<Case>)
    ensures valid == ValidOnly(cases)
  {
    valid := [];
    for n := 0 to |cases|
      invariant valid == ValidOnly(cases[..n])
    {
      assert cases[..n + 1][..n] == cases[..n];
      if Valid(cases[n].time) {
        valid := valid + [cases[n]];
      }
    }
    assert cases[..|cases|] == cases;
  }

  function TimeSum(cases: seq<Case>): (sum: real)
    requires AllValid(cases)
    ensures sum >= 0.0 && (cases != [] ==> sum > 0.0)
  {
    if cases == [] then 0.0 else TimeSum(cases[..|cases| - 1]) + cases[|cases| - 1].time.ms
  }

  function MeanTime(cases: seq<Case>): (mean: real)
    requires AllValid(cases)
    ensures mean >= 0.0 && (mean > 0.0 <==> cases != [])
  {
    if cases == [] then 0.0
    else
      Quotient(TimeSum(cases), |cases|);
      TimeSum(cases) / |cases| as real
  }

  lemma {:induction false} TimeSumWithin(cases: seq<Case>, lo: real, hi: real)
    requires AllValid(cases) && forall k :: 0 <= k < |cases| ==> lo <= cases[k].time.ms <= hi
    ensures lo * |cases| as real <= TimeSum(cases) <= hi * |cases| as real
  {
    if cases != [] {
      var n := |cases| - 1;
      TimeSumWithin(cases[..n], lo, hi);
      OneMoreTerm(lo, n);
      OneMoreTerm(hi, n);
      TermsAdd(lo * n as real, TimeSum(cases[..n]), hi * n as real, lo, cases[n].time.ms, hi);
    }
  }

  lemma TermsAdd(a: real, b: real, c: real, x: real, y: real, z: real)
    requires a <= b <= c && x <= y <= z
    ensures a + x <= b + y <= c + z
  {
  }

  /** The mean time lies between any bounds on the times. */
  lemma MeanTimeWithin(cases: seq<Case>, lo: real, hi: real)
    requires cases != [] && AllValid(cases) && forall k :: 0 <= k < |cases| ==> lo <= cases[k].time.ms <= hi
    ensures lo <= MeanTime(cases) <= hi && MeanTime(cases) * |cases| as real == TimeSum(cases)
  {
    TimeSumWithin(cases, lo, hi);
    Between(TimeSum(cases), |cases|, lo, hi);
    Quotient(TimeSum(cases), |cases|);
  }

  // ---- evaluate_kernel ----

  /** Everything before performance was passed. */
  predicate Reached(env: Env) {
    && (env.session || !env.schema2) && env.compiles && (env.session || !env.unusable) && env.correct
    && (env.tools.Disabled? || (env.tools.Decided? && env.tools.allowed))
  }

  function Measured(env: Env): seq<Case> {
    if env.performance.Some? then env.performance.value else []
  }

  /** A full bijection of the cases, with equal workloads, equal known methods and positive finite times. */
  ghost predicate Comparable(base: seq<Case>, opt: seq<Case>) {
    var pairs := PairsFor(base, opt, true);
    Full(pairs, |base|, |opt|) && WorkloadsEqual(base, opt, pairs) && MethodsEqual(base, opt, pairs)
    && AllTimed(base, opt, pairs)
  }

  /** Comparable lists hold no invalid time at all. */
  lemma ComparableIsAllValid(base: seq<Case>, opt: seq<Case>)
    requires Comparable(base, opt)
    ensures AllValid(base) && AllValid(opt)
  {
    hide PairsFor, WorkloadsEqual, MethodsEqual;
    var pairs := PairsFor(base, opt, true);
    FullLeavesNothingOut(pairs, |base|, |opt|);
    forall i: nat | i < |base| ensures Valid(base[i].time) {
      assert i in Firsts(pairs);
    }
    forall j: nat | j < |opt| ensures Valid(opt[j].time) {
      assert j in Seconds(pairs);
    }
  }

  lemma AllValidAreTimed(base: seq<Case>, opt: seq<Case>, pairs: set<Pair>)
    requires PartialInjection(pairs, |base|, |opt|) && AllValid(base) && AllValid(opt)
    ensures AllTimed(base, opt, pairs)
  {
  }

  lemma NothingToPair(base: seq<Case>, opt: seq<Case>)
    requires base == [] || opt == []
    ensures PairsFor(base, opt, true) == {}
  {
  }

  /** What is reported when two lists do not score; with no usable optimized sample nothing is reported. */
  ghost function ErrorOf(base: seq<Case>, opt: seq<Case>): Option<SpeedupError> {
    var vb, vo := ValidOnly(base), ValidOnly(opt);
    var pairs := PairsFor(vb, vo, true);
    if vo == [] then None
    else if vb == [] then Some(if base == [] then BaselineMissing else BaselineInvalid)
    else if !Full(pairs, |vb|, |vo|) || !WorkloadsEqual(vb, vo, pairs) then Some(WorkloadsDiffer)
    else if !MethodsEqual(vb, vo, pairs) then Some(MethodsDiffer)
    else if vb != base || vo != opt then Some(InvalidTimings)
    else None
  }

  /** How a comparison ends: a positive score, or an error, or no usable sample at all. */
  ghost predicate Concluded(base: seq<Case>, opt: seq<Case>, average: real, error: Option<SpeedupError>,
                            methodConsistent: bool, workloadConsistent: bool)
  {
    && error == ErrorOf(base, opt)
    && average == (if Comparable(base, opt) then AverageSpeedup(base, opt, true) else 0.0)
    && (Comparable(base, opt) ==> average > 0.0 && workloadConsistent && methodConsistent && error.None?)
    && (!Comparable(base, opt) && error.None? ==> !methodConsistent)
    && (error.Some? ==> !error.value.PerformanceFailed?)
  }

  /** Both lists are compared without their invalid samples; what is found is about the lists themselves. */
  lemma Conclude(base: seq<Case>, opt: seq<Case>, methodsMatch: bool, sameWorkloads: bool, methodConsistent: bool)
    requires var vb, vo := ValidOnly(base), ValidOnly(opt);
             var pairs := PairsFor(vb, vo, true);
             && (sameWorkloads <==> Full(pairs, |vb|, |vo|) && WorkloadsEqual(vb, vo, pairs))
             && (methodConsistent <==> Full(pairs, |vb|, |vo|) && MethodsEqual(vb, vo, pairs))
             && (methodsMatch <==> !Full(pairs, |vb|, |vo|) || MethodsEqual(vb, vo, pairs))
    ensures Comparable(base, opt) <==>
              && sameWorkloads && methodsMatch && |ValidOnly(base)| == |base| && |ValidOnly(opt)| == |opt|
    ensures Comparable(base, opt) ==> methodConsistent && opt != [] && base != []
    ensures ValidOnly(base) == [] || ValidOnly(opt) == [] ==> !methodConsistent
    ensures Comparable(base, opt) ==> AverageSpeedup(base, opt, true) > 0.0
    ensures ErrorOf(base, opt) ==
              if ValidOnly(opt) == [] then None
              else if ValidOnly(base) == [] then Some(if base == [] then BaselineMissing else BaselineInvalid)
              else if !sameWorkloads then Some(WorkloadsDiffer)
              else if !methodsMatch then Some(MethodsDiffer)
              else if |ValidOnly(base)| != |base| || |ValidOnly(opt)| != |opt| then Some(InvalidTimings) else None
  {
    hide PairsFor, WorkloadsEqual, MethodsEqual, AllTimed, AverageSpeedup;
    var vb, vo := ValidOnly(base), ValidOnly(opt);
    if Comparable(base, opt) {
      ComparableIsAllValid(base, opt);
      AllValidAreKept(base);
      AllValidAreKept(opt);
    }
    AllValidAreTimed(vb, vo, PairsFor(vb, vo, true));
    SpeedupMeansComparable(base, opt, 0.0, 0.0);
    if vb == [] || vo == [] {
      NothingToPair(vb, vo);
    }
  }

  /** The branch that compares the measured cases with the baseline. */
  method Compare(base: seq<Case>, opt: seq<Case>)
    returns (best: real, average: real, error: Option<SpeedupError>, validBaseline: nat, validOptimized: nat,
             methodConsistent: bool, methodMismatches: seq<MethodMismatch>, workloadConsistent: bool,
             workloadMismatches: seq<WorkloadMismatch>)
    ensures Concluded(base, opt, average, error, methodConsistent, workloadConsistent)
    ensures validBaseline == |ValidOnly(base)| && validOptimized == |ValidOnly(opt)|
    ensures best == MeanTime(ValidOnly(opt))
  {
    hide PairsFor, WorkloadsEqual, MethodsEqual, AllTimed, AverageSpeedup, ValidOnly, Full, Comparable, MeanTime,
         ErrorOf;
    average, error := 0.0, None;
    var validOpt := ValidPerfCases(opt);
    var validBase := ValidPerfCases(base);
    methodConsistent, methodMismatches := AnalyzeBenchmarkMethodConsistency(validBase, validOpt, true);
    workloadConsistent, workloadMismatches := AnalyzeWorkloadConsistency(validBase, validOpt);
    FullHasPairs(PairsFor(validBase, validOpt, true), |validBase|, |validOpt|);
    Conclude(base, opt, methodMismatches == [], workloadConsistent, methodConsistent);
    best, validBaseline, validOptimized := MeanTime(validOpt), |validBase|, |validOpt|;
    if validOpt != [] {
      if validBase != [] {
        if !workloadConsistent {
          error := Some(WorkloadsDiffer);
        } else if methodMismatches != [] {
          error := Some(MethodsDiffer);
        } else if |validBase| != |base| || |validOpt| != |opt| {
          error := Some(InvalidTimings);
        } else {
          assert validBase == base && validOpt == opt;
          var speedup := CalculateAverageSpeedup(validBase, validOpt, true);
          if speedup > 0.0 {
            average := speedup;
          } else {
            error := Some(NotMatched);
          }
        }
      } else if base != [] {
        error := Some(BaselineInvalid);
      } else {
        error := Some(BaselineMissing);
      }
    }
  }

  lemma FullHasPairs(pairs: set<Pair>, m: nat, n: nat)
    ensures Full(pairs, m, n) ==> pairs != {}
  {
  }

  /** What a result must satisfy, step by step of the chain. */
  ghost predicate Earned(env: Env, base: seq<Case>, e: Evaluation) {
    && e.averageSpeedup == (if Reached(env) && Comparable(base, Measured(env))
                            then AverageSpeedup(base, Measured(env), true) else 0.0)
    && (e.averageSpeedup > 0.0 <==> Reached(env) && Comparable(base, Measured(env)))
    && (e.averageSpeedup > 0.0 ==> e.passCompilation && e.passCorrectness && e.passToolGate
                                   && e.workloadConsistent && e.methodConsistent && e.error.None?)
    && e.passCompilation == (env.compiles && (env.session || !env.schema2))
    && e.passCorrectness == (e.passCompilation && env.correct && (env.session || !env.unusable))
    && (e.passToolGate <==> e.passCorrectness && env.tools.Decided? ==> env.tools.allowed)
    && (e.policySatisfied <==> e.passCorrectness && env.tools.Decided? ==> env.tools.satisfied)
    && (if Reached(env) && Measured(env) != []
        then && e.best == MeanTime(ValidOnly(Measured(env))) && e.validBaseline == |ValidOnly(base)|
             && e.validOptimized == |ValidOnly(Measured(env))| && e.error == ErrorOf(base, Measured(env))
        else && e.best == 0.0 && e.validBaseline == e.validOptimized == 0
             && e.error == if Reached(env) && env.performance.None? then Some(PerformanceFailed(env.message)) else None)
  }

  /** A positive score is recorded exactly when everything was passed and the cases are comparable, and it is
      their mean ratio; whatever is returned, no later report rebuilds a score from average times. */
  method EvaluateKernel(env: Env, base: seq<Case>) returns (r: Result<Evaluation, Raised>)
    ensures r.Err? <==> (!env.session && env.schema2)
                        || (env.compiles && (env.session || !env.unusable) && env.correct && env.tools.NoManager?)
    ensures r.Ok? ==> Earned(env, base, r.value)
    ensures r.Ok? ==> forall baseline :: !Rebuilds(r.value, baseline)
  {
    hide Comparable, AverageSpeedup, MeanTime, ValidOnly, ErrorOf;
    NothingComparable(base);
    if !env.session && env.schema2 {
      return Err(NoSession);
    }
    var e := INITIAL.(passCompilation := env.compiles);
    if !env.compiles {
      return Ok(e);
    }
    if !env.session && env.unusable {
      return Ok(e);
    }
    e := e.(passCorrectness := env.correct);
    if !env.correct {
      return Ok(e);
    }
    if env.tools.NoManager? {
      return Err(NoToolManager);
    }
    if env.tools.Decided? {
      e := e.(passToolGate := env.tools.allowed, policySatisfied := env.tools.satisfied);
      if !env.tools.allowed {
        return Ok(e);
      }
    }
    if env.performance.None? {
      return Ok(e.(error := Some(PerformanceFailed(env.message))));
    }
    if env.performance.value == [] {
      return Ok(e);
    }
    var best, average, error, vb, vo, mc, mm, wc, wm := Compare(base, env.performance.value);
    e := Evaluation(e.passCompilation, e.passCorrectness, e.passToolGate, e.policySatisfied, best, average, vb, vo,
                    error, mc, mm, wc, wm);
    return Ok(e);
  }

  lemma NothingComparable(base: seq<Case>)
    ensures !Comparable(base, [])
  {
  }

  // ---- write_task_result ----

  predicate Counts(error: Option<SpeedupError>) {
    error.Some? && (error.value.PerformanceFailed? ==> error.value.message != "")
  }

  /** The condition under which a score would be rebuilt from the mean times. */
  predicate Rebuilds(e: Evaluation, baseline: seq<Case>) {
    && (!e.workloadConsistent || e.averageSpeedup == 0.0) && !Counts(e.error) && e.methodConsistent
    && e.workloadConsistent && MeanTime(ValidOnly(baseline)) > 0.0 && e.best > 0.0
  }

  /** The speedup ratio written to the report. */
  method WrittenSpeedup(e: Evaluation, baseline: seq<Case>) returns (ratio: real)
    ensures Rebuilds(e, baseline) ==> ratio == MeanTime(ValidOnly(baseline)) / e.best
    ensures !Rebuilds(e, baseline) ==> ratio == if e.workloadConsistent then e.averageSpeedup else 0.0
  {
    hide MeanTime, ValidOnly;
    var valid := ValidPerfCases(baseline);
    var mean := MeanTime(valid);
    ratio := e.averageSpeedup;
    if !e.workloadConsistent {
      ratio := 0.0;
    }
    if ratio == 0.0 && !Counts(e.error) && e.methodConsistent && e.workloadConsistent && mean > 0.0 && e.best > 0.0 {
      ratio := mean / e.best;
    }
  }

  /** The two together: the ratio in the report is the mean ratio of comparable cases, or zero. It is positive
      exactly when the chain reaches a comparison of comparable lists, and then lies between any bounds that the
      baseline times keep in terms of the optimized ones. */
  method EvaluateAndWrite(env: Env, base: seq<Case>) returns (r: Result<Evaluation, Raised>, ratio: real)
    ensures r.Ok? ==> ratio == if Reached(env) && Comparable(base, Measured(env))
                               then AverageSpeedup(base, Measured(env), true) else 0.0
    ensures r.Ok? ==> (ratio > 0.0 <==> Reached(env) && ComparableLists(base, Measured(env)))
    ensures r.Ok? && ratio > 0.0 ==>
              forall lo, hi :: TakesTimes(base, Measured(env), PairsFor(base, Measured(env), true), lo, hi) ==>
                lo <= ratio <= hi
  {
    hide Comparable, AverageSpeedup, Rebuilds, Reached, ComparableLists, TakesTimes, PairsFor;
    ratio := 0.0;
    ScoreOfMeasured(base, Measured(env));
    r := EvaluateKernel(env, base);
    if r.Ok? {
      ratio := WrittenSpeedup(r.value, base);
    }
  }

  lemma ScoreOfMeasured(base: seq<Case>, opt: seq<Case>)
    ensures Comparable(base, opt) <==> ComparableLists(base, opt)
    ensures AverageSpeedup(base, opt, true) > 0.0 ==>
              forall lo, hi :: TakesTimes(base, opt, PairsFor(base, opt, true), lo, hi) ==>
                lo <= AverageSpeedup(base, opt, true) <= hi
  {
    hide AverageSpeedup, ComparableLists, TakesTimes, PairsFor;
    SpeedupMeansComparable(base, opt, 0.0, 0.0);
    ScoresExactly(base, opt);
    WithinAllBounds(base, opt, true);
  }

  // ---- What an error says ----

  /** The valid cases are paired with nothing left over. */
  ghost predicate FullyPaired(base: seq<Case>, opt: seq<Case>) {
    |base| == |opt| == |PairsFor(base, opt, true)| && base != []
  }

  predicate WorkloadKept(b: Case, o: Case) {
    && SameEntry(b, o, "params") && SameEntry(b, o, "dtype")
    && (b.shape.Null? <==> o.shape.Null?) && Equal(b.shape, o.shape)
  }

  predicate TimedTheSame(b: Case, o: Case) {
    && (TimedBy(b, o, "cuda_graph") || TimedBy(b, o, "cuda_event_fallback"))
    && !Says(b, "benchmark_method_consistent", Bool(false)) && !Says(o, "benchmark_method_consistent", Bool(false))
  }

  ghost predicate AllPairs(same: (Case, Case) -> bool, base: seq<Case>, opt: seq<Case>) {
    forall i: nat, j: nat :: (i, j) in PairsFor(base, opt, true) && i < |base| && j < |opt| ==> same(base[i], opt[j])
  }

  /** Which error is reported, from the cases themselves: nothing is said when no optimized case has a time; then a
      missing baseline comes first, then workloads, then timing methods, then invalid times. */
  lemma ErrorMeans(base: seq<Case>, opt: seq<Case>)
    ensures var vb, vo := ValidOnly(base), ValidOnly(opt);
            var e := ErrorOf(base, opt);
            && (e == Some(BaselineMissing) <==> vo != [] && base == [])
            && (e == Some(BaselineInvalid) <==> vo != [] && vb == [] && base != [])
            && (e == Some(WorkloadsDiffer) <==>
                  vo != [] && vb != [] && !(FullyPaired(vb, vo) && AllPairs(WorkloadKept, vb, vo)))
            && (e == Some(MethodsDiffer) <==>
                  FullyPaired(vb, vo) && AllPairs(WorkloadKept, vb, vo) && !AllPairs(TimedTheSame, vb, vo))
            && (e == Some(InvalidTimings) ==>
                  exists c :: (c in base || c in opt) && !(c.time.Finite? && c.time.ms > 0.0))
            && (e.None? ==> vo == [] || (vb == base && vo == opt && AllPairs(TimedTheSame, vb, vo)))
  {
    hide PairsFor, ValidOnly, SameWorkload, SameMethod, WorkloadKept, TimedTheSame, PartialInjection;
    var vb, vo := ValidOnly(base), ValidOnly(opt);
    forall b, o ensures (SameWorkload(b, o) <==> WorkloadKept(b, o)) && (SameMethod(b, o) <==> TimedTheSame(b, o)) {
      KeptOutright(b, o);
    }
    PairsInRange(PairsFor(vb, vo, true), |vb|, |vo|);
    SomeInvalid(base);
    SomeInvalid(opt);
  }

  lemma KeptOutright(b: Case, o: Case)
    ensures (SameWorkload(b, o) <==> WorkloadKept(b, o)) && (SameMethod(b, o) <==> TimedTheSame(b, o))
  {
    WorkloadOutright(b, o);
    MethodOutright(b, o);
  }

  lemma SomeInvalid(cases: seq<Case>)
    ensures ValidOnly(cases) != cases ==> exists c :: c in cases && !(c.time.Finite? && c.time.ms > 0.0)
  {
    hide ValidOnly;
    if forall c :: c in cases ==> c.time.Finite? && c.time.ms > 0.0 {
      AllValidAreKept(cases);
    }
  }
}
