/** From command evidence to a score: performance_cases of src/task_protocol.py feeding src/testcases.py. */
module ScoredEvidence {
  import opened Wrappers
  import opened JsonValues
  import opened PythonValues
  import opened TaskProtocol
  import opened CaseMatching
  import opened Speedup
  import opened ScoreMeaning

  // ---- performance_cases ----

  function With(fields: map<string, Value>, key: string, v: Option<Value>): map<string, Value> {
    if v.Some? then fields[key := v.value] else fields
  }

  function RowText(s: Option<string>): Option<Value> {
    if s.Some? then Some(Text(s.value)) else None
  }

  /** The row's own metadata, with the declared fields written over it. */
  function RowMetadata(row: Row): map<string, Value> {
    var own := if row.metadata.Some? then row.metadata.value else map[];
    With(With(With(With(own, "dtype", row.dtype), "params", row.params), "metrics", row.metrics),
         "benchmark_method", RowText(row.method_))
  }

  predicate TimedRow(row: Row) {
    && row.time.Some? && row.time.value > 0.0
    && row.method_.Some? && row.method_.value in TIMING_METHODS && Nonblank(row.id)
  }

  function CaseOf(row: Row): Case
    requires TimedRow(row)
  {
    Case(row.id, if row.shape.Some? then row.shape.value else Null, Finite(row.time.value), Some(RowMetadata(row)))
  }

  /** What a row declares under one name. */
  function DeclaredAs(row: Row, key: string): Option<Value> {
    if key == "dtype" then row.dtype
    else if key == "params" then row.params
    else if key == "metrics" then row.metrics
    else if key == "benchmark_method" then RowText(row.method_)
    else None
  }

  /** A case holds what its row declares, and under every other name what the row's own metadata says. */
  lemma CaseHoldsTheRow(row: Row, key: string)
    requires TimedRow(row)
    ensures var c := CaseOf(row);
            && c.id == row.id && c.time == Finite(row.time.value)
            && (if row.shape.Some? then c.shape == row.shape.value else c.shape == Null)
            && c.metadata.Some?
            && (key in c.metadata.value <==> DeclaredAs(row, key).Some? || Own(row, key).Some?)
            && (key in c.metadata.value ==>
                  Some(c.metadata.value[key])
                  == if DeclaredAs(row, key).Some? then DeclaredAs(row, key) else Own(row, key))
  {
    assert "dtype" != "params" && "dtype" != "metrics" && "params" != "metrics";
    assert |"benchmark_method"| > |"metrics"|;
  }

  predicate TimedRows(rows: seq<Row>) {
    forall k :: 0 <= k < |rows| ==> TimedRow(rows[k])
  }

  function CasesOf(rows: seq<Row>): (cases: seq<Case>)
    requires TimedRows(rows)
    ensures |cases| == |rows| && forall k :: 0 <= k < |rows| ==> cases[k] == CaseOf(rows[k])
  {
    seq(|rows|, k requires 0 <= k < |rows| => CaseOf(rows[k]))
  }

  method PerformanceCases(result: ActionResult) returns (cases: Option<seq<Case>>)
    requires result.pass && result.action == Performance ==> TimedRows(result.cases)
    ensures cases.Some? <==> result.action == Performance && result.pass
    ensures cases.Some? ==> cases.value == CasesOf(result.cases)
  {
    if result.action != Performance || !result.pass {
      return None;
    }
    var made: seq<Case> := [];
    for n := 0 to |result.cases|
      invariant made == CasesOf(result.cases)[..n]
    {
      var row := result.cases[n];
      var metadata := if row.metadata.Some? then row.metadata.value else map[];
      metadata := With(metadata, "dtype", row.dtype);
      metadata := With(metadata, "params", row.params);
      metadata := With(metadata, "metrics", row.metrics);
      metadata := With(metadata, "benchmark_method", RowText(row.method_));
      made := made + [Case(row.id, if row.shape.Some? then row.shape.value else Null, Finite(row.time.value),
                           Some(metadata))];
    }
    return Some(made);
  }

  // ---- Passing performance evidence ----

  /** A passing performance result merged from reports the parser accepted. */
  ghost predicate Evidence(reports: seq<Report>, result: ActionResult) {
    && (forall k :: 0 <= k < |reports| ==> ReportAllowed(reports[k]))
    && Merge(reports) == Ok(result) && result.pass && result.action == Performance
  }

  lemma {:induction false} MergedRowsAreTimed(reports: seq<Report>)
    requires forall k :: 0 <= k < |reports| ==> ReportAllowed(reports[k]) && reports[k].pass
    requires forall k :: 0 <= k < |reports| ==> reports[k].action == Performance
    ensures TimedRows(AllCases(reports))
    ensures reports != [] ==> AllCases(reports) != []
  {
    if reports != [] {
      var n := |reports| - 1;
      MergedRowsAreTimed(reports[..n]);
      assert ReportAllowed(reports[n]);
      assert forall k :: 0 <= k < |reports[n].cases| ==> RowAllowed(reports[n], reports[n].cases[k]);
    }
  }

  lemma EvidenceIsTimed(reports: seq<Report>, result: ActionResult)
    requires Evidence(reports, result)
    ensures TimedRows(result.cases) && result.cases != [] && Distinct(Ids(result.cases))
  {
    hide ReportAllowed, OnlyKind, Kinds, Ids, TimedRow;
    assert forall k :: 0 <= k < |reports| ==> reports[k].action == reports[0].action;
    MergedRowsAreTimed(reports);
  }

  // ---- Pairing id for id ----

  function Own(row: Row, key: string): Option<Value> {
    if row.metadata.Some? && key in row.metadata.value then Some(row.metadata.value[key]) else None
  }

  /** No row carries a true synthetic-id mark in its own metadata. */
  predicate Unmarked(rows: seq<Row>) {
    forall k :: 0 <= k < |rows| ==> Own(rows[k], SYNTHETIC).None? || !Truthy(Own(rows[k], SYNTHETIC).value)
  }

  lemma IdIsTheKey(row: Row)
    requires TimedRow(row) && (Own(row, SYNTHETIC).None? || !Truthy(Own(row, SYNTHETIC).value))
    ensures KeyOf(ById, CaseOf(row)) == Some(Text(row.id))
  {
  }

  ghost function SameIds(b: seq<Row>, o: seq<Row>): (pairs: set<Pair>)
    ensures forall i: nat, j: nat :: (i, j) in pairs <==> i < |b| && j < |o| && b[i].id == o[j].id
  {
    set i: nat, j: nat | i < |b| && j < |o| && b[i].id == o[j].id :: (i, j)
  }

  lemma IdPassPairsIds(b: seq<Row>, o: seq<Row>)
    requires TimedRows(b) && TimedRows(o) && Unmarked(b) && Unmarked(o)
    requires Distinct(Ids(b)) && Distinct(Ids(o))
    ensures Pass(ById, CasesOf(b), CasesOf(o), {}) == SameIds(b, o)
  {
    hide KeyOf, CaseOf, TimedRow, Ids;
    var cb, co := CasesOf(b), CasesOf(o);
    assert Firsts({}) == {} && Seconds({}) == {};
    forall i: nat | i < |b| ensures Sole(ById, cb, {}, i) && KeyOf(ById, cb[i]) == Some(Text(b[i].id)) {
      DistinctIdsAreSole(b, i);
    }
    forall j: nat | j < |o| ensures Sole(ById, co, {}, j) && KeyOf(ById, co[j]) == Some(Text(o[j].id)) {
      DistinctIdsAreSole(o, j);
    }
    forall i: nat, j: nat ensures (i, j) in Pass(ById, cb, co, {}) <==> (i, j) in SameIds(b, o) {
    }
    assert forall p: Pair :: p == (p.0, p.1);
  }

  lemma DistinctIdsAreSole(rows: seq<Row>, i: nat)
    requires TimedRows(rows) && Unmarked(rows) && Distinct(Ids(rows)) && i < |rows|
    ensures Sole(ById, CasesOf(rows), {}, i) && KeyOf(ById, CasesOf(rows)[i]) == Some(Text(rows[i].id))
  {
    hide KeyOf, CaseOf, TimedRow, Ids, Truthy;
    forall k | 0 <= k < |rows| ensures KeyOf(ById, CasesOf(rows)[k]) == Some(Text(rows[k].id)) {
      IdIsTheKey(rows[k]);
    }
    assert forall k :: 0 <= k < |rows| ==> rows[k].id == Ids(rows)[k];
  }

  /** Once every case is paired, later passes and the fallback add nothing. */
  lemma NothingMoreToPair(base: seq<Case>, opt: seq<Case>, pairs: set<Pair>)
    requires Pass(ById, base, opt, {}) == pairs
    requires forall i: nat :: i < |base| ==> i in Firsts(pairs)
    requires forall j: nat :: j < |opt| ==> j in Seconds(pairs)
    ensures PairsFor(base, opt, true) == pairs
  {
  }

  /** Both results cover exactly the performance cases of the manifest. */
  lemma ManifestFixesIds(m: Manifest, b: ActionResult, o: ActionResult, i: nat)
    requires b.action == o.action == Performance && Accepts(m, b) && Accepts(m, o) && i < |b.cases|
    ensures exists j: nat :: j < |o.cases| && o.cases[j].id == b.cases[i].id
  {
    var id := Ids(b.cases)[i];
    assert id in Ids(b.cases) && id in Ids(o.cases);
    var j :| 0 <= j < |o.cases| && Ids(o.cases)[j] == id;
    assert o.cases[j].id == b.cases[i].id;
  }

  lemma IdsAreFull(m: Manifest, b: ActionResult, o: ActionResult)
    requires b.action == o.action == Performance && Accepts(m, b) && Accepts(m, o)
    ensures var pairs := SameIds(b.cases, o.cases);
            && (forall i: nat :: i < |b.cases| ==> i in Firsts(pairs))
            && (forall j: nat :: j < |o.cases| ==> j in Seconds(pairs))
            && PartialInjection(pairs, |b.cases|, |o.cases|)
  {
    hide Accepts, Ids;
    var pairs := SameIds(b.cases, o.cases);
    forall i: nat | i < |b.cases| ensures i in Firsts(pairs) {
      ManifestFixesIds(m, b, o, i);
      var j: nat :| j < |o.cases| && o.cases[j].id == b.cases[i].id;
      assert (i, j) in pairs;
    }
    forall j: nat | j < |o.cases| ensures j in Seconds(pairs) {
      ManifestFixesIds(m, o, b, j);
      var i: nat :| i < |b.cases| && b.cases[i].id == o.cases[j].id;
      assert (i, j) in pairs;
    }
    DistinctFromAccepts(m, b);
    DistinctFromAccepts(m, o);
  }

  lemma DistinctFromAccepts(m: Manifest, r: ActionResult)
    requires Accepts(m, r)
    ensures forall i, j :: 0 <= i < |r.cases| && 0 <= j < |r.cases| && r.cases[i].id == r.cases[j].id ==> i == j
    ensures Distinct(Ids(r.cases))
  {
  }

  /** Passing results valid against one manifest pair id for id with nothing left over, whatever the order of the
      rows and however they were split over commands. */
  lemma ManifestPairsIds(m: Manifest, rb: seq<Report>, b: ActionResult, ro: seq<Report>, o: ActionResult)
    requires Evidence(rb, b) && Evidence(ro, o) && Accepts(m, b) && Accepts(m, o)
    requires Unmarked(b.cases) && Unmarked(o.cases)
    ensures TimedRows(b.cases) && TimedRows(o.cases)
    ensures PairsFor(CasesOf(b.cases), CasesOf(o.cases), true) == SameIds(b.cases, o.cases)
    ensures Full(SameIds(b.cases, o.cases), |b.cases|, |o.cases|)
  {
    hide Accepts, Evidence, Unmarked, Pass, Ids, TimedRow, PairsFor;
    EvidenceActions(rb, b);
    EvidenceActions(ro, o);
    EvidenceIsTimed(rb, b);
    EvidenceIsTimed(ro, o);
    var pairs := SameIds(b.cases, o.cases);
    IdPassPairsIds(b.cases, o.cases);
    IdsAreFull(m, b, o);
    NothingMoreToPair(CasesOf(b.cases), CasesOf(o.cases), pairs);
    SidesHaveAllPairs(pairs, |b.cases|, |o.cases|);
    SideSizes(pairs, |b.cases|, |o.cases|);
  }

  lemma EvidenceActions(reports: seq<Report>, result: ActionResult)
    requires Evidence(reports, result)
    ensures result.action == Performance
  {
  }

  lemma SideSizes(pairs: set<Pair>, m: nat, n: nat)
    requires PartialInjection(pairs, m, n)
    requires forall i: nat :: i < m ==> i in Firsts(pairs)
    requires forall j: nat :: j < n ==> j in Seconds(pairs)
    ensures |Firsts(pairs)| == m && |Seconds(pairs)| == n
  {
    assert forall p: Pair :: p in pairs ==> (p.0, p.1) in pairs;
    assert Firsts(pairs) == Numbers(m);
    assert Seconds(pairs) == Numbers(n);
  }

  // ---- Workloads and methods of such pairs ----

  /** A workload field a row does not declare is taken from the row's own metadata. */
  predicate ResidueAgrees(b: Row, o: Row) {
    && (b.dtype.None? ==> OwnAgrees(b, o, "dtype"))
    && (b.params.None? ==> OwnAgrees(b, o, "params"))
  }

  predicate OwnAgrees(b: Row, o: Row, key: string) {
    match (Own(b, key), Own(o, key))
    case (None, None) => true
    case (Some(u), Some(v)) => Equal(u, v)
    case _ => false
  }

  /** With equal declared identity, two rows have the same workload exactly when their residues agree. */
  lemma ResidueDecides(b: Row, o: Row)
    requires TimedRow(b) && TimedRow(o) && IdentityOf(b) == IdentityOf(o)
    ensures SameWorkload(CaseOf(b), CaseOf(o)) <==> ResidueAgrees(b, o)
  {
    hide Equal, TimedRow;
    EqualIsReflexive();
    MetadataFields(b);
    MetadataFields(o);
    var cb, co := CaseOf(b), CaseOf(o);
    assert !Changed(cb, co, Shape);
    assert Changed(cb, co, Dtype) <==> !(b.dtype.None? ==> OwnAgrees(b, o, "dtype"));
    assert Changed(cb, co, Params) <==> !(b.params.None? ==> OwnAgrees(b, o, "params"));
  }

  lemma EqualIsReflexive()
    ensures forall v :: Equal(v, v)
  {
  }

  lemma MetadataFields(row: Row)
    requires TimedRow(row)
    ensures Reported(CaseOf(row), Dtype) == if row.dtype.Some? then row.dtype else Own(row, "dtype")
    ensures Reported(CaseOf(row), Params) == if row.params.Some? then row.params else Own(row, "params")
    ensures MethodOf(CaseOf(row)) == Text(row.method_.value)
  {
  }

  lemma SameIdSameIdentity(m: Manifest, b: ActionResult, o: ActionResult, i: nat, j: nat)
    requires Accepts(m, b) && Accepts(m, o) && b.action == o.action == Performance
    requires i < |b.cases| && j < |o.cases| && b.cases[i].id == o.cases[j].id
    ensures IdentityOf(b.cases[i]) == IdentityOf(o.cases[j])
  {
    hide Ids, TaskProtocol.ById;
  }

  /** Two rows were timed by one method, and neither metadata says the task's own methods disagreed. */
  predicate TimedAlike(b: Row, o: Row) {
    && b.method_ == o.method_
    && Own(b, "benchmark_method_consistent") != Some(Bool(false))
    && Own(o, "benchmark_method_consistent") != Some(Bool(false))
  }

  lemma MethodsDecide(b: Row, o: Row)
    requires TimedRow(b) && TimedRow(o)
    ensures SameMethod(CaseOf(b), CaseOf(o)) <==> TimedAlike(b, o)
  {
  }

  ghost predicate ResiduesAgree(b: seq<Row>, o: seq<Row>) {
    forall i: nat, j: nat :: (i, j) in SameIds(b, o) ==> ResidueAgrees(b[i], o[j])
  }

  ghost predicate AllTimedAlike(b: seq<Row>, o: seq<Row>) {
    forall i: nat, j: nat :: (i, j) in SameIds(b, o) ==> TimedAlike(b[i], o[j])
  }

  /** The verdicts on two passing results of one manifest, read off their rows. */
  lemma EvidenceVerdicts(m: Manifest, rb: seq<Report>, b: ActionResult, ro: seq<Report>, o: ActionResult)
    requires Evidence(rb, b) && Evidence(ro, o) && Accepts(m, b) && Accepts(m, o)
    requires Unmarked(b.cases) && Unmarked(o.cases)
    ensures TimedRows(b.cases) && TimedRows(o.cases)
    ensures var cb, co := CasesOf(b.cases), CasesOf(o.cases);
            var pairs := PairsFor(cb, co, true);
            && Full(pairs, |cb|, |co|) && AllTimed(cb, co, pairs)
            && (WorkloadsEqual(cb, co, pairs) <==> ResiduesAgree(b.cases, o.cases))
            && (MethodsEqual(cb, co, pairs) <==> AllTimedAlike(b.cases, o.cases))
  {
    hide Accepts, Evidence, Unmarked, CaseOf, PairsFor, ResidueAgrees, TimedAlike, SameWorkload, SameMethod, IdentityOf;
    ManifestPairsIds(m, rb, b, ro, o);
    EvidenceActions(rb, b);
    EvidenceActions(ro, o);
    var cb, co := CasesOf(b.cases), CasesOf(o.cases);
    forall i: nat, j: nat | (i, j) in SameIds(b.cases, o.cases)
      ensures SameWorkload(cb[i], co[j]) <==> ResidueAgrees(b.cases[i], o.cases[j])
      ensures SameMethod(cb[i], co[j]) <==> TimedAlike(b.cases[i], o.cases[j])
      ensures Timed(cb, co, (i, j))
    {
      SameIdSameIdentity(m, b, o, i, j);
      ResidueDecides(b.cases[i], o.cases[j]);
      MethodsDecide(b.cases[i], o.cases[j]);
      CaseTime(b.cases[i]);
      CaseTime(o.cases[j]);
    }
    assert forall p: Pair :: p == (p.0, p.1);
  }

  lemma CaseTime(row: Row)
    requires TimedRow(row)
    ensures Valid(CaseOf(row).time)
  {
  }

  /** No row carries an undeclared workload field in its own metadata. */
  predicate Clean(rows: seq<Row>) {
    forall k :: 0 <= k < |rows| ==> Own(rows[k], "dtype").None? && Own(rows[k], "params").None?
  }

  /** Clean rows of one manifest are always consistent. */
  lemma CleanEvidenceIsConsistent(m: Manifest, rb: seq<Report>, b: ActionResult, ro: seq<Report>, o: ActionResult)
    requires Evidence(rb, b) && Evidence(ro, o) && Accepts(m, b) && Accepts(m, o)
    requires Unmarked(b.cases) && Unmarked(o.cases) && Clean(b.cases) && Clean(o.cases)
    ensures TimedRows(b.cases) && TimedRows(o.cases)
    ensures var cb, co := CasesOf(b.cases), CasesOf(o.cases);
            var pairs := PairsFor(cb, co, true);
            pairs == SameIds(b.cases, o.cases) && Full(pairs, |cb|, |co|) && WorkloadsEqual(cb, co, pairs)
  {
    hide Accepts, Evidence, Unmarked, CaseOf, PairsFor, SameWorkload, TimedRow, Full, AllTimed, PartialInjection;
    ManifestPairsIds(m, rb, b, ro, o);
    EvidenceVerdicts(m, rb, b, ro, o);
  }

  /** Whether such evidence scores: exactly when residues agree and every case was timed alike on both sides. */
  lemma EvidenceScores(m: Manifest, rb: seq<Report>, b: ActionResult, ro: seq<Report>, o: ActionResult)
    requires Evidence(rb, b) && Evidence(ro, o) && Accepts(m, b) && Accepts(m, o)
    requires Unmarked(b.cases) && Unmarked(o.cases)
    ensures TimedRows(b.cases) && TimedRows(o.cases)
    ensures AverageSpeedup(CasesOf(b.cases), CasesOf(o.cases), true) > 0.0
            <==> ResiduesAgree(b.cases, o.cases) && AllTimedAlike(b.cases, o.cases)
  {
    hide Accepts, Evidence, Unmarked, CaseOf, PairsFor, WorkloadsEqual, MethodsEqual, AllTimed, AverageSpeedup,
         ResiduesAgree, AllTimedAlike, TimedRow, Full;
    EvidenceVerdicts(m, rb, b, ro, o);
    SpeedupMeansComparable(CasesOf(b.cases), CasesOf(o.cases), 0.0, 0.0);
  }

  /** On rows with the same id, the baseline took between lo and hi times as long. */
  ghost predicate RowsTake(b: seq<Row>, o: seq<Row>, lo: real, hi: real) {
    forall i: nat, j: nat ::
      i < |b| && j < |o| && b[i].id == o[j].id && b[i].time.Some? && o[j].time.Some? ==>
        lo * o[j].time.value <= b[i].time.value <= hi * o[j].time.value
  }

  /** And what it scores: the score lies between any bounds that the reported times keep, id for id. */
  lemma EvidenceScoreWithin(m: Manifest, rb: seq<Report>, b: ActionResult, ro: seq<Report>, o: ActionResult, lo: real,
                            hi: real)
    requires Evidence(rb, b) && Evidence(ro, o) && Accepts(m, b) && Accepts(m, o)
    requires Unmarked(b.cases) && Unmarked(o.cases) && RowsTake(b.cases, o.cases, lo, hi)
    ensures TimedRows(b.cases) && TimedRows(o.cases)
    ensures var r := AverageSpeedup(CasesOf(b.cases), CasesOf(o.cases), true); r > 0.0 ==> lo <= r <= hi
  {
    hide Accepts, Evidence, Unmarked, CaseOf, PairsFor, AverageSpeedup, TimedRow, Full, HasTime;
    ManifestPairsIds(m, rb, b, ro, o);
    var cb, co := CasesOf(b.cases), CasesOf(o.cases);
    forall i: nat, j: nat | (i, j) in SameIds(b.cases, o.cases)
      ensures cb[i].time.Finite? && co[j].time.Finite?
      ensures lo * co[j].time.ms <= cb[i].time.ms <= hi * co[j].time.ms
    {
      TimeOfRow(b.cases[i]);
      TimeOfRow(o.cases[j]);
    }
    if AverageSpeedup(cb, co, true) > 0.0 {
      ScoreWithin(cb, co, true, lo, hi);
    }
  }

  lemma TimeOfRow(row: Row)
    requires TimedRow(row)
    ensures row.time.Some? && CaseOf(row).time == Finite(row.time.value)
  {
  }

  /** The marks matter: cases without any key are not paired at all, unless there is one on each side. */
  lemma KeylessCasesAreNotPaired(base: seq<Case>, opt: seq<Case>)
    requires |base| != 1 || |opt| != 1
    requires forall s, k :: 0 <= k < |base| ==> KeyOf(s, base[k]).None?
    ensures PairsFor(base, opt, true) == {}
  {
  }

  lemma MarkedRowHasNoKey(row: Row)
    requires TimedRow(row) && row.shape.None? && row.params.None? && Own(row, "params").None?
    requires Own(row, SYNTHETIC) == Some(Bool(true))
    ensures forall s :: KeyOf(s, CaseOf(row)).None?
  {
  }
}
