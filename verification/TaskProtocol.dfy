/** Command evidence: src/task_protocol.py. A report is what one command printed, an action's result is the
    merge of its commands' reports, and the manifest is the case list captured from the task check. */
module TaskProtocol {
  import opened Wrappers
  import opened JsonValues

  datatype Role = Task | Baseline | Candidate

  datatype Action = ValidateTask | Compile | Correctness | Performance

  type Metadata = Option<map<string, Value>>

  datatype Row = Row(id: string, pass: bool, failureKind: Option<string>, checks: seq<string>,
                     shape: Option<Value>, dtype: Option<Value>, params: Option<Value>, metrics: Option<Value>,
                     time: Option<real>, method_: Option<string>, metadata: Metadata)

  datatype Report = Report(role: Role, action: Action, pass: bool, cases: seq<Row>, reason: Option<Value>,
                           failureKind: Option<string>, metadata: Metadata)

  datatype ActionResult = ActionResult(role: Role, action: Action, pass: bool, cases: seq<Row>,
                                       failureKind: Option<string>, commands: seq<Metadata>)

  datatype Manifest = Manifest(cases: seq<Row>)

  datatype Rejection = NoResults | MixedActions | DuplicateCase | NotATaskCheck | NoPerformanceCases

  const TIMING_METHODS: set<string> := {"cuda_graph", "cuda_event_fallback"}

  // ---- The rules for the rows of one report ----

  /** White space as str.strip knows it: every character that Unicode counts as a space or separator. */
  predicate IsBlank(c: char) {
    var u := c as int;
    || 0x09 <= u <= 0x0D || 0x1C <= u <= 0x20 || u == 0x85 || u == 0xA0 || u == 0x1680
    || 0x2000 <= u <= 0x200A || u == 0x2028 || u == 0x2029 || u == 0x202F || u == 0x205F || u == 0x3000
  }

  predicate Nonblank(s: string) {
    exists k :: 0 <= k < |s| && !IsBlank(s[k])
  }

  predicate IsText(v: Option<Value>) {
    v.Some? && v.value.Text? && Nonblank(v.value.s)
  }

  predicate Distinct<T(==)>(s: seq<T>) {
    forall i, j :: 0 <= i < j < |s| ==> s[i] != s[j]
  }

  function Ids(rows: seq<Row>): (ids: seq<string>)
    ensures |ids| == |rows| && forall k :: 0 <= k < |rows| ==> ids[k] == rows[k].id
  {
    if rows == [] then [] else Ids(rows[..|rows| - 1]) + [rows[|rows| - 1].id]
  }

  predicate ChecksAllowed(checks: seq<string>) {
    && checks != [] && Distinct(checks)
    && (forall k :: 0 <= k < |checks| ==> checks[k] == "correctness" || checks[k] == "performance")
    && ("performance" in checks ==> "correctness" in checks)
  }

  predicate RowAllowed(report: Report, row: Row) {
    && Nonblank(row.id)
    && (report.pass ==> row.pass)
    && (row.params.Some? ==> row.params.value.Object?)
    && (row.dtype.Some? ==> IsText(row.dtype))
    && (row.metrics.Some? ==> row.metrics.value.Object?)
    && (report.action == ValidateTask ==> ChecksAllowed(row.checks))
    && (report.action == Performance && row.pass ==>
          && row.time.Some? && row.time.value > 0.0
          && row.method_.Some? && row.method_.value in TIMING_METHODS)
  }

  predicate ReportAllowed(report: Report) {
    && (!report.pass ==> IsText(report.reason))
    && (report.failureKind.Some? ==> Nonblank(report.failureKind.value))
    && (report.pass ==> report.failureKind.None?)
    && (report.pass && report.action != Compile ==> report.cases != [])
    && Distinct(Ids(report.cases))
    && forall k :: 0 <= k < |report.cases| ==> RowAllowed(report, report.cases[k])
  }

  /** The checking loop over the rows of a decoded report. */
  method CheckReport(report: Report) returns (ok: bool)
    ensures ok <==> ReportAllowed(report)
  {
    if !report.pass && !IsText(report.reason) {
      return false;
    }
    if report.failureKind.Some? && (!Nonblank(report.failureKind.value) || report.pass) {
      return false;
    }
    if report.pass && report.action != Compile && report.cases == [] {
      return false;
    }
    var ids: set<string> := {};
    var n := 0;
    while n < |report.cases|
      invariant 0 <= n <= |report.cases|
      invariant forall id :: id in ids <==> id in Ids(report.cases)[..n]
      invariant Distinct(Ids(report.cases)[..n])
      invariant forall k :: 0 <= k < n ==> RowAllowed(report, report.cases[k])
    {
      var row := report.cases[n];
      assert row.id == Ids(report.cases)[n];
      assert Ids(report.cases)[..n + 1] == Ids(report.cases)[..n] + [row.id];
      if row.id in ids || !RowAllowed(report, row) {
        return false;
      }
      ids := ids + {row.id};
      n := n + 1;
    }
    return true;
  }

  // ---- Merging the reports of one action's commands ----

  function AllCases(reports: seq<Report>): seq<Row> {
    if reports == [] then [] else AllCases(reports[..|reports| - 1]) + reports[|reports| - 1].cases
  }

  predicate Failed(report: Report) {
    !report.pass
  }

  function Kinds(reports: seq<Report>): set<Option<string>> {
    set k | 0 <= k < |reports| && Failed(reports[k]) :: reports[k].failureKind
  }

  lemma OneElement<T>(s: set<T>)
    ensures |s| == 1 ==> forall x, y :: x in s && y in s ==> x == y
  {
    if |s| == 1 {
      var x :| x in s;
      assert |s - {x}| == 0;
    }
  }

  /** The failure kind all failed commands share, if there is only one. */
  function OnlyKind(kinds: set<Option<string>>): Option<string> {
    if |kinds| != 1 then None
    else
      OneElement(kinds);
      var k :| k in kinds;
      k
  }

  predicate SameAction(reports: seq<Report>) {
    forall k :: 0 <= k < |reports| ==> reports[k].role == reports[0].role && reports[k].action == reports[0].action
  }

  function CommandMetadata(reports: seq<Report>): (m: seq<Metadata>)
    ensures |m| == |reports| && forall k :: 0 <= k < |m| ==> m[k] == reports[k].metadata
  {
    seq(|reports|, k requires 0 <= k < |reports| => reports[k].metadata)
  }

  function Merge(reports: seq<Report>): (r: Result<ActionResult, Rejection>)
    ensures r.Ok? <==> reports != [] && SameAction(reports) && Distinct(Ids(AllCases(reports)))
    ensures r.Ok? ==> r.value.role == reports[0].role && r.value.action == reports[0].action
    ensures r.Ok? ==> (r.value.pass <==> forall k :: 0 <= k < |reports| ==> reports[k].pass)
  {
    if reports == [] then Err(NoResults)
    else if !SameAction(reports) then Err(MixedActions)
    else if !Distinct(Ids(AllCases(reports))) then Err(DuplicateCase)
    else Ok(ActionResult(reports[0].role, reports[0].action, forall k :: 0 <= k < |reports| ==> reports[k].pass,
                         AllCases(reports), OnlyKind(Kinds(reports)),
                         CommandMetadata(reports)))
  }

  lemma MergedIs(reports: seq<Report>)
    requires Merge(reports).Ok?
    ensures var x := Merge(reports).value;
            && reports != [] && x.cases == AllCases(reports)
            && (x.pass <==> forall k :: 0 <= k < |reports| ==> reports[k].pass)
  {
  }

  lemma IdsSnoc(rows: seq<Row>, row: Row)
    ensures Ids(rows + [row]) == Ids(rows) + [row.id]
  {
  }

  lemma RepeatedId(rows: seq<Row>, row: Row, rest: seq<Row>)
    requires row.id in Ids(rows)
    ensures !Distinct(Ids(rows + [row] + rest))
  {
    var all := rows + [row] + rest;
    var k :| 0 <= k < |rows| && Ids(rows)[k] == row.id;
    assert all[k] == rows[k] && all[|rows|] == row;
    assert Ids(all)[k] == Ids(all)[|rows|];
  }

  lemma PrefixDistinct(rows: seq<Row>, all: seq<Row>)
    requires rows <= all && Distinct(Ids(all))
    ensures Distinct(Ids(rows))
  {
  }

  lemma {:induction false} AllCasesPrefix(reports: seq<Report>, n: nat)
    requires n <= |reports|
    ensures AllCases(reports[..n]) <= AllCases(reports)
    decreases |reports|
  {
    var k := |reports| - 1;
    if n <= k {
      assert reports[..k][..n] == reports[..n];
      AllCasesPrefix(reports[..k], n);
    } else {
      assert reports[..n] == reports;
    }
  }

  /** The inner loop: appends the rows of one command, unless an identifier has occurred before. */
  method AddCases(before: seq<Row>, seen: set<string>, more: seq<Row>)
    returns (ok: bool, cases: seq<Row>, ids: set<string>)
    requires Distinct(Ids(before)) && forall id :: id in seen <==> id in Ids(before)
    ensures ok <==> Distinct(Ids(before + more))
    ensures ok ==> cases == before + more && forall id :: id in ids <==> id in Ids(cases)
  {
    hide Ids;
    ids, cases := seen, before;
    var m := 0;
    while m < |more|
      invariant 0 <= m <= |more|
      invariant cases == before + more[..m] && Distinct(Ids(cases))
      invariant forall id :: id in ids <==> id in Ids(cases)
    {
      var row := more[m];
      IdsSnoc(cases, row);
      if row.id in ids {
        RepeatedId(cases, row, more[m + 1..]);
        assert before + more == cases + [row] + more[m + 1..];
        return false, cases, ids;
      }
      ids := ids + {row.id};
      cases := cases + [row];
      m := m + 1;
    }
    assert more[..m] == more;
    ok := true;
  }

  /** The merging loop: every case identifier may occur once across all the commands. */
  method MergeCommandResults(reports: seq<Report>) returns (r: Result<ActionResult, Rejection>)
    ensures r.Ok? <==> Merge(reports).Ok?
    ensures r.Ok? ==> r == Merge(reports)
  {
    hide Ids, Distinct, OnlyKind, Kinds, AllCases, CommandMetadata;
    if reports == [] {
      return Err(NoResults);
    }
    var ids: set<string>, cases: seq<Row>, pass := {}, [], true;
    var kinds: set<Option<string>>, commands: seq<Metadata> := {}, [];
    NothingMerged(reports);
    var n := 0;
    while n < |reports|
      invariant 0 <= n <= |reports|
      invariant forall k :: 0 <= k < n ==> reports[k].role == reports[0].role && reports[k].action == reports[0].action
      invariant cases == AllCases(reports[..n]) && Distinct(Ids(cases))
      invariant forall id :: id in ids <==> id in Ids(cases)
      invariant pass <==> forall k :: 0 <= k < n ==> reports[k].pass
      invariant kinds == Kinds(reports[..n])
      invariant commands == CommandMetadata(reports[..n])
    {
      var report := reports[n];
      if report.role != reports[0].role || report.action != reports[0].action {
        return Err(MixedActions);
      }
      CasesStep(reports, n);
      var ok;
      ok, cases, ids := AddCases(cases, ids, report.cases);
      if !ok {
        return Err(DuplicateCase);
      }
      KindsSnoc(reports, n);
      MetadataSnoc(reports, n);
      kinds := if report.pass then kinds else kinds + {report.failureKind};
      pass := pass && report.pass;
      commands := commands + [report.metadata];
      n := n + 1;
    }
    assert reports[..n] == reports;
    r := Ok(ActionResult(reports[0].role, reports[0].action, pass, cases, OnlyKind(kinds), commands));
  }

  lemma NothingMerged(reports: seq<Report>)
    ensures AllCases(reports[..0]) == [] && Distinct(Ids([])) && Kinds(reports[..0]) == {} && Ids([]) == []
    ensures CommandMetadata(reports[..0]) == []
  {
  }

  lemma CasesStep(reports: seq<Report>, n: nat)
    requires n < |reports|
    ensures AllCases(reports[..n + 1]) == AllCases(reports[..n]) + reports[n].cases
    ensures Distinct(Ids(AllCases(reports))) ==> Distinct(Ids(AllCases(reports[..n + 1])))
  {
    hide Ids, Distinct;
    assert reports[..n + 1][..n] == reports[..n];
    AllCasesPrefix(reports, n + 1);
    if Distinct(Ids(AllCases(reports))) {
      PrefixDistinct(AllCases(reports[..n + 1]), AllCases(reports));
    }
  }

  lemma MetadataSnoc(reports: seq<Report>, n: nat)
    requires n < |reports|
    ensures CommandMetadata(reports[..n + 1]) == CommandMetadata(reports[..n]) + [reports[n].metadata]
  {
  }

  lemma KindsSnoc(reports: seq<Report>, n: nat)
    requires n < |reports|
    ensures Kinds(reports[..n + 1])
            == if reports[n].pass then Kinds(reports[..n]) else Kinds(reports[..n]) + {reports[n].failureKind}
  {
  }

  // ---- The manifest ----

  function FromResult(result: ActionResult): (m: Result<Manifest, Rejection>)
  {
    if !(result.role == Task && result.action == ValidateTask && result.pass) then Err(NotATaskCheck)
    else if !exists k :: 0 <= k < |result.cases| && "performance" in result.cases[k].checks then
      Err(NoPerformanceCases)
    else Ok(Manifest(result.cases))
  }

  function ById(rows: seq<Row>): (m: map<string, Row>)
    ensures forall id :: id in m <==> id in Ids(rows)
    ensures forall id :: id in m ==> m[id] in rows && m[id].id == id
  {
    if rows == [] then map[]
    else
      var last := rows[|rows| - 1];
      ById(rows[..|rows| - 1])[last.id := last]
  }

  datatype Identity = Identity(shape: Option<Value>, dtype: Option<Value>, params: Option<Value>)

  function IdentityOf(row: Row): Identity {
    Identity(row.shape, row.dtype, row.params)
  }

  function CheckName(action: Action): string {
    match action
    case ValidateTask => "validate-task"
    case Compile => "compile"
    case Correctness => "correctness"
    case Performance => "performance"
  }

  /** CaseManifest.validate without its message: true when it raises nothing. */
  predicate Accepts(m: Manifest, result: ActionResult) {
    var rows := ById(m.cases);
    var actual := Ids(result.cases);
    && result.action != ValidateTask
    && Distinct(actual)
    && (if result.action == Compile then forall id :: id in actual ==> id in rows
        else && (forall id :: id in actual ==> id in rows && CheckName(result.action) in rows[id].checks)
             && (forall id :: id in rows && CheckName(result.action) in rows[id].checks ==> id in actual))
    && (forall k :: 0 <= k < |result.cases| ==> IdentityOf(result.cases[k]) == IdentityOf(rows[result.cases[k].id]))
  }

  /** The declared exception for a baseline whose numerics differ; it never turns a FAIL into a PASS. */
  predicate BaselineCorrectnessAccepted(result: ActionResult, diagnosticPolicy: bool, initialPhase: bool,
                                        m: Manifest)
  {
    && result.role == Baseline && result.action == Correctness && Accepts(m, result)
    && (result.pass
        || (initialPhase && diagnosticPolicy && result.failureKind == Some("numerical_mismatch")
            && (exists k :: 0 <= k < |result.cases| && !result.cases[k].pass)
            && (forall k :: 0 <= k < |result.cases| && !result.cases[k].pass ==>
                  result.cases[k].failureKind == Some("numerical_mismatch"))))
  }
}
