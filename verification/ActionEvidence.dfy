/** What the evidence of one action says about its commands: run_action of src/task_execution.py, stated over what
    the commands printed. */
module ActionEvidence {
  import opened Wrappers
  import opened TaskProtocol
  import opened TaskSession

  // ---- The rows of merged reports ----

  lemma {:induction false} RowsOfBoth(a: seq<Report>, b: seq<Report>)
    ensures AllCases(a + b) == AllCases(a) + AllCases(b)
    decreases |b|
  {
    if b == [] {
      assert a + b == a;
    } else {
      var n := |b| - 1;
      assert (a + b)[..|a + b| - 1] == a + b[..n];
      RowsOfBoth(a, b[..n]);
    }
  }

  lemma RowsOfOne(report: Report)
    ensures AllCases([report]) == report.cases
  {
    assert [report][..0] == [];
  }

  /** The rows of every command stand together, between those of the commands before it and after it. */
  lemma RowsInOrder(reports: seq<Report>, k: nat)
    requires k < |reports|
    ensures AllCases(reports) == AllCases(reports[..k]) + reports[k].cases + AllCases(reports[k + 1..])
  {
    hide AllCases;
    ThreeParts(reports, k);
    RowsOfThree(reports[..k], reports[k], reports[k + 1..]);
  }

  lemma ThreeParts<T>(s: seq<T>, k: nat)
    requires k < |s|
    ensures s == s[..k] + [s[k]] + s[k + 1..]
  {
  }

  lemma RowsOfThree(a: seq<Report>, report: Report, b: seq<Report>)
    ensures AllCases(a + [report] + b) == AllCases(a) + report.cases + AllCases(b)
  {
    hide AllCases;
    RowsOfBoth(a + [report], b);
    RowsOfBoth(a, [report]);
    RowsOfOne(report);
  }

  // ---- Failure kinds ----

  /** A merged result has a failure kind exactly when all its failing commands report that one kind. */
  lemma MergedFailureKind(reports: seq<Report>, kind: string)
    requires Merge(reports).Ok?
    ensures Merge(reports).value.failureKind == Some(kind) <==>
              && (exists k :: 0 <= k < |reports| && !reports[k].pass)
              && forall k :: 0 <= k < |reports| && !reports[k].pass ==> reports[k].failureKind == Some(kind)
  {
    hide Merge;
    MergedKindIs(reports);
    var kinds := Kinds(reports);
    assert forall k :: 0 <= k < |reports| && !reports[k].pass ==> reports[k].failureKind in kinds;
    OneElement(kinds);
    if forall x :: x in kinds ==> x == Some(kind) {
      assert kinds <= {Some(kind)};
      if k :| 0 <= k < |reports| && !reports[k].pass {
        assert kinds == {Some(kind)};
      }
    }
    if |kinds| == 1 {
      var x :| x in kinds;
      assert exists k :: 0 <= k < |reports| && Failed(reports[k]);
    }
  }

  lemma MergedKindIs(reports: seq<Report>)
    requires Merge(reports).Ok?
    ensures Merge(reports).value.failureKind == OnlyKind(Kinds(reports))
  {
  }

  // ---- What a returned result says about the commands ----

  /** Which result an action has, in every case: n is the number of commands before the first that did not print an
      acceptable passing report. */
  lemma ActionFollowsItsCommands(role: Role, action: Action, manifest: Option<Manifest>, id: nat,
                                 outs: seq<CommandOutcome>, late: Option<Escape>, n: nat, reports: seq<Report>)
    requires PassedFirst(role, action, outs, n)
    requires n < |outs| ==> !(Usable(role, action, outs[n]) && outs[n].report.pass)
    requires Keeps(outs, if n < |outs| && Usable(role, action, outs[n]) then n + 1 else n, reports)
    ensures var r := RunAction(role, action, manifest, id, outs, late);
            if (action == Correctness || action == Performance) && manifest.None? then r == Failing
            else if n < |outs| && outs[n].Escaping? then r == Escaped(outs[n].kind)
            else if n < |outs| && !Usable(role, action, outs[n]) then r == Failing
            else if late.Some? then r == Escaped(late.value)
            else if reports == [] || !Distinct(Ids(AllCases(reports))) then r == Failing
            else
              var x := ActionResult(role, action, n == |outs|, AllCases(reports), OnlyKind(Kinds(reports)),
                                    CommandMetadata(reports));
              r == if manifest.Some? && action != ValidateTask && !Accepts(manifest.value, x) then Failing
                   else Returned(Executed(id, x, reports))
  {
    hide Collected, Usable, PassedFirst, Keeps, ReportAllowed, Accepts, FromParser, Distinct, Ids, AllCases, OnlyKind,
         Kinds, CommandMetadata, Merge;
    CollectedIs(role, action, outs, n, reports);
    if Collected(role, action, outs).AllRead? {
      MergedFields(role, action, outs, n, reports);
    }
  }

  lemma CollectedIs(role: Role, action: Action, outs: seq<CommandOutcome>, n: nat, reports: seq<Report>)
    requires PassedFirst(role, action, outs, n)
    requires n < |outs| ==> !(Usable(role, action, outs[n]) && outs[n].report.pass)
    requires Keeps(outs, if n < |outs| && Usable(role, action, outs[n]) then n + 1 else n, reports)
    ensures Collected(role, action, outs)
            == if n < |outs| && outs[n].Escaping? then Thrown(outs[n].kind)
               else if n < |outs| && !Usable(role, action, outs[n]) then Unreadable else AllRead(reports)
  {
    hide ReportAllowed;
    CollectedUpTo(role, action, outs, n);
    var c := Collected(role, action, outs);
    if c.AllRead? {
      assert c.reports == reports;
    }
  }

  lemma MergedFields(role: Role, action: Action, outs: seq<CommandOutcome>, n: nat, reports: seq<Report>)
    requires PassedFirst(role, action, outs, n)
    requires n < |outs| ==> Usable(role, action, outs[n]) && !outs[n].report.pass
    requires Keeps(outs, if n < |outs| then n + 1 else n, reports)
    ensures Merge(reports).Ok? <==> reports != [] && Distinct(Ids(AllCases(reports)))
    ensures Merge(reports).Ok? ==>
              Merge(reports).value
              == ActionResult(role, action, n == |outs|, AllCases(reports), OnlyKind(Kinds(reports)),
                              CommandMetadata(reports))
  {
    hide ReportAllowed, Distinct, Ids, AllCases, OnlyKind, Kinds, CommandMetadata;
    forall k | 0 <= k < |reports|
      ensures reports[k].role == role && reports[k].action == action && (reports[k].pass <==> k < n)
    {
      assert outs[k] == Reported(reports[k]) && Usable(role, action, outs[k]);
    }
  }

  lemma {:induction false} RowIsReported(reports: seq<Report>, row: Row)
    requires row in AllCases(reports)
    ensures exists k :: 0 <= k < |reports| && row in reports[k].cases
  {
    if reports != [] {
      var n := |reports| - 1;
      if row in reports[n].cases {
      } else {
        RowIsReported(reports[..n], row);
        var k :| 0 <= k < n && row in reports[..n][k].cases;
        assert row in reports[k].cases;
      }
    }
  }

  /** In a result that passes, every row passes. */
  lemma PassingRowsPass(x: Executed)
    requires FromParser(x.commands) && Merge(x.commands) == Ok(x.result) && x.result.pass
    ensures forall k :: 0 <= k < |x.result.cases| ==> x.result.cases[k].pass
  {
    hide Merge, Distinct, Ids, ChecksAllowed, Nonblank;
    MergedIs(x.commands);
    forall k | 0 <= k < |x.result.cases| ensures x.result.cases[k].pass {
      var row := x.result.cases[k];
      RowIsReported(x.commands, row);
      var c :| 0 <= c < |x.commands| && row in x.commands[c].cases;
      assert ReportAllowed(x.commands[c]);
      var j :| 0 <= j < |x.commands[c].cases| && x.commands[c].cases[j] == row;
      assert RowAllowed(x.commands[c], x.commands[c].cases[j]);
    }
  }

  // ---- The manifest ----

  predicate Requires(row: Row, action: Action) {
    action == Compile || (if action == Correctness then "correctness" else "performance") in row.checks
  }

  /** The row reports the case that this row of the manifest declares. */
  predicate Answers(row: Row, declared: Row, action: Action) {
    && row.id == declared.id && row.shape == declared.shape && row.dtype == declared.dtype
    && row.params == declared.params && Requires(declared, action)
  }

  ghost predicate Answered(rows: seq<Row>, declared: Row, action: Action) {
    exists k :: 0 <= k < |rows| && Answers(rows[k], declared, action)
  }

  ghost predicate IsDeclared(m: Manifest, row: Row, action: Action) {
    exists j :: 0 <= j < |m.cases| && Answers(row, m.cases[j], action)
  }

  /** A result is valid against a manifest exactly when no case occurs twice, every row answers a declared case of
      that check, and, beside a compile, every declared case of that check is answered. */
  lemma ManifestCovers(m: Manifest, result: ActionResult)
    requires Distinct(Ids(m.cases)) && result.action != ValidateTask
    ensures Accepts(m, result) <==>
              && (forall i, j :: 0 <= i < j < |result.cases| ==> result.cases[i].id != result.cases[j].id)
              && (forall k :: 0 <= k < |result.cases| ==> IsDeclared(m, result.cases[k], result.action))
              && (result.action != Compile ==>
                    forall j :: 0 <= j < |m.cases| && Requires(m.cases[j], result.action) ==>
                      Answered(result.cases, m.cases[j], result.action))
  {
    hide Accepts, IsDeclared, Answered, Distinct, Ids;
    DistinctIds(result.cases);
    if Accepts(m, result) {
      AcceptedIsCovered(m, result);
    } else if Distinct(Ids(result.cases)) {
      CoveredIsAccepted(m, result);
    }
  }

  lemma AcceptedIsCovered(m: Manifest, result: ActionResult)
    requires Distinct(Ids(m.cases)) && Accepts(m, result)
    ensures Distinct(Ids(result.cases))
    ensures forall k :: 0 <= k < |result.cases| ==> IsDeclared(m, result.cases[k], result.action)
    ensures result.action != Compile ==>
              forall j :: 0 <= j < |m.cases| && Requires(m.cases[j], result.action) ==>
                Answered(result.cases, m.cases[j], result.action)
  {
    hide Ids, TaskProtocol.ById, Distinct;
    var rows := TaskProtocol.ById(m.cases);
    DeclaredRows(m);
    ActualIds(result.cases);
    forall k | 0 <= k < |result.cases| ensures IsDeclared(m, result.cases[k], result.action) {
      var id := result.cases[k].id;
      assert id in Ids(result.cases) && IdentityOf(result.cases[k]) == IdentityOf(rows[id]);
      var j :| 0 <= j < |m.cases| && m.cases[j].id == id;
      assert Answers(result.cases[k], m.cases[j], result.action);
    }
    forall j | result.action != Compile && 0 <= j < |m.cases| && Requires(m.cases[j], result.action)
      ensures Answered(result.cases, m.cases[j], result.action)
    {
      var id := m.cases[j].id;
      assert id in rows && id in Ids(result.cases);
      var k :| 0 <= k < |result.cases| && result.cases[k].id == id;
      assert IdentityOf(result.cases[k]) == IdentityOf(rows[id]);
      assert Answers(result.cases[k], m.cases[j], result.action);
    }
  }

  lemma CoveredIsAccepted(m: Manifest, result: ActionResult)
    requires Distinct(Ids(m.cases)) && Distinct(Ids(result.cases)) && result.action != ValidateTask
    ensures (forall k :: 0 <= k < |result.cases| ==> IsDeclared(m, result.cases[k], result.action))
            && (result.action != Compile ==>
                  forall j :: 0 <= j < |m.cases| && Requires(m.cases[j], result.action) ==>
                    Answered(result.cases, m.cases[j], result.action))
            ==> Accepts(m, result)
  {
    hide Ids, TaskProtocol.ById, Distinct, IsDeclared, Answered;
    var rows := TaskProtocol.ById(m.cases);
    DeclaredRows(m);
    ActualIds(result.cases);
    forall k | 0 <= k < |result.cases| && IsDeclared(m, result.cases[k], result.action)
      ensures RowFits(rows, result.cases[k], result.action)
    {
      DeclaredFits(m, result.cases[k], result.action);
    }
    forall id | id in rows && Requires(rows[id], result.action) && Answered(result.cases, rows[id], result.action)
      ensures id in Ids(result.cases)
    {
      AnsweredIsThere(result.cases, rows[id], result.action);
    }
  }

  /** The row of the manifest with this id is for the same case and the same check. */
  predicate RowFits(rows: map<string, Row>, row: Row, action: Action) {
    row.id in rows && IdentityOf(row) == IdentityOf(rows[row.id]) && Requires(rows[row.id], action)
  }

  lemma DeclaredFits(m: Manifest, row: Row, action: Action)
    requires Distinct(Ids(m.cases)) && IsDeclared(m, row, action)
    ensures RowFits(TaskProtocol.ById(m.cases), row, action)
  {
    hide Ids, TaskProtocol.ById, Distinct;
    DeclaredRows(m);
    var j :| 0 <= j < |m.cases| && Answers(row, m.cases[j], action);
  }

  lemma AnsweredIsThere(rows: seq<Row>, declared: Row, action: Action)
    requires Answered(rows, declared, action)
    ensures declared.id in Ids(rows)
  {
    hide Ids;
    ActualIds(rows);
  }

  lemma DeclaredRows(m: Manifest)
    requires Distinct(Ids(m.cases))
    ensures var rows := TaskProtocol.ById(m.cases);
            && (forall j :: 0 <= j < |m.cases| ==> m.cases[j].id in rows && rows[m.cases[j].id] == m.cases[j])
            && (forall id :: id in rows ==> exists j :: 0 <= j < |m.cases| && m.cases[j].id == id)
  {
    hide Ids, TaskProtocol.ById, Distinct;
    var rows := TaskProtocol.ById(m.cases);
    forall j | 0 <= j < |m.cases| ensures m.cases[j].id in rows && rows[m.cases[j].id] == m.cases[j] {
      DeclaredRow(m, j);
    }
    forall id | id in rows ensures exists j :: 0 <= j < |m.cases| && m.cases[j].id == id {
      assert rows[id] in m.cases;
    }
  }

  lemma DeclaredRow(m: Manifest, j: nat)
    requires Distinct(Ids(m.cases)) && j < |m.cases|
    ensures var rows := TaskProtocol.ById(m.cases); m.cases[j].id in rows && rows[m.cases[j].id] == m.cases[j]
  {
    hide Ids, TaskProtocol.ById;
    var ids, rows := Ids(m.cases), TaskProtocol.ById(m.cases);
    assert ids[j] == m.cases[j].id && ids[j] in rows;
    var k :| 0 <= k < |m.cases| && m.cases[k] == rows[ids[j]];
    assert ids[k] == m.cases[k].id;
  }

  lemma DistinctIds(rows: seq<Row>)
    ensures Distinct(Ids(rows)) <==> forall i, j :: 0 <= i < j < |rows| ==> rows[i].id != rows[j].id
  {
    assert forall k :: 0 <= k < |rows| ==> Ids(rows)[k] == rows[k].id;
  }

  lemma ActualIds(rows: seq<Row>)
    ensures forall id :: id in Ids(rows) <==> exists k :: 0 <= k < |rows| && rows[k].id == id
  {
    assert forall k :: 0 <= k < |rows| ==> Ids(rows)[k] == rows[k].id;
  }
}
