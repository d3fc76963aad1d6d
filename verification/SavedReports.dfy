/** What any state directory must hold to be loaded with an accepted report: the report follows from the records,
    read without replaying them. */
module SavedReports {
  import opened Wrappers
  import opened JsonValues
  import opened TaskProtocol
  import opened TaskSession
  import opened SessionResume

  /** The latest record of a key. */
  function LastBody(log: seq<Entry>, key: Key): Option<Body> {
    if log == [] then None
    else if KeyOf(log[|log| - 1].body) == key then Some(log[|log| - 1].body)
    else LastBody(log[..|log| - 1], key)
  }

  /** Which records can be replayed after others: whole files; of a result, all reports acceptable and merging to
      that result; a passing task check only with a performance case; and every other result only when it is valid
      against the manifest the session has at that point, if it has one. */
  lemma RecordReplaysExactly(log: seq<Entry>, e: Entry)
    requires Replay(log).Ok?
    ensures var m := Replay(log).value.manifest;
            Replay(log + [e]).Ok? <==>
              && !e.body.Torn?
              && (e.body.Completed? ==>
                    var x := e.body.executed;
                    && FromParser(x.commands) && Merge(x.commands) == Ok(x.result)
                    && if e.body.phase == TaskValidation && x.result.role == Task && x.result.action == ValidateTask
                       then x.result.pass ==> exists k :: 0 <= k < |x.result.cases|
                                                          && "performance" in x.result.cases[k].checks
                       else m.Some? ==> Accepts(m.value, x.result))
  {
    hide Merge, Accepts, FromParser, Replay;
    ReplaySnoc(log, e);
  }

  /** What one replayed record says about its key. */
  lemma EntryIsLatest(mem: Memory, e: Entry, key: Key)
    requires ReplayEntry(mem, e).Ok?
    ensures var r := ReplayEntry(mem, e).value.results;
            if KeyOf(e.body) == key
            then (key in r <==> e.body.Completed?) && (key in r ==> r[key] == e.body.executed)
            else (key in r <==> key in mem.results) && (key in r ==> r[key] == mem.results[key])
  {
    hide Merge, FromResult, Accepts, FromParser;
  }

  /** Replayed results are the latest records: a key holds what its latest record says, and nothing after an
      execution error. */
  lemma {:induction false} ReplayedResultsAreLatest(log: seq<Entry>, key: Key)
    requires Replay(log).Ok?
    ensures key in Replay(log).value.results <==>
              LastBody(log, key).Some? && LastBody(log, key).value.Completed?
    ensures key in Replay(log).value.results ==>
              LastBody(log, key).value.executed == Replay(log).value.results[key]
  {
    hide ReplayEntry;
    if log != [] {
      var init := log[..|log| - 1];
      ReplayedResultsAreLatest(init, key);
      EntryIsLatest(Replay(init).value, log[|log| - 1], key);
    }
  }

  /** What the session has of its task check when this is its latest record. */
  ghost predicate TaskCheckIs(m: Memory, body: Option<Body>) {
    if body.Some? && body.value.Completed? then
      && m.evidence == Some(body.value.executed)
      && (body.value.executed.result.pass ==>
            && FromResult(body.value.executed.result).Ok?
            && m.manifest == Some(FromResult(body.value.executed.result).value))
    else m.evidence == None && m.manifest == None
  }

  lemma EntryIsTaskCheck(mem: Memory, e: Entry)
    requires ReplayEntry(mem, e).Ok?
    ensures var m := ReplayEntry(mem, e).value;
            if KeyOf(e.body) == TASK_CHECK then TaskCheckIs(m, Some(e.body))
            else m.evidence == mem.evidence && m.manifest == mem.manifest
  {
    hide Merge, FromResult, Accepts, FromParser;
  }

  /** The evidence and the manifest are those of the latest task check. */
  lemma {:induction false} ReplayedTaskCheck(log: seq<Entry>)
    requires Replay(log).Ok?
    ensures TaskCheckIs(Replay(log).value, LastBody(log, TASK_CHECK))
  {
    hide ReplayEntry;
    if log != [] {
      var init := log[..|log| - 1];
      ReplayedTaskCheck(init);
      EntryIsTaskCheck(Replay(init).value, log[|log| - 1]);
    }
  }

  ghost predicate LatestCompleted(log: seq<Entry>, key: Key) {
    LastBody(log, key).Some? && LastBody(log, key).value.Completed?
  }

  function LatestOf(log: seq<Entry>, key: Key): Executed
    requires LatestCompleted(log, key)
  {
    LastBody(log, key).value.executed
  }

  /** The latest record of one later check is completed, covered by the manifest, and passes its policy. */
  ghost predicate CheckDerived(spec: Spec, log: seq<Entry>, check: Check, manifest: Manifest) {
    var key := InitialKey(check);
    && LatestCompleted(log, key) && Accepts(manifest, LatestOf(log, key).result)
    && Accepted(spec, check, LatestOf(log, key), Some(manifest))
  }

  /** The report follows from the latest records: the task check passed, observed the declared candidate state and
      gives the manifest; every later check of the plan is derived; and the report says what they say. */
  ghost predicate Derived(spec: Spec, log: seq<Entry>, report: InitialValidation) {
    && LatestCompleted(log, TASK_CHECK)
    && var task := LatestOf(log, TASK_CHECK);
       && task.result.pass && StateVerified(spec, task) && FromResult(task.result).Ok?
       && (forall k :: 1 <= k < |Plan(spec)| ==> CheckDerived(spec, log, Plan(spec)[k], FromResult(task.result).value))
       && LatestCompleted(log, NUMERIC)
       && var numeric := LatestOf(log, NUMERIC).result;
          report == InitialValidation(true, StatusName(numeric.pass), !numeric.pass, spec.implemented,
                                      FinalChecks(spec), [])
  }

  /** The replayed session holds a passing result of the check, covered by its manifest. */
  ghost predicate Held(spec: Spec, m: Memory, check: Check) {
    && InitialKey(check) in m.results
    && Accepted(spec, check, m.results[InitialKey(check)], m.manifest)
    && m.manifest.Some? && Accepts(m.manifest.value, m.results[InitialKey(check)].result)
  }

  /** One check of the plan, as the replayed session holds it and as the records hold it. */
  lemma CheckTransfers(spec: Spec, log: seq<Entry>, check: Check, manifest: Manifest)
    requires Replay(log).Ok? && Replay(log).value.manifest == Some(manifest)
    ensures CheckDerived(spec, log, check, manifest) <==> Held(spec, Replay(log).value, check)
  {
    hide Replay, LastBody, Accepted, Accepts;
    ReplayedResultsAreLatest(log, InitialKey(check));
  }

  /** The tail of the plan, check by check. */
  lemma PlanTail(spec: Spec, m: Memory)
    ensures PlanPassed(spec, m, Plan(spec)[1..]) <==>
              forall k :: 1 <= k < |Plan(spec)| ==> Held(spec, m, Plan(spec)[k])
  {
    hide Accepted, Accepts, Plan;
    var plan := Plan(spec);
    forall k | 1 <= k < |plan| ensures plan[1..][k - 1] == plan[k] && plan[k].role != Task {
      PlanKeys(spec, k, k);
    }
    var rest := plan[1..];
    forall k | 0 <= k < |rest| ensures rest[k] == plan[k + 1] && rest[k].role != Task {
      PlanKeys(spec, k + 1, k + 1);
    }
    if PlanPassed(spec, m, rest) {
      forall k | 1 <= k < |plan| ensures Held(spec, m, plan[k]) {
        assert InitialKey(rest[k - 1]) in m.results;
      }
    }
    if forall k :: 1 <= k < |plan| ==> Held(spec, m, plan[k]) {
      forall k | 0 <= k < |rest| ensures Held(spec, m, rest[k]) {
        assert Held(spec, m, plan[k + 1]);
      }
    }
  }

  lemma SavedIsDerived(spec: Spec, log: seq<Entry>, report: InitialValidation)
    requires Replay(log).Ok?
    ensures VerifySaved(spec, Replay(log).value, report) <==> Derived(spec, log, report)
  {
    hide Replay, LastBody, Accepted, Accepts, StateVerified, Plan, PlanPassed, CheckDerived;
    var m, plan := Replay(log).value, Plan(spec);
    ReplayedTaskCheck(log);
    PlanTail(spec, m);
    PlanKeys(spec, 2, 2);
    ReplayedResultsAreLatest(log, NUMERIC);
    if m.manifest.Some? {
      forall k | 1 <= k < |plan|
        ensures CheckDerived(spec, log, plan[k], m.manifest.value) <==> Held(spec, m, plan[k])
      {
        CheckTransfers(spec, log, plan[k], m.manifest.value);
      }
    }
  }

  /** Whatever a directory holds, it is loaded with an accepted report exactly when its records can be replayed and
      the report follows from the latest of them. */
  lemma AcceptedReportIsDerived(spec: Spec, disk: Disk)
    requires disk.report.Saved? && disk.report.verdict.accepted
    ensures Load(spec, disk, true).Ok? <==> Replay(disk.log).Ok? && Derived(spec, disk.log, disk.report.verdict)
  {
    hide Replay, VerifySaved, Derived;
    if Replay(disk.log).Ok? {
      SavedIsDerived(spec, disk.log, disk.report.verdict);
    }
  }

  // ---- The same, read off the evidence itself ----

  /** The latest record of this initial check is a result that the manifest covers. */
  ghost predicate Shows(log: seq<Entry>, role: Role, action: Action, m: Manifest) {
    LatestCompleted(log, Key(TaskValidation, role, action))
    && Accepts(m, LatestOf(log, Key(TaskValidation, role, action)).result)
  }

  ghost predicate ShowsPass(log: seq<Entry>, role: Role, action: Action, m: Manifest) {
    Shows(log, role, action, m) && LatestOf(log, Key(TaskValidation, role, action)).result.pass
  }

  /** Nothing failed but numerics, and something did. */
  predicate OnlyNumerics(x: ActionResult) {
    && x.failureKind == Some("numerical_mismatch") && (exists k :: 0 <= k < |x.cases| && !x.cases[k].pass)
    && forall k :: 0 <= k < |x.cases| && !x.cases[k].pass ==> x.cases[k].failureKind == Some("numerical_mismatch")
  }

  /** The baseline's correctness passes, or is excused by the specification. */
  ghost predicate ShowsNumeric(spec: Spec, log: seq<Entry>, m: Manifest) {
    && Shows(log, Baseline, Correctness, m) && LatestCompleted(log, NUMERIC)
    && var x := LatestOf(log, NUMERIC).result; x.pass || (spec.diagnostic && OnlyNumerics(x))
  }

  /** Every command that says what state the candidate is in says this one, and one does. */
  predicate SaysState(x: ActionResult, state: string) {
    && (exists k :: 0 <= k < |x.commands| && x.commands[k].Some? && "candidate_state" in x.commands[k].value)
    && forall k :: 0 <= k < |x.commands| && x.commands[k].Some? && "candidate_state" in x.commands[k].value ==>
         x.commands[k].value["candidate_state"] == Text(state)
  }

  /** What an accepted report stands for, check by check. */
  ghost predicate Supports(spec: Spec, log: seq<Entry>, report: InitialValidation) {
    && LatestCompleted(log, TASK_CHECK)
    && var task := LatestOf(log, TASK_CHECK).result;
       var m := Manifest(task.cases);
       && task.pass && SaysState(task, if spec.implemented then "implemented" else "unimplemented")
       && (exists k :: 0 <= k < |task.cases| && "performance" in task.cases[k].checks)
       && ShowsPass(log, Baseline, Compile, m) && ShowsPass(log, Baseline, Performance, m)
       && ShowsNumeric(spec, log, m)
       && (spec.implemented && spec.provided ==>
             && ShowsPass(log, Candidate, Compile, m) && ShowsPass(log, Candidate, Correctness, m)
             && ShowsPass(log, Candidate, Performance, m))
       && var numeric := LatestOf(log, NUMERIC).result;
          report == InitialValidation(true, if numeric.pass then "PASS" else "FAIL", !numeric.pass, spec.implemented,
                                      if !spec.implemented then IsUnimplemented
                                      else if !spec.provided then FrozenBaseline else ChecksPassed, [])
  }

  lemma {:induction false} LatestHasItsKey(log: seq<Entry>, key: Key)
    ensures LastBody(log, key).Some? ==> KeyOf(LastBody(log, key).value) == key
  {
    if log != [] {
      LatestHasItsKey(log[..|log| - 1], key);
    }
  }

  lemma CheckShows(spec: Spec, log: seq<Entry>, role: Role, action: Action, m: Manifest)
    requires role != Task
    ensures CheckDerived(spec, log, Check(role, action), m) <==>
              if role == Baseline && action == Correctness
              then ShowsNumeric(spec, log, m) else ShowsPass(log, role, action, m)
  {
    hide Accepts, LastBody;
    LatestHasItsKey(log, Key(TaskValidation, role, action));
  }

  lemma PlanIs(spec: Spec)
    ensures var p := Plan(spec);
            && |p| >= 4 && p[1] == Check(Baseline, Compile) && p[2] == Check(Baseline, Correctness)
            && p[3] == Check(Baseline, Performance)
            && (if spec.implemented && spec.provided
                then |p| == 7 && p[4] == Check(Candidate, Compile) && p[5] == Check(Candidate, Correctness)
                     && p[6] == Check(Candidate, Performance)
                else |p| == 4)
  {
  }

  lemma LoadNeedsIntact(spec: Spec, disk: Disk, intact: bool)
    ensures Load(spec, disk, intact).Ok? <==> intact && Load(spec, disk, true).Ok?
  {
    hide Replay, VerifySaved;
  }

  /** What an accepted report needs, without the plan: a directory is loaded with it exactly when the harness and the
      baseline are intact, its records can be replayed, and the latest of them show every check the specification
      demands. */
  lemma AcceptedReportMeans(spec: Spec, disk: Disk, intact: bool)
    requires disk.report.Saved? && disk.report.verdict.accepted
    ensures Load(spec, disk, intact).Ok? <==>
              intact && Replay(disk.log).Ok? && Supports(spec, disk.log, disk.report.verdict)
  {
    LoadNeedsIntact(spec, disk, intact);
    hide Load, Replay, Accepts, LastBody, Plan, CheckDerived, Shows, ShowsPass, OnlyNumerics;
    var log := disk.log;
    AcceptedReportIsDerived(spec, disk);
    PlanIs(spec);
    if LatestCompleted(log, TASK_CHECK) {
      var m := Manifest(LatestOf(log, TASK_CHECK).result.cases);
      forall role, action | role != Task ensures CheckDerived(spec, log, Check(role, action), m) <==>
          if role == Baseline && action == Correctness
          then ShowsNumeric(spec, log, m) else ShowsPass(log, role, action, m)
      {
        CheckShows(spec, log, role, action, m);
      }
      TaskManifest(log);
      PlanDerived(spec, log, m);
    }
  }

  lemma TaskManifest(log: seq<Entry>)
    requires LatestCompleted(log, TASK_CHECK)
    ensures var x := LatestOf(log, TASK_CHECK).result;
            && (x.pass ==>
                  (FromResult(x).Ok? <==> exists k :: 0 <= k < |x.cases| && "performance" in x.cases[k].checks))
            && (FromResult(x).Ok? ==> x.pass)
            && (FromResult(x).Ok? ==> FromResult(x).value == Manifest(x.cases))
  {
    LatestHasItsKey(log, TASK_CHECK);
  }

  /** The tail of the plan, written out. */
  lemma PlanDerived(spec: Spec, log: seq<Entry>, m: Manifest)
    ensures (forall k :: 1 <= k < |Plan(spec)| ==> CheckDerived(spec, log, Plan(spec)[k], m)) <==>
              && CheckDerived(spec, log, Check(Baseline, Compile), m)
              && CheckDerived(spec, log, Check(Baseline, Correctness), m)
              && CheckDerived(spec, log, Check(Baseline, Performance), m)
              && (spec.implemented && spec.provided ==>
                    && CheckDerived(spec, log, Check(Candidate, Compile), m)
                    && CheckDerived(spec, log, Check(Candidate, Correctness), m)
                    && CheckDerived(spec, log, Check(Candidate, Performance), m))
  {
    hide CheckDerived, Plan;
    PlanIs(spec);
  }
}
