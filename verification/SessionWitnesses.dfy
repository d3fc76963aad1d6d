/** Concrete runs of a session that reach the exceptions named in SessionRuns and SessionResume. The task has one
    case and starts unimplemented, so its plan is the task check and three baseline checks. */
module SessionWitnesses {
  import opened Wrappers
  import opened JsonValues
  import opened TaskProtocol
  import opened TaskSession
  import opened SessionRuns
  import opened SessionResume

  const SPEC := Spec(false, false, false)
  const BOTH := ["correctness", "performance"]
  const SOURCES: Sources := map["kernel.py" := "text"]

  const WRONG := "wrong result"

  function OneRow(checks: seq<string>, pass: bool): Row {
    Row("case", pass, None, checks, None, None, None, None, Some(1.0), Some("cuda_graph"), None)
  }

  function TaskReport(checks: seq<string>): Report {
    Report(Task, ValidateTask, true, [OneRow(checks, true)], None, None,
           Some(map["candidate_state" := Text("unimplemented")]))
  }

  function OneReport(role: Role, action: Action, pass: bool): Report {
    Report(role, action, pass, [OneRow([], pass)], if pass then None else Some(Text(WRONG)), None, None)
  }

  const MANIFEST := Manifest([OneRow(BOTH, true)])

  /** A command that prints this report, and whose record is written like that. */
  function Prints(report: Report, write: Write): ExecEnv {
    ExecEnv(0, true, [Reported(report)], None, write, true)
  }

  function ResultOf(report: Report): ActionResult {
    ActionResult(report.role, report.action, report.pass, report.cases,
                 if report.pass then None else report.failureKind, [report.metadata])
  }

  function ExecutedOf(report: Report): Executed {
    Executed(0, ResultOf(report), [report])
  }

  lemma OneIsMerged(report: Report)
    requires |report.cases| == 1
    ensures Merge([report]) == Ok(ResultOf(report))
  {
    assert AllCases([report]) == report.cases by { assert [report][..0] == []; }
    assert CommandMetadata([report]) == [report.metadata];
    var kinds := Kinds([report]);
    if report.pass {
      assert kinds == {};
    } else {
      assert kinds == {report.failureKind} by { assert Failed([report][0]); }
    }
  }

  lemma OneIsCollected(report: Report)
    requires ReportAllowed(report)
    ensures Collected(report.role, report.action, [Reported(report)]) == AllRead([report])
  {
    hide ReportAllowed;
    var outs := [Reported(report)];
    assert outs[1..] == [];
  }

  lemma ReportsAreAllowed()
    ensures ReportAllowed(TaskReport(BOTH)) && ReportAllowed(TaskReport(["correctness"]))
    ensures forall role, action, pass :: action != ValidateTask ==> ReportAllowed(OneReport(role, action, pass))
  {
    assert Nonblank(WRONG) by { assert !IsBlank(WRONG[0]); }
    assert Nonblank("case") by { assert !IsBlank("case"[0]); }
    assert BOTH[0] == "correctness" && BOTH[1] == "performance";
  }

  lemma OneById()
    ensures ById(MANIFEST.cases) == map["case" := OneRow(BOTH, true)]
  {
    var rows := MANIFEST.cases;
    assert rows[..0] == [];
  }

  lemma OneId(row: Row)
    ensures Ids([row]) == [row.id]
  {
    assert [row][..0] == [];
  }

  lemma Covered(action: Action)
    requires action == Correctness || action == Performance
    ensures CheckName(action) in BOTH
  {
    assert BOTH[0] == "correctness" && BOTH[1] == "performance";
  }

  lemma ManifestAccepts(role: Role, action: Action, pass: bool)
    requires action != ValidateTask
    ensures Accepts(MANIFEST, ResultOf(OneReport(role, action, pass)))
  {
    hide ById, Ids, CheckName;
    OneById();
    OneId(OneRow([], pass));
    if action != Compile {
      Covered(action);
    }
  }

  lemma TaskGivesManifest()
    ensures FromResult(ResultOf(TaskReport(BOTH))) == Ok(MANIFEST)
    ensures FromResult(ResultOf(TaskReport(["correctness"]))).Err?
  {
    Covered(Performance);
    var good, bad := ResultOf(TaskReport(BOTH)), ResultOf(TaskReport(["correctness"]));
    assert good.cases[0].checks == BOTH;
    assert forall k :: 0 <= k < |bad.cases| ==> bad.cases[k].checks == ["correctness"];
  }

  // ---- One passing check, and the whole initial validation ----

  function ReportOf(check: Check): Report {
    if check.role == Task then TaskReport(BOTH) else OneReport(check.role, check.action, true)
  }

  lemma Returns(report: Report, manifest: Option<Manifest>)
    requires ReportAllowed(report) && |report.cases| == 1
    requires report.action == Compile || report.action == ValidateTask || manifest.Some?
    requires manifest.Some? && report.action != ValidateTask ==> Accepts(manifest.value, ResultOf(report))
    ensures RunAction(report.role, report.action, manifest, 0, [Reported(report)], None) == Returned(ExecutedOf(report))
  {
    hide ReportAllowed, Accepts, Merge, Collected;
    OneIsCollected(report);
    OneIsMerged(report);
  }

  ghost predicate OnTrack(a: Attempt) {
    a.ending.Complete? && a.mem.initial.None? && a.mem.identity.None? && !HasTorn(a.log)
  }

  lemma GoodOutcome(check: Check, manifest: Option<Manifest>)
    requires check in Plan(SPEC) && (if check.role == Task then manifest.None? else manifest == Some(MANIFEST))
    ensures RunAction(check.role, check.action, manifest, 0, [Reported(ReportOf(check))], None)
            == Returned(ExecutedOf(ReportOf(check)))
  {
    hide ReportAllowed, Accepts, Merge, Collected, FromResult, RunAction;
    ReportsAreAllowed();
    if check.role != Task {
      ManifestAccepts(check.role, check.action, true);
    }
    Returns(ReportOf(check), manifest);
  }

  lemma GoodIsAccepted(check: Check, manifest: Option<Manifest>)
    requires check in Plan(SPEC) && (check.role != Task ==> manifest == Some(MANIFEST))
    ensures Accepted(SPEC, check, ExecutedOf(ReportOf(check)), manifest)
    ensures check.role == Task ==> FromResult(ResultOf(ReportOf(check))) == Ok(MANIFEST)
  {
    hide Accepts, FromResult, StateVerified;
    StateObserved();
    TaskGivesManifest();
    if check.role != Task {
      ManifestAccepts(check.role, check.action, true);
    }
  }

  /** A passing check of the plan, recorded. */
  lemma GoodCheck(a: Attempt, check: Check)
    requires OnTrack(a) && check in Plan(SPEC)
    requires check.role == Task || a.mem.manifest == Some(MANIFEST)
    ensures var b := CheckOnce(SPEC, a, check, Prints(ReportOf(check), Written));
            OnTrack(b) && b.mem.manifest == Some(MANIFEST)
  {
    hide Accepted, FromResult, RunAction, HasTorn, ReportOf, Plan, FromParser, Merge, Accepts;
    GoodOutcome(check, if check.role == Task then None else a.mem.manifest);
    GoodIsAccepted(check, a.mem.manifest);
    ReportRole(check);
    WholeSnoc(a.log, Entry(a.mem.invocations + 1, Completed(TaskValidation, ExecutedOf(ReportOf(check)))));
  }

  lemma ReportRole(check: Check)
    requires check in Plan(SPEC)
    ensures ReportOf(check).role == check.role && ReportOf(check).action == check.action
  {
  }

  lemma StateObserved()
    ensures StateVerified(SPEC, ExecutedOf(TaskReport(BOTH)))
  {
    var c := ResultOf(TaskReport(BOTH)).commands;
    assert c[0].Some? && "candidate_state" in c[0].value;
  }

  function GoodEnvs(): seq<ExecEnv> {
    seq(|Plan(SPEC)|, k requires 0 <= k < |Plan(SPEC)| => Prints(ReportOf(Plan(SPEC)[k]), Written))
  }

  lemma {:induction false} GoodPlan(a: Attempt, k: nat)
    requires k <= 4 && OnTrack(a) && (k > 0 ==> a.mem.manifest == Some(MANIFEST))
    ensures var b := RunPlan(SPEC, a, Plan(SPEC)[k..], GoodEnvs()[k..], 5 - k);
            OnTrack(b) && b.mem.manifest == Some(MANIFEST)
    decreases 4 - k
  {
    hide CheckOnce, Plan, OnTrack, ReportOf, Prints;
    var plan, envs := Plan(SPEC), GoodEnvs();
    TrackIsComplete(a);
    if k < 4 {
      PlanKeys(SPEC, k, k);
      GoodCheck(a, plan[k]);
      var b := CheckOnce(SPEC, a, plan[k], envs[k]);
      TrackIsComplete(b);
      assert plan[k..][1..] == plan[k + 1..] && envs[k..][1..] == envs[k + 1..];
      GoodPlan(b, k + 1);
    }
  }

  lemma TrackIsComplete(a: Attempt)
    requires OnTrack(a)
    ensures a.ending.Complete?
  {
  }

  const BEGUN := Attempt(FRESH, [], "NOT_RUN", false, Complete)

  /** The session after an initial validation that was accepted. */
  ghost predicate Accepting(mem: Memory) {
    mem.initial.Some? && mem.initial.value.accepted && mem.manifest == Some(MANIFEST)
  }

  function Validation(write: Write): Event {
    Validates(GoodEnvs(), 5, write)
  }

  /** The initial validation is accepted, and what is left of it depends on how its report was written. */
  lemma Validated(write: Write)
    ensures Enabled(SPEC, START, Validation(write))
    ensures var m := Step(SPEC, START, Validation(write));
            && !HasTorn(m.disk.log) && m.history == []
            && (write.Written? ==> m.process.Some? && Accepting(m.process.value)
                                   && m.disk.report.Saved? && m.disk.report.verdict.accepted)
            && (write == WriteFailed(Part) ==> m.disk.report.TornReport?)
  {
    hide RunPlan, Plan, HasTorn;
    var plan, envs := Plan(SPEC), GoodEnvs();
    assert plan[0..] == plan && envs[0..] == envs;
    NothingTorn();
    GoodPlan(BEGUN, 0);
  }

  lemma NothingTorn()
    ensures !HasTorn([])
  {
  }

  // ---- Candidate actions ----

  function Now(exec: ExecEnv): ActEnv {
    ActEnv(true, true, Some(SOURCES), exec, true, Some(SOURCES))
  }

  function Passing(action: Action): ActEnv {
    Now(Prints(OneReport(Candidate, action, true), Written))
  }

  /** The session is about to pass this action on the same sources. */
  ghost predicate ReadyFor(mem: Memory, action: Action) {
    && Accepting(mem) && action != ValidateTask
    && (action != Compile ==> mem.identity == Some(SOURCES) && Passes(mem.results, Compile))
    && (action == Performance ==> Passes(mem.results, Correctness))
  }

  lemma GoodExecution(mem: Memory, log: seq<Entry>, action: Action)
    requires mem.manifest == Some(MANIFEST) && action != ValidateTask
    ensures var x, key := ExecutedOf(OneReport(Candidate, action, true)), CandidateKey(action);
            Execute(mem, log, key, Passing(action).exec)
            == ExecStep(mem.(invocations := mem.invocations + 1, results := mem.results[key := x]),
                        log + [Entry(mem.invocations + 1, Completed(CandidateEvaluation, x))], Ok(x))
  {
    hide ReportAllowed, Accepts, Merge, Collected, RunAction, FromParser, ExecutedOf, FromResult;
    ReportsAreAllowed();
    ManifestAccepts(Candidate, action, true);
    Returns(OneReport(Candidate, action, true), mem.manifest);
  }

  lemma GoodAct(mem: Memory, log: seq<Entry>, action: Action)
    requires ReadyFor(mem, action)
    ensures var step := Act(mem, log, action, Passing(action));
            && step.r.Ok? && Accepting(step.mem) && step.mem.identity == Some(SOURCES)
            && Passes(step.mem.results, action)
            && (action == Correctness ==> Passes(step.mem.results, Compile))
  {
    hide Execute;
    var m := Gate(mem, action, Passing(action)).value;
    GoodExecution(m, log, action);
  }

  // ---- The runs ----

  lemma OneStep(spec: Spec, m: Machine, e: Event)
    requires Enabled(spec, m, e)
    ensures Run(spec, m, [e], Step(spec, m, e))
  {
    hide Step;
    assert [e][1..] == [];
  }

  lemma {:induction false} RunSnoc(spec: Spec, m: Machine, events: seq<Event>, n: Machine, e: Event)
    requires Run(spec, m, events, n) && Enabled(spec, n, e)
    ensures Run(spec, m, events + [e], Step(spec, n, e))
    decreases |events|
  {
    hide Step, Enabled;
    if events == [] {
      OneStep(spec, m, e);
      assert [] + [e] == [e];
    } else {
      RunSnoc(spec, Step(spec, m, events[0]), events[1..], n, e);
      assert (events + [e])[0] == events[0] && (events + [e])[1..] == events[1..] + [e];
    }
  }

  /** Validated, compiled and checked for correctness. */
  lemma CheckedRun() returns (events: seq<Event>, m: Machine)
    ensures Run(SPEC, START, events, m) && m.process.Some?
    ensures ReadyFor(m.process.value, Performance)
  {
    hide Run, Enabled, Act, Execute;
    Validated(Written);
    var e := Validation(Written);
    m := Step(SPEC, START, e);
    OneStep(SPEC, START, e);
    events := [e];
    events, m := ActOnce(events, m, Compile);
    events, m := ActOnce(events, m, Correctness);
  }

  lemma ActOnce(before: seq<Event>, from: Machine, action: Action) returns (events: seq<Event>, m: Machine)
    requires Run(SPEC, START, before, from) && from.process.Some? && ReadyFor(from.process.value, action)
    ensures Run(SPEC, START, events, m) && m.process.Some? && Accepting(m.process.value)
    ensures m.process.value.identity == Some(SOURCES) && Passes(m.process.value.results, action)
    ensures action == Correctness ==> Passes(m.process.value.results, Compile)
  {
    hide Run, Act, Happened;
    GoodAct(from.process.value, from.disk.log, action);
    events := before + [Acts(action, Passing(action))];
    m := Step(SPEC, from, Acts(action, Passing(action)));
    RunSnoc(SPEC, START, before, from, Acts(action, Passing(action)));
  }

  /** A correctness run that leaves the earlier pass in memory, reached from the start: timing still returns. */
  lemma TimingAfter(failing: ExecEnv) returns (events: seq<Event>, m: Machine)
    requires failing.baselineBefore && LeavesEarlierPass(EffectOf(Some(MANIFEST), Correctness, failing))
    ensures Run(SPEC, START, events, m) && m.process.Some?
    ensures Latest(m.history, Correctness, false) == Some(EffectOf(Some(MANIFEST), Correctness, failing))
    ensures Act(m.process.value, m.disk.log, Performance, Passing(Performance)).r.Ok?
  {
    hide Run, Act, Gate, EffectOf;
    var before, from := CheckedRun();
    var e := Acts(Correctness, Now(failing));
    var mem := from.process.value;
    Unlocked(mem, failing);
    EarlierPassStillAuthorises(mem, from.disk.log, Now(failing), Passing(Performance));
    m := Step(SPEC, from, e);
    events := before + [e];
    RunSnoc(SPEC, START, before, from, e);
    GoodAct(m.process.value, m.disk.log, Performance);
    assert m.history[|m.history| - 1] == Ran(Correctness, SOURCES, EffectOf(Some(MANIFEST), Correctness, failing));
  }

  lemma Unlocked(mem: Memory, failing: ExecEnv)
    requires ReadyFor(mem, Performance)
    ensures Gate(mem, Correctness, Now(failing)).Ok?
  {
  }

  const LOST := Prints(OneReport(Candidate, Correctness, false), WriteFailed(Nothing))

  const TOO_LONG_AN_INTEGER := ExecEnv(0, true, [Escaping(AsValueError)], None, Written, true)

  /** The record of a failing correctness run cannot be written, and timing still returns. */
  lemma TimingAfterLostFailure() returns (events: seq<Event>, m: Machine)
    ensures Run(SPEC, START, events, m) && m.process.Some?
    ensures Latest(m.history, Correctness, false) == Some(Unrecorded(false))
    ensures Act(m.process.value, m.disk.log, Performance, Passing(Performance)).r.Ok?
  {
    hide ReportAllowed, Accepts, Merge, Collected, RunAction, Run, Act;
    ReportsAreAllowed();
    ManifestAccepts(Candidate, Correctness, false);
    Returns(OneReport(Candidate, Correctness, false), Some(MANIFEST));
    events, m := TimingAfter(LOST);
  }

  /** A correctness run prints an integer that is too long to decode, and timing still returns. */
  lemma TimingAfterException() returns (events: seq<Event>, m: Machine)
    ensures Run(SPEC, START, events, m) && m.process.Some?
    ensures Latest(m.history, Correctness, false) == Some(Uncaught)
    ensures Act(m.process.value, m.disk.log, Performance, Passing(Performance)).r.Ok?
  {
    hide Run, Act;
    assert EffectOf(Some(MANIFEST), Correctness, TOO_LONG_AN_INTEGER) == Uncaught;
    events, m := TimingAfter(TOO_LONG_AN_INTEGER);
  }

  /** The record of a compile is torn after an accepted initial validation: the directory cannot be loaded. */
  lemma TornRecordIsFatal() returns (events: seq<Event>, m: Machine)
    ensures Run(SPEC, START, events, m) && m.disk.report.Saved? && m.disk.report.verdict.accepted
    ensures HasTorn(m.disk.log) && Load(SPEC, m.disk, true).Err?
  {
    hide Run, Execute, Load, HasTorn;
    Validated(Written);
    var first := Validation(Written);
    var from := Step(SPEC, START, first);
    OneStep(SPEC, START, first);
    var torn := Now(Prints(OneReport(Candidate, Compile, true), WriteFailed(Part)));
    var e := Acts(Compile, torn);
    m := Step(SPEC, from, e);
    events := [first] + [e];
    RunSnoc(SPEC, START, [first], from, e);
    TornExecution(Gate(from.process.value, Compile, torn).value, from.disk.log);
    AcceptedReportIsLoaded(SPEC, events, m);
  }

  lemma TornExecution(mem: Memory, log: seq<Entry>)
    requires mem.manifest == Some(MANIFEST)
    ensures HasTorn(Execute(mem, log, CandidateKey(Compile),
                            Prints(OneReport(Candidate, Compile, true), WriteFailed(Part))).log)
  {
    hide ReportAllowed, Accepts, Merge, Collected, RunAction, FromParser, ExecutedOf, FromResult, HasTorn;
    ReportsAreAllowed();
    ManifestAccepts(Candidate, Compile, true);
    var report := OneReport(Candidate, Compile, true);
    Returns(report, mem.manifest);
    WholeSnoc(log, Entry(mem.invocations + 1, Torn(CandidateKey(Compile))));
  }

  /** The report of the initial validation is torn: every record is whole, and the directory cannot be loaded. */
  lemma TornReportIsFatal()
    ensures var m := Step(SPEC, START, Validation(WriteFailed(Part)));
            && Run(SPEC, START, [Validation(WriteFailed(Part))], m)
            && !HasTorn(m.disk.log) && m.disk.report.TornReport? && Load(SPEC, m.disk, true).Err?
  {
    hide Run, Step, Load;
    var e := Validation(WriteFailed(Part));
    var m := Step(SPEC, START, e);
    Validated(WriteFailed(Part));
    OneStep(SPEC, START, e);
    UnloadableExactly(SPEC, [e], m);
  }

  /** The task check passes without a performance case. */
  function Barely(): ExecEnv {
    Prints(TaskReport(["correctness"]), Written)
  }

  /** Its record alone makes the directory unloadable. */
  lemma BarrenCheckIsFatal() returns (e: Event)
    ensures Enabled(SPEC, START, e)
    ensures var m := Step(SPEC, START, e);
            && Run(SPEC, START, [e], m) && HasBarren(m.disk.log) && !HasTorn(m.disk.log)
            && !m.disk.report.TornReport? && Load(SPEC, m.disk, true).Err?
  {
    hide Run, Load, RunPlan, CheckOnce, HasBarren, HasTorn;
    var envs := [Barely(), Barely(), Barely(), Barely()];
    e := Validates(envs, 1, Written);
    var m := Step(SPEC, START, e);
    OneStep(SPEC, START, e);
    BarrenCheck(envs);
    UnloadableExactly(SPEC, [e], m);
  }

  lemma {:induction false} BarrenCheck(envs: seq<ExecEnv>)
    requires |envs| == 4 && envs[0] == Barely()
    ensures var a := RunPlan(SPEC, BEGUN, Plan(SPEC), envs, 1);
            HasBarren(a.log) && !HasTorn(a.log) && !a.ending.Died?
  {
    hide ReportAllowed, Accepts, Merge, Collected, RunAction, FromParser, FromResult;
    ReportsAreAllowed();
    TaskGivesManifest();
    Returns(TaskReport(["correctness"]), None);
    var b := CheckOnce(SPEC, BEGUN, Plan(SPEC)[0], envs[0]);
    var entry := Entry(1, Completed(TaskValidation, ExecutedOf(TaskReport(["correctness"]))));
    assert b.log == [entry];
    assert Barren(b.log[0]);
    assert RunPlan(SPEC, BEGUN, Plan(SPEC), envs, 1) == b;
  }
}
