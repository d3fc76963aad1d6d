/** One task session: src/task_session.py over src/task_execution.py. Memory is what a process holds, Disk is
    what its state directory holds; commands, checks of protected files and the candidate's sources at each
    moment are observations handed in by the environment, so anything may happen between and during calls. */
module TaskSession {
  import opened Wrappers
  import opened JsonValues
  import opened TaskProtocol

  datatype Phase = TaskValidation | CandidateEvaluation

  datatype Key = Key(phase: Phase, role: Role, action: Action)

  const TASK_CHECK := Key(TaskValidation, Task, ValidateTask)

  /** The candidate's files and their contents, as _candidate_sources collects them. */
  type Sources = map<string, string>

  datatype Executed = Executed(invocation: nat, result: ActionResult, commands: seq<Report>)

  datatype CandidateChecks = NotRun | IsUnimplemented | FrozenBaseline | ChecksPassed

  datatype Refusal = NotAccepted | AlreadyValidated | HarnessChanged | FilesInvalid | UnsupportedAction
                   | SourcesUnreadable | CandidateChanged | PrerequisiteMissing | BaselineChanged
                   | ExecutionFailed | EvidenceNotWritten | ExceptionEscaped(kind: Escape) | SourcesModified
                   | CheckFailed

  /** An exception that run_action does not turn into its own kind: a plain ValueError, such as an integer literal
      that is too long, or any other, such as a RecursionError while a nested report is copied. */
  datatype Escape = AsValueError | AsOther

  datatype InitialValidation = InitialValidation(accepted: bool, numerical: string, diagnostic: bool,
                                                 implemented: bool, checks: CandidateChecks, errors: seq<Refusal>)

  datatype Memory = Memory(results: map<Key, Executed>, manifest: Option<Manifest>, evidence: Option<Executed>,
                           initial: Option<InitialValidation>, invocations: nat, identity: Option<Sources>)

  /** A torn record is a file that holds only a part of what was to be written. */
  datatype Body = Completed(phase: Phase, executed: Executed) | Errored(key: Key) | Torn(key: Key)

  datatype Entry = Entry(number: nat, body: Body)

  datatype SavedReport = Missing | TornReport | Saved(verdict: InitialValidation)

  datatype Disk = Disk(log: seq<Entry>, report: SavedReport)

  function InitialOf(s: SavedReport): Option<InitialValidation> {
    if s.Saved? then Some(s.verdict) else None
  }

  /** The parts of the task's specification that the lifecycle depends on. */
  datatype Spec = Spec(implemented: bool, provided: bool, diagnostic: bool)

  const FRESH := Memory(map[], None, None, None, 0, None)

  // ---- Running the commands of one action ----

  datatype CommandOutcome = Reported(report: Report) | Broken | Escaping(kind: Escape)

  datatype Reports = AllRead(reports: seq<Report>) | Unreadable | Thrown(kind: Escape)

  predicate FromParser(reports: seq<Report>) {
    forall k :: 0 <= k < |reports| ==> ReportAllowed(reports[k])
  }

  /** The reports up to and including the first failing one, unless a command gave no valid report or an exception
      escaped while its report was decoded. */
  function Collected(role: Role, action: Action, outs: seq<CommandOutcome>): Reports {
    if outs == [] then AllRead([])
    else
      match outs[0]
      case Broken => Unreadable
      case Escaping(kind) => Thrown(kind)
      case Reported(report) =>
        if report.role != role || report.action != action || !ReportAllowed(report) then Unreadable
        else if !report.pass then AllRead([report])
        else match Collected(role, action, outs[1..])
             case AllRead(rest) => AllRead([report] + rest)
             case other => other
  }

  datatype Outcome = Returned(executed: Executed) | Failing | Escaped(kind: Escape)

  /** late: an exception that escapes while the reports are merged and compared with the manifest. */
  function RunAction(role: Role, action: Action, manifest: Option<Manifest>, id: nat, outs: seq<CommandOutcome>,
                     late: Option<Escape>): (r: Outcome)
    ensures r.Returned? ==> Merge(r.executed.commands) == Ok(r.executed.result)
    ensures r.Returned? ==> FromParser(r.executed.commands)
    ensures r.Returned? ==> r.executed.result.role == role && r.executed.result.action == action
    ensures r.Returned? && manifest.Some? && action != ValidateTask ==> Accepts(manifest.value, r.executed.result)
  {
    if (action == Correctness || action == Performance) && manifest.None? then Failing
    else
      match Collected(role, action, outs)
      case Unreadable => Failing
      case Thrown(kind) => Escaped(kind)
      case AllRead(reports) =>
        if late.Some? then Escaped(late.value)
        else if Merge(reports).Err? then Failing
        else
          CollectedAction(role, action, outs);
          var result := Merge(reports).value;
          if manifest.Some? && action != ValidateTask && !Accepts(manifest.value, result) then Failing
          else Returned(Executed(id, result, reports))
  }

  /** A command that printed an acceptable report of this action. */
  predicate Usable(role: Role, action: Action, out: CommandOutcome) {
    out.Reported? && out.report.role == role && out.report.action == action && ReportAllowed(out.report)
  }

  predicate PassedFirst(role: Role, action: Action, outs: seq<CommandOutcome>, n: nat) {
    n <= |outs| && forall k :: 0 <= k < n ==> Usable(role, action, outs[k]) && outs[k].report.pass
  }

  /** The commands up to the n-th, in order, are the reports kept. */
  ghost predicate Keeps(outs: seq<CommandOutcome>, n: nat, reports: seq<Report>) {
    n == |reports| <= |outs| && forall k :: 0 <= k < n ==> outs[k] == Reported(reports[k])
  }

  /** The reports of the first commands, up to and including the first failing one, or of all of them. */
  ghost predicate FirstReports(outs: seq<CommandOutcome>, c: seq<Report>) {
    && Keeps(outs, |c|, c) && (forall k :: 0 <= k < |c| - 1 ==> c[k].pass)
    && (|c| < |outs| ==> c != [] && !c[|c| - 1].pass)
  }

  /** The loop over the commands of an action. */
  method CollectReports(role: Role, action: Action, outs: seq<CommandOutcome>) returns (c: Reports)
    ensures c == Collected(role, action, outs)
  {
    hide ReportAllowed;
    var results: seq<Report>, n, passed := [], 0, true;
    ghost var all := Collected(role, action, outs);
    while n < |outs| && passed
      invariant 0 <= n <= |outs|
      invariant all == if passed then After(results, Collected(role, action, outs[n..])) else AllRead(results)
    {
      assert outs[n..][1..] == outs[n + 1..] && outs[n..][0] == outs[n];
      match outs[n] {
        case Broken =>
          return Unreadable;
        case Escaping(kind) =>
          return Thrown(kind);
        case Reported(report) =>
          if report.role != role || report.action != action || !ReportAllowed(report) {
            return Unreadable;
          }
          AfterOne(results, report, Collected(role, action, outs[n + 1..]));
          results, passed := results + [report], report.pass;
      }
      n := n + 1;
    }
    assert passed ==> outs[n..] == [] && results + [] == results;
    return AllRead(results);
  }

  /** The commands of an action and what becomes of their reports: a result is merged from the first reports, and
      passes exactly when every command reported and passed. */
  method RunCommands(role: Role, action: Action, manifest: Option<Manifest>, id: nat, outs: seq<CommandOutcome>,
                     late: Option<Escape>) returns (r: Outcome)
    ensures r == RunAction(role, action, manifest, id, outs, late)
    ensures r.Returned? ==>
              var c, x := r.executed.commands, r.executed.result;
              && c != [] && FirstReports(outs, c) && x.cases == AllCases(c)
              && (x.pass <==> |c| == |outs| && c[|c| - 1].pass)
  {
    hide Merge, Accepts, Collected, FirstReports, AllCases, FromParser;
    ReturnedKeepsItsCommands(role, action, manifest, id, outs, late);
    if (action == Correctness || action == Performance) && manifest.None? {
      return Failing;
    }
    var collected := CollectReports(role, action, outs);
    match collected {
      case Unreadable =>
        return Failing;
      case Thrown(kind) =>
        return Escaped(kind);
      case AllRead(results) =>
        if late.Some? {
          return Escaped(late.value);
        }
        var merged := MergeCommandResults(results);
        if merged.Err? || (manifest.Some? && action != ValidateTask && !Accepts(manifest.value, merged.value)) {
          return Failing;
        }
        return Returned(Executed(id, merged.value, results));
    }
  }

  function After(first: seq<Report>, rest: Reports): Reports {
    if rest.AllRead? then AllRead(first + rest.reports) else rest
  }

  lemma AfterOne(first: seq<Report>, report: Report, rest: Reports)
    ensures After(first, After([report], rest)) == After(first + [report], rest)
    ensures After(first, AllRead([report])) == AllRead(first + [report])
    ensures After(first, AllRead([])) == AllRead(first)
  {
    if rest.AllRead? {
      assert first + ([report] + rest.reports) == first + [report] + rest.reports;
    }
  }

  /** What was collected, read off the first command that did not print an acceptable passing report. */
  lemma {:induction false} CollectedUpTo(role: Role, action: Action, outs: seq<CommandOutcome>, n: nat)
    requires PassedFirst(role, action, outs, n)
    requires n < |outs| ==> !(Usable(role, action, outs[n]) && outs[n].report.pass)
    ensures var c := Collected(role, action, outs);
            if n == |outs| then c.AllRead? && Keeps(outs, n, c.reports)
            else if outs[n].Escaping? then c == Thrown(outs[n].kind)
            else if !Usable(role, action, outs[n]) then c == Unreadable
            else c.AllRead? && Keeps(outs, n + 1, c.reports)
    decreases n
  {
    hide ReportAllowed;
    if n > 0 {
      assert outs[1..] == outs[1..n] + outs[n..];
      CollectedUpTo(role, action, outs[1..], n - 1);
    }
  }

  function FirstStop(role: Role, action: Action, outs: seq<CommandOutcome>): (n: nat)
    ensures PassedFirst(role, action, outs, n)
    ensures n < |outs| ==> !(Usable(role, action, outs[n]) && outs[n].report.pass)
  {
    if outs == [] || !(Usable(role, action, outs[0]) && outs[0].report.pass) then 0
    else 1 + FirstStop(role, action, outs[1..])
  }

  /** A result is merged from the reports of the first commands, and passes exactly when every command of the action
      reported and passed. */
  lemma ReturnedKeepsItsCommands(role: Role, action: Action, manifest: Option<Manifest>, id: nat,
                                 outs: seq<CommandOutcome>, late: Option<Escape>)
    ensures var r := RunAction(role, action, manifest, id, outs, late);
            r.Returned? ==>
              var c, x := r.executed.commands, r.executed.result;
              && c != [] && FirstReports(outs, c) && x.cases == AllCases(c)
              && (x.pass <==> |c| == |outs| && c[|c| - 1].pass)
  {
    hide ReportAllowed, Accepts, Merge, FromParser;
    CollectedUpTo(role, action, outs, FirstStop(role, action, outs));
    var r := RunAction(role, action, manifest, id, outs, late);
    if r.Returned? {
      MergedIs(r.executed.commands);
    }
  }

  lemma {:induction false} CollectedAction(role: Role, action: Action, outs: seq<CommandOutcome>)
    ensures var c := Collected(role, action, outs);
            c.AllRead? ==>
              && FromParser(c.reports)
              && forall k :: 0 <= k < |c.reports| ==> c.reports[k].role == role && c.reports[k].action == action
  {
    hide ReportAllowed;
    if outs != [] {
      CollectedAction(role, action, outs[1..]);
    }
  }

  // ---- _execute ----

  /** What a failed write leaves behind: the file is created before its content is written. */
  datatype Remains = Nothing | Part | Everything

  datatype Write = Written | WriteFailed(left: Remains)

  /** The log after a record was to be written to it. */
  function Recorded(log: seq<Entry>, e: Entry, w: Write): seq<Entry> {
    match w
    case WriteFailed(Nothing) => log
    case WriteFailed(Part) => log + [Entry(e.number, Torn(KeyOf(e.body)))]
    case _ => log + [e]
  }

  datatype ExecEnv = ExecEnv(id: nat, baselineBefore: bool, outs: seq<CommandOutcome>, late: Option<Escape>,
                             write: Write, baselineAfter: bool)

  datatype ExecStep = ExecStep(mem: Memory, log: seq<Entry>, r: Result<Executed, Refusal>)

  function Execute(mem: Memory, log: seq<Entry>, key: Key, env: ExecEnv): ExecStep {
    var m := mem.(invocations := mem.invocations + 1);
    if !env.baselineBefore then ExecStep(m, log, Err(BaselineChanged))
    else
      match RunAction(key.role, key.action, if key.role == Task then None else mem.manifest, env.id, env.outs, env.late)
      case Escaped(kind) => ExecStep(m, log, Err(ExceptionEscaped(kind)))
      case Failing =>
        ExecStep(m.(results := m.results - {key}), Recorded(log, Entry(m.invocations, Errored(key)), env.write),
                 Err(if env.write.Written? then ExecutionFailed else EvidenceNotWritten))
      case Returned(x) =>
        var after := Recorded(log, Entry(m.invocations, Completed(key.phase, x)), env.write);
        if !env.write.Written? then ExecStep(m, after, Err(EvidenceNotWritten))
        else ExecStep(m.(results := m.results[key := x]), after,
                      if env.baselineAfter then Ok(x) else Err(BaselineChanged))
  }

  // ---- candidate_action ----

  datatype ActEnv = ActEnv(harnessBefore: bool, filesOk: bool, before: Option<Sources>, exec: ExecEnv,
                           harnessAfter: bool, after: Option<Sources>)

  function CandidateKey(action: Action): Key {
    Key(CandidateEvaluation, Candidate, action)
  }

  function Cleared(results: map<Key, Executed>): map<Key, Executed> {
    map k | k in results && !(k.phase == CandidateEvaluation && k.role == Candidate) :: results[k]
  }

  predicate Passes(results: map<Key, Executed>, action: Action) {
    CandidateKey(action) in results && results[CandidateKey(action)].result.pass
  }

  /** Everything candidate_action decides before the command is started. */
  function Gate(mem: Memory, action: Action, env: ActEnv): Result<Memory, Refusal> {
    if mem.initial.None? || !mem.initial.value.accepted then Err(NotAccepted)
    else if !env.harnessBefore then Err(HarnessChanged)
    else if !env.filesOk then Err(FilesInvalid)
    else if action == ValidateTask then Err(UnsupportedAction)
    else if env.before.None? then Err(SourcesUnreadable)
    else if action == Compile then Ok(mem.(results := Cleared(mem.results), identity := env.before))
    else if env.before != mem.identity then Err(CandidateChanged)
    else if !Passes(mem.results, Compile) || (action == Performance && !Passes(mem.results, Correctness)) then
      Err(PrerequisiteMissing)
    else Ok(mem)
  }

  function Act(mem: Memory, log: seq<Entry>, action: Action, env: ActEnv): ExecStep {
    match Gate(mem, action, env)
    case Err(e) => ExecStep(mem, log, Err(e))
    case Ok(m) =>
      var step := Execute(m, log, CandidateKey(action), env.exec);
      if step.r.Ok? && !env.harnessAfter then step.(r := Err(HarnessChanged))
      else if step.r.Ok? && env.after != env.before then step.(r := Err(SourcesModified))
      else step
  }

  // ---- validate_initial ----

  datatype Check = Check(role: Role, action: Action)

  function Plan(spec: Spec): (plan: seq<Check>)
    ensures |plan| == if spec.implemented && spec.provided then 7 else 4
  {
    [Check(Task, ValidateTask), Check(Baseline, Compile), Check(Baseline, Correctness), Check(Baseline, Performance)]
    + if spec.implemented && spec.provided
      then [Check(Candidate, Compile), Check(Candidate, Correctness), Check(Candidate, Performance)] else []
  }

  function InitialKey(check: Check): Key {
    Key(TaskValidation, check.role, check.action)
  }

  /** Every command that reports a candidate state must report the declared one, and one must. */
  predicate StateVerified(spec: Spec, x: Executed) {
    var declared := Text(if spec.implemented then "implemented" else "unimplemented");
    var c := x.result.commands;
    && (exists k :: 0 <= k < |c| && c[k].Some? && "candidate_state" in c[k].value)
    && (forall k :: 0 <= k < |c| && c[k].Some? && "candidate_state" in c[k].value ==>
          c[k].value["candidate_state"] == declared)
  }

  /** Whether one check of the plan is passed, given the manifest at that moment. */
  predicate Accepted(spec: Spec, check: Check, x: Executed, manifest: Option<Manifest>) {
    match check.role
    case Task => x.result.pass && StateVerified(spec, x) && FromResult(x.result).Ok?
    case Baseline =>
      if check.action == Correctness then
        manifest.Some? && BaselineCorrectnessAccepted(x.result, spec.diagnostic, true, manifest.value)
      else x.result.pass
    case Candidate => x.result.pass
  }

  /** What the session remembers of a finished check beyond its result. */
  function Remember(spec: Spec, mem: Memory, check: Check, x: Executed): Memory {
    if check.role != Task then mem
    else
      var m := mem.(evidence := Some(x));
      if Accepted(spec, check, x, mem.manifest) then m.(manifest := Some(FromResult(x.result).value)) else m
  }

  datatype Ending = Died | Refused(error: Refusal) | Complete

  datatype Attempt = Attempt(mem: Memory, log: seq<Entry>, numerical: string, diagnostic: bool, ending: Ending)

  function StatusName(pass: bool): string {
    if pass then "PASS" else "FAIL"
  }

  /** What validate_initial does not catch. */
  predicate PassesThrough(e: Refusal) {
    e == EvidenceNotWritten || e == ExceptionEscaped(AsOther)
  }

  /** One check; the ending stays Complete while nothing has gone wrong. */
  function CheckOnce(spec: Spec, a: Attempt, check: Check, env: ExecEnv): Attempt {
    var step := Execute(a.mem, a.log, InitialKey(check), env);
    match step.r
    case Err(e) =>
      a.(mem := step.mem, log := step.log, ending := if PassesThrough(e) then Died else Refused(e))
    case Ok(x) =>
      var ok := Accepted(spec, check, x, step.mem.manifest);
      var numeric := check == Check(Baseline, Correctness);
      Attempt(Remember(spec, step.mem, check, x), step.log,
              if numeric then StatusName(x.result.pass) else a.numerical,
              if numeric then ok && !x.result.pass else a.diagnostic,
              if ok then a.ending else Refused(CheckFailed))
  }

  /** The checks of the plan in order, until one raises, is refused, or the process dies: after `stop` checks,
      or with an exception that validate_initial does not catch. */
  function RunPlan(spec: Spec, a: Attempt, plan: seq<Check>, envs: seq<ExecEnv>, stop: nat): Attempt
    requires |envs| >= |plan|
    decreases |plan|
  {
    if stop == 0 then a.(ending := Died)
    else if plan == [] then a
    else
      var b := CheckOnce(spec, a, plan[0], envs[0]);
      if b.ending.Complete? then RunPlan(spec, b, plan[1..], envs[1..], stop - 1) else b
  }

  function FinalChecks(spec: Spec): CandidateChecks {
    if !spec.implemented then IsUnimplemented else if !spec.provided then FrozenBaseline else ChecksPassed
  }

  function Verdict(spec: Spec, a: Attempt): InitialValidation {
    InitialValidation(a.ending.Complete?, a.numerical, a.diagnostic, spec.implemented,
                      if a.ending.Complete? then FinalChecks(spec) else NotRun,
                      if a.ending.Refused? then [a.ending.error] else [])
  }

  datatype Validated = Validated(process: Option<Memory>, disk: Disk)

  /** The report file after the report was to be written to it. */
  function ReportAfter(before: SavedReport, v: InitialValidation, w: Write): SavedReport {
    match w
    case WriteFailed(Nothing) => before
    case WriteFailed(Part) => TornReport
    case _ => Saved(v)
  }

  /** The whole of validate_initial; the process may die during it, or while its report is written. */
  function ValidateInitial(spec: Spec, mem: Memory, disk: Disk, envs: seq<ExecEnv>, stop: nat, write: Write)
    : Validated
    requires |envs| >= |Plan(spec)|
  {
    if mem.initial.Some? then Validated(Some(mem), disk)
    else
      var a := RunPlan(spec, Attempt(mem, disk.log, "NOT_RUN", false, Complete), Plan(spec), envs, stop);
      if a.ending.Died? then Validated(None, Disk(a.log, disk.report))
      else
        var v := Verdict(spec, a);
        Validated(if write.Written? then Some(a.mem.(initial := Some(v))) else None,
                  Disk(a.log, ReportAfter(disk.report, v, write)))
  }

  // ---- load ----

  datatype Contradiction = TornFile | Malformed | WrongMerge | NoManifest | NotInManifest | HarnessOrBaseline
                         | ReportUnsupported

  function KeyOf(body: Body): Key {
    match body
    case Completed(phase, x) => Key(phase, x.result.role, x.result.action)
    case Errored(key) => key
    case Torn(key) => key
  }

  function ReplayEntry(mem: Memory, e: Entry): Result<Memory, Contradiction> {
    var m := mem.(invocations := if e.number > mem.invocations then e.number else mem.invocations);
    var key := KeyOf(e.body);
    match e.body
    case Errored(_) =>
      var popped := m.(results := m.results - {key});
      Ok(if key == TASK_CHECK then popped.(evidence := None, manifest := None) else popped)
    case Torn(_) => Err(TornFile)
    case Completed(_, x) =>
      if !FromParser(x.commands) then Err(Malformed)
      else if Merge(x.commands) != Ok(x.result) then Err(WrongMerge)
      else
        var kept := m.(results := m.results[key := x]);
        if key == TASK_CHECK then
          var seen := kept.(evidence := Some(x));
          if !x.result.pass then Ok(seen)
          else match FromResult(x.result)
               case Err(_) => Err(NoManifest)
               case Ok(manifest) => Ok(seen.(manifest := Some(manifest)))
        else if m.manifest.Some? && !Accepts(m.manifest.value, x.result) then Err(NotInManifest)
        else Ok(kept)
  }

  /** The records in the order of their numbers. */
  function Replay(log: seq<Entry>): Result<Memory, Contradiction> {
    if log == [] then Ok(FRESH)
    else match Replay(log[..|log| - 1])
         case Err(e) => Err(e)
         case Ok(m) => ReplayEntry(m, log[|log| - 1])
  }

  /** The plan's checks, each with passing evidence under the manifest of the latest task check. */
  predicate PlanPassed(spec: Spec, m: Memory, plan: seq<Check>) {
    forall k :: 0 <= k < |plan| ==>
      && InitialKey(plan[k]) in m.results
      && Accepted(spec, plan[k], m.results[InitialKey(plan[k])], m.manifest)
      && (plan[k].role != Task ==> m.manifest.Some? && Accepts(m.manifest.value, m.results[InitialKey(plan[k])].result))
  }

  /** _verify_saved_initial_validation: the accepted report must follow from the evidence. */
  predicate VerifySaved(spec: Spec, m: Memory, report: InitialValidation) {
    && m.manifest.Some? && m.evidence.Some? && m.evidence.value.result.pass && StateVerified(spec, m.evidence.value)
    && PlanPassed(spec, m, Plan(spec)[1..])
    && var numeric := m.results[InitialKey(Plan(spec)[2])].result;
       report == InitialValidation(true, StatusName(numeric.pass), !numeric.pass, spec.implemented,
                                   FinalChecks(spec), [])
  }

  function Load(spec: Spec, disk: Disk, intact: bool): Result<Memory, Contradiction> {
    if !intact then Err(HarnessOrBaseline)
    else
      match Replay(disk.log)
      case Err(e) => Err(e)
      case Ok(m) =>
        if disk.report.TornReport? then Err(TornFile)
        else if disk.report.Saved? && disk.report.verdict.accepted && !VerifySaved(spec, m, disk.report.verdict) then
          Err(ReportUnsupported)
        else Ok(m.(initial := InitialOf(disk.report)))
  }

  // ---- The session object ----

  class Session {
    const spec: Spec
    var results: map<Key, Executed>
    var manifest: Option<Manifest>
    var taskEvidence: Option<Executed>
    var initialValidation: Option<InitialValidation>
    var invocations: nat
    var candidateIdentity: Option<Sources>
    var log: seq<Entry>
    var report: SavedReport

    function Mem(): Memory
      reads this
    {
      Memory(results, manifest, taskEvidence, initialValidation, invocations, candidateIdentity)
    }

    constructor (spec: Spec)
      ensures this.spec == spec && Mem() == FRESH && log == [] && report == Missing
    {
      this.spec := spec;
      results, manifest, taskEvidence, initialValidation := map[], None, None, None;
      invocations, candidateIdentity, log, report := 0, None, [], Missing;
    }

    method ExecuteAction(key: Key, env: ExecEnv) returns (r: Result<Executed, Refusal>)
      modifies this`results, this`invocations, this`log
      ensures ExecStep(Mem(), log, r) == Execute(old(Mem()), old(log), key, env)
    {
      hide RunAction, Recorded, Merge, Accepts, FromParser;
      invocations := invocations + 1;
      if !env.baselineBefore {
        return Err(BaselineChanged);
      }
      var outcome := RunCommands(key.role, key.action, if key.role == Task then None else manifest, env.id, env.outs,
                                 env.late);
      match outcome {
        case Escaped(kind) =>
          return Err(ExceptionEscaped(kind));
        case Failing =>
          results := results - {key};
          log := Recorded(log, Entry(invocations, Errored(key)), env.write);
          return Err(if env.write.Written? then ExecutionFailed else EvidenceNotWritten);
        case Returned(x) =>
          log := Recorded(log, Entry(invocations, Completed(key.phase, x)), env.write);
          if !env.write.Written? {
            return Err(EvidenceNotWritten);
          }
          results := results[key := x];
          if !env.baselineAfter {
            return Err(BaselineChanged);
          }
          return Ok(x);
      }
    }

    method CandidateAction(action: Action, env: ActEnv) returns (r: Result<Executed, Refusal>)
      modifies this`results, this`invocations, this`log, this`candidateIdentity
      ensures ExecStep(Mem(), log, r) == Act(old(Mem()), old(log), action, env)
    {
      if initialValidation.None? || !initialValidation.value.accepted {
        return Err(NotAccepted);
      }
      if !env.harnessBefore {
        return Err(HarnessChanged);
      }
      if !env.filesOk {
        return Err(FilesInvalid);
      }
      if action == ValidateTask {
        return Err(UnsupportedAction);
      }
      if env.before.None? {
        return Err(SourcesUnreadable);
      }
      if action == Compile {
        results := Cleared(results);
        candidateIdentity := env.before;
      } else if env.before != candidateIdentity {
        return Err(CandidateChanged);
      }
      if action != Compile && !Passes(results, Compile) {
        return Err(PrerequisiteMissing);
      }
      if action == Performance && !Passes(results, Correctness) {
        return Err(PrerequisiteMissing);
      }
      r := ExecuteAction(CandidateKey(action), env.exec);
      if r.Ok? {
        if !env.harnessAfter {
          return Err(HarnessChanged);
        }
        if env.after != env.before {
          return Err(SourcesModified);
        }
      }
    }

    /** One initial check, with what the session remembers of it. */
    method RunCheck(check: Check, env: ExecEnv, before: (string, bool))
      returns (numeric: (string, bool), ending: Ending)
      modifies this`results, this`manifest, this`taskEvidence, this`invocations, this`log
      ensures Attempt(Mem(), log, numeric.0, numeric.1, ending)
              == CheckOnce(spec, Attempt(old(Mem()), old(log), before.0, before.1, Complete), check, env)
    {
      hide Execute, Accepted, FromResult;
      numeric, ending := before, Complete;
      var r := ExecuteAction(InitialKey(check), env);
      if r.Err? {
        ending := if PassesThrough(r.error) then Died else Refused(r.error);
        return;
      }
      var x := r.value;
      var accepted := Accepted(spec, check, x, manifest);
      if check.role == Task {
        taskEvidence := Some(x);
        if accepted {
          AcceptedTask(spec, check, x, manifest);
          manifest := Some(FromResult(x.result).value);
        }
      }
      if check == Check(Baseline, Correctness) {
        numeric := (StatusName(x.result.pass), accepted && !x.result.pass);
      }
      if !accepted {
        ending := Refused(CheckFailed);
      }
    }

    /** The checks of initial validation; done is false when the process died before its report was written. */
    method Validate(envs: seq<ExecEnv>, stop: nat, write: Write) returns (done: bool)
      requires |envs| >= |Plan(spec)|
      modifies this
      ensures var v := ValidateInitial(spec, old(Mem()), Disk(old(log), old(report)), envs, stop, write);
              && done == v.process.Some?
              && (done ==> v.process.value == Mem())
              && v.disk == Disk(log, report)
    {
      hide CheckOnce, Plan, Verdict;
      if initialValidation.Some? {
        return true;
      }
      var numeric, ending, plan := ("NOT_RUN", false), Complete, Plan(spec);
      ghost var whole := RunPlan(spec, Attempt(Mem(), log, numeric.0, numeric.1, ending), plan, envs, stop);
      var n := 0;
      while n < |plan| && n < stop && ending.Complete?
        invariant 0 <= n <= |plan| && n <= stop
        invariant initialValidation.None? && report == old(report)
        invariant var a := Attempt(Mem(), log, numeric.0, numeric.1, ending);
                  whole == if ending.Complete? then RunPlan(spec, a, plan[n..], envs[n..], stop - n) else a
      {
        assert plan[n..][1..] == plan[n + 1..] && envs[n..][1..] == envs[n + 1..];
        numeric, ending := RunCheck(plan[n], envs[n], numeric);
        n := n + 1;
      }
      if ending.Complete? && n == stop {
        ending := Died;
      }
      if ending.Died? {
        return false;
      }
      initialValidation := Some(Verdict(spec, Attempt(Mem(), log, numeric.0, numeric.1, ending)));
      report := ReportAfter(report, initialValidation.value, write);
      return write.Written?;
    }

    /** One record of the replay loop. */
    method ReplayRecord(e: Entry) returns (r: Result<(), Contradiction>)
      modifies this`results, this`manifest, this`taskEvidence, this`invocations
      ensures r.Ok? <==> ReplayEntry(old(Mem()), e).Ok?
      ensures r.Ok? ==> ReplayEntry(old(Mem()), e) == Ok(Mem())
    {
      hide Merge, Accepts, FromResult, FromParser;
      invocations := if e.number > invocations then e.number else invocations;
      var key := KeyOf(e.body);
      match e.body {
        case Errored(_) =>
          results := results - {key};
          if key == TASK_CHECK {
            taskEvidence, manifest := None, None;
          }
        case Torn(_) =>
          return Err(TornFile);
        case Completed(_, x) =>
          if !FromParser(x.commands) {
            return Err(Malformed);
          }
          if Merge(x.commands) != Ok(x.result) {
            return Err(WrongMerge);
          }
          results := results[key := x];
          if key == TASK_CHECK {
            taskEvidence := Some(x);
            if x.result.pass {
              var m := FromResult(x.result);
              if m.Err? {
                return Err(NoManifest);
              }
              manifest := Some(m.value);
            }
          } else if manifest.Some? && !Accepts(manifest.value, x.result) {
            return Err(NotInManifest);
          }
      }
      return Ok(());
    }

    /** Rebuilds an empty session from the records and report of its state directory. */
    method Reload(intact: bool) returns (r: Result<(), Contradiction>)
      requires Mem() == FRESH
      modifies this`results, this`manifest, this`taskEvidence, this`initialValidation, this`invocations
      ensures r.Ok? <==> Load(spec, Disk(log, report), intact).Ok?
      ensures r.Ok? ==> Load(spec, Disk(log, report), intact) == Ok(Mem())
    {
      hide ReplayEntry, VerifySaved;
      if !intact {
        return Err(HarnessOrBaseline);
      }
      var n := 0;
      while n < |log|
        invariant 0 <= n <= |log|
        invariant initialValidation.None?
        invariant Replay(log[..n]) == Ok(Mem())
      {
        assert log[..n + 1][..n] == log[..n];
        ReplayErrPrefix(log, n + 1);
        r := ReplayRecord(log[n]);
        if r.Err? {
          return;
        }
        n := n + 1;
      }
      assert log[..n] == log;
      if report.TornReport? {
        return Err(TornFile);
      }
      if report.Saved? && report.verdict.accepted && !VerifySaved(spec, Mem(), report.verdict) {
        return Err(ReportUnsupported);
      }
      initialValidation := InitialOf(report);
      return Ok(());
    }
  }

  lemma AcceptedTask(spec: Spec, check: Check, x: Executed, manifest: Option<Manifest>)
    requires Accepted(spec, check, x, manifest) && check.role == Task
    ensures FromResult(x.result).Ok?
  {
  }

  /** A log whose beginning cannot be replayed cannot be replayed. */
  lemma {:induction false} ReplayErrPrefix(log: seq<Entry>, n: nat)
    requires n <= |log|
    ensures Replay(log[..n]).Err? ==> Replay(log).Err?
    decreases |log|
  {
    if n < |log| {
      var init := log[..|log| - 1];
      assert init[..n] == log[..n];
      ReplayErrPrefix(init, n);
    } else {
      assert log[..n] == log;
    }
  }
}
