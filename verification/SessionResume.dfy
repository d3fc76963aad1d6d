/** Resuming a task session: what a load rebuilds from the records and the report of a state directory, in every
    run and for any directory. */
module SessionResume {
  import opened Wrappers
  import opened TaskProtocol
  import opened TaskSession
  import opened SessionRuns

  // ---- Records, replay and the saved report ----

  ghost predicate Increasing(log: seq<Entry>) {
    forall i, j :: 0 <= i < j < |log| ==> log[i].number < log[j].number
  }

  ghost predicate NumbersUpTo(log: seq<Entry>, n: nat) {
    forall i :: 0 <= i < |log| ==> log[i].number <= n
  }

  /** The same results of the initial phase. */
  ghost predicate SameInitial(a: map<Key, Executed>, b: map<Key, Executed>) {
    forall k: Key :: k.phase == TaskValidation ==> (k in a <==> k in b) && (k in a && k in b ==> a[k] == b[k])
  }

  /** A passing task check that names no performance case; its record can never be replayed. */
  predicate Barren(e: Entry) {
    e.body.Completed? && KeyOf(e.body) == TASK_CHECK && e.body.executed.result.pass
    && FromResult(e.body.executed.result).Err?
  }

  ghost predicate HasBarren(log: seq<Entry>) {
    exists k :: 0 <= k < |log| && Barren(log[k])
  }

  ghost predicate HasTorn(log: seq<Entry>) {
    exists k :: 0 <= k < |log| && log[k].body.Torn?
  }

  /** The log without its torn files. */
  function Whole(log: seq<Entry>): seq<Entry> {
    if log == [] then []
    else
      var e := log[|log| - 1];
      Whole(log[..|log| - 1]) + if e.body.Torn? then [] else [e]
  }

  lemma WholeSnoc(log: seq<Entry>, e: Entry)
    ensures Whole(log + [e]) == if e.body.Torn? then Whole(log) else Whole(log) + [e]
    ensures HasTorn(log + [e]) <==> HasTorn(log) || e.body.Torn?
  {
    assert (log + [e])[..|log|] == log;
    assert HasTorn(log) ==> exists k :: 0 <= k < |log| && (log + [e])[k].body.Torn?;
    assert (log + [e])[|log|] == e;
  }

  /** A torn file stops the replay; without one, the log is whole. */
  lemma {:induction false} TornStopsReplay(log: seq<Entry>)
    ensures HasTorn(log) ==> Replay(log).Err?
    ensures !HasTorn(log) ==> Whole(log) == log
    ensures HasBarren(Whole(log)) <==> HasBarren(log)
  {
    hide Merge, FromResult, Accepts, FromParser, Barren;
    if log != [] {
      var init, e := log[..|log| - 1], log[|log| - 1];
      TornStopsReplay(init);
      assert log == init + [e];
      WholeSnoc(init, e);
      BarrenSnoc(init, e);
      BarrenSnoc(Whole(init), e);
      TornIsNotBarren(e);
    }
  }

  lemma BarrenSnoc(log: seq<Entry>, e: Entry)
    ensures HasBarren(log + [e]) <==> HasBarren(log) || Barren(e)
  {
    hide Barren;
    assert forall k :: 0 <= k < |log| ==> (log + [e])[k] == log[k];
    assert (log + [e])[|log|] == e;
  }

  lemma TornIsNotBarren(e: Entry)
    ensures e.body.Torn? ==> !Barren(e)
  {
  }

  ghost predicate Synced(r: Memory, mem: Memory) {
    SameInitial(r.results, mem.results) && r.manifest == mem.manifest && r.evidence == mem.evidence
  }

  /** Replaying the whole records gives what the session remembers of the initial phase. */
  ghost predicate InStep(a: Attempt) {
    && Increasing(a.log) && NumbersUpTo(a.log, a.mem.invocations)
    && (match Replay(Whole(a.log))
        case Err(_) => HasBarren(Whole(a.log)) && !a.ending.Complete?
        case Ok(r) => (!a.ending.Died? ==> SameInitial(r.results, a.mem.results))
                      && (a.ending.Complete? ==> Synced(r, a.mem)))
  }

  lemma ReplaySnoc(log: seq<Entry>, e: Entry)
    ensures Replay(log + [e]) == match Replay(log) case Err(x) => Err(x) case Ok(m) => ReplayEntry(m, e)
  {
  }

  lemma NumbersSnoc(log: seq<Entry>, n: nat, body: Body)
    requires Increasing(log) && NumbersUpTo(log, n)
    ensures Increasing(log + [Entry(n + 1, body)]) && NumbersUpTo(log + [Entry(n + 1, body)], n + 1)
    ensures NumbersUpTo(log, n + 1)
  {
  }

  predicate LeavesWhole(w: Write) {
    w.Written? || w.left.Everything?
  }

  /** A record that was to be written: the log keeps its order, and the whole records grow by it or not at all. */
  lemma RecordedKeeps(log: seq<Entry>, n: nat, body: Body, w: Write)
    requires Increasing(log) && NumbersUpTo(log, n) && !body.Torn?
    ensures var after := Recorded(log, Entry(n + 1, body), w);
            && Increasing(after) && NumbersUpTo(after, n + 1)
            && Whole(after) == (if LeavesWhole(w) then Whole(log) + [Entry(n + 1, body)] else Whole(log))
  {
    hide Increasing, NumbersUpTo, Whole;
    NumbersSnoc(log, n, body);
    NumbersSnoc(log, n, Torn(KeyOf(body)));
    WholeSnoc(log, Entry(n + 1, body));
    WholeSnoc(log, Entry(n + 1, Torn(KeyOf(body))));
  }

  predicate InPlan(check: Check) {
    check.role == Task <==> check.action == ValidateTask
  }

  /** What replaying one record of the initial phase gives, when memory and replay agreed before it. */
  lemma RecordReplays(log: seq<Entry>, mem: Memory, number: nat, x: Executed)
    requires Replay(log).Ok? && Synced(Replay(log).value, mem)
    requires Merge(x.commands) == Ok(x.result) && FromParser(x.commands)
    requires mem.manifest.Some? && x.result.action != ValidateTask ==> Accepts(mem.manifest.value, x.result)
    requires x.result.role == Task <==> x.result.action == ValidateTask
    ensures var e := Entry(number, Completed(TaskValidation, x));
            match Replay(log + [e])
            case Err(_) => Barren(e)
            case Ok(r) =>
              && SameInitial(r.results, mem.results[KeyOf(e.body) := x])
              && (if x.result.role != Task then r.manifest == mem.manifest && r.evidence == mem.evidence
                  else r.evidence == Some(x)
                       && r.manifest == if x.result.pass then Some(FromResult(x.result).value) else mem.manifest)
  {
    hide Merge, FromResult, Accepts, Replay, FromParser;
    ReplaySnoc(log, Entry(number, Completed(TaskValidation, x)));
  }

  lemma ErrorReplays(log: seq<Entry>, mem: Memory, number: nat, key: Key)
    requires Replay(log).Ok? && Synced(Replay(log).value, mem)
    ensures Replay(log + [Entry(number, Errored(key))]).Ok?
    ensures SameInitial(Replay(log + [Entry(number, Errored(key))]).value.results, mem.results - {key})
  {
  }

  function CheckOutcome(a: Attempt, check: Check, env: ExecEnv): Outcome {
    RunAction(check.role, check.action, if check.role == Task then None else a.mem.manifest, env.id, env.outs, env.late)
  }

  lemma FailingStaysInStep(spec: Spec, a: Attempt, check: Check, env: ExecEnv)
    requires InStep(a) && a.ending.Complete? && CheckOutcome(a, check, env).Failing?
    ensures InStep(CheckOnce(spec, a, check, env))
  {
    hide RunAction, Merge, FromResult, Accepts, FromParser, StateVerified, Replay, Increasing, NumbersUpTo, SameInitial,
         BaselineCorrectnessAccepted, Whole, Recorded, Accepted, Barren;
    NumbersGrow(a.log, a.mem.invocations);
    RecordedKeeps(a.log, a.mem.invocations, Errored(InitialKey(check)), env.write);
    ErrorReplays(Whole(a.log), a.mem, a.mem.invocations + 1, InitialKey(check));
  }

  /** What one check that gave a result leaves behind. */
  lemma ReturnedCheck(spec: Spec, a: Attempt, check: Check, env: ExecEnv)
    requires a.ending.Complete? && env.baselineBefore && CheckOutcome(a, check, env).Returned?
    ensures var b, x := CheckOnce(spec, a, check, env), CheckOutcome(a, check, env).executed;
            && b.log == Recorded(a.log, Entry(a.mem.invocations + 1, Completed(TaskValidation, x)), env.write)
            && b.mem.invocations == a.mem.invocations + 1
            && (b.ending.Died? <==> !env.write.Written?)
            && (env.write.Written? ==> b.mem.results == a.mem.results[InitialKey(check) := x])
            && (b.ending.Complete? ==>
                  if check.role == Task
                  then && x.result.pass && FromResult(x.result).Ok? && b.mem.evidence == Some(x)
                       && b.mem.manifest == Some(FromResult(x.result).value)
                  else b.mem.evidence == a.mem.evidence && b.mem.manifest == a.mem.manifest)
  {
    hide RunAction, Merge, FromResult, Accepts, FromParser, StateVerified, BaselineCorrectnessAccepted, Recorded;
  }

  lemma ReturnedStaysInStep(spec: Spec, a: Attempt, check: Check, env: ExecEnv)
    requires InStep(a) && a.ending.Complete? && InPlan(check)
    requires env.baselineBefore && CheckOutcome(a, check, env).Returned?
    ensures InStep(CheckOnce(spec, a, check, env))
  {
    hide CheckOnce, RunAction, Merge, FromResult, Accepts, FromParser, Replay, Increasing, NumbersUpTo,
         SameInitial, Whole, Recorded, HasBarren, StateVerified;
    var n, x := a.mem.invocations, CheckOutcome(a, check, env).executed;
    ReturnedCheck(spec, a, check, env);
    RecordedKeeps(a.log, n, Completed(TaskValidation, x), env.write);
    RecordReplays(Whole(a.log), a.mem, n + 1, x);
    BarrenSnoc(Whole(a.log), Entry(n + 1, Completed(TaskValidation, x)));
  }

  lemma CheckStaysInStep(spec: Spec, a: Attempt, check: Check, env: ExecEnv)
    requires InStep(a) && a.ending.Complete? && InPlan(check)
    ensures InStep(CheckOnce(spec, a, check, env))
  {
    hide RunAction, Replay, Increasing, NumbersUpTo, SameInitial, Whole, Recorded, Accepted, Remember;
    NumbersGrow(a.log, a.mem.invocations);
    match CheckOutcome(a, check, env)
    case Escaped(_) =>
    case Failing => FailingStaysInStep(spec, a, check, env);
    case Returned(_) =>
      if env.baselineBefore {
        ReturnedStaysInStep(spec, a, check, env);
      }
  }

  lemma NumbersGrow(log: seq<Entry>, n: nat)
    requires NumbersUpTo(log, n)
    ensures NumbersUpTo(log, n + 1)
  {
  }

  /** The first k checks of the plan are passed, and what the report will say of them is noted. */
  ghost predicate DoneSoFar(spec: Spec, a: Attempt, k: nat) {
    && k <= |Plan(spec)| && PlanPassed(spec, a.mem, Plan(spec)[..k])
    && (k >= 1 ==> && a.mem.manifest.Some? && a.mem.evidence.Some?
                   && a.mem.evidence.value.result.pass && StateVerified(spec, a.mem.evidence.value))
    && (k >= 3 ==> Noted(a))
  }

  const NUMERIC := Key(TaskValidation, Baseline, Correctness)

  ghost predicate Noted(a: Attempt) {
    && NUMERIC in a.mem.results
    && a.numerical == StatusName(a.mem.results[NUMERIC].result.pass)
    && a.diagnostic == !a.mem.results[NUMERIC].result.pass
  }

  /** A passed check leaves its result under its own key and keeps the manifest, unless it is the task check. */
  lemma PassedCheck(spec: Spec, a: Attempt, check: Check, env: ExecEnv)
    requires a.ending.Complete? && InPlan(check)
    requires CheckOnce(spec, a, check, env).ending.Complete?
    ensures var b := CheckOnce(spec, a, check, env);
            var key := InitialKey(check);
            && key in b.mem.results && b.mem.results == a.mem.results[key := b.mem.results[key]]
            && Accepted(spec, check, b.mem.results[key], b.mem.manifest)
            && (if check.role == Task
                then b.mem.manifest.Some? && b.mem.evidence == Some(b.mem.results[key])
                else b.mem.manifest == a.mem.manifest && b.mem.evidence == a.mem.evidence
                     && (a.mem.manifest.Some? ==> Accepts(a.mem.manifest.value, b.mem.results[key].result)))
            && (if check == Check(Baseline, Correctness) then Noted(b)
                else b.numerical == a.numerical && b.diagnostic == a.diagnostic)
  {
  }

  lemma PlanKeys(spec: Spec, i: nat, j: nat)
    requires i < |Plan(spec)| && j < |Plan(spec)|
    ensures InPlan(Plan(spec)[i])
    ensures Plan(spec)[i].role == Task <==> i == 0
    ensures Plan(spec)[2] == Check(Baseline, Correctness)
    ensures InitialKey(Plan(spec)[i]) == InitialKey(Plan(spec)[j]) ==> i == j
  {
  }

  lemma CheckAdvances(spec: Spec, a: Attempt, k: nat, env: ExecEnv)
    requires k < |Plan(spec)| && DoneSoFar(spec, a, k) && a.ending.Complete?
    requires CheckOnce(spec, a, Plan(spec)[k], env).ending.Complete?
    ensures DoneSoFar(spec, CheckOnce(spec, a, Plan(spec)[k], env), k + 1)
  {
    hide CheckOnce, Accepts, StateVerified, Plan, FromResult, BaselineCorrectnessAccepted;
    var plan := Plan(spec);
    var check := plan[k];
    var b := CheckOnce(spec, a, check, env);
    PlanKeys(spec, k, k);
    PlanKeys(spec, 2, k);
    PassedCheck(spec, a, check, env);
    forall j | 0 <= j < k + 1
      ensures InitialKey(plan[j]) in b.mem.results
              && Accepted(spec, plan[j], b.mem.results[InitialKey(plan[j])], b.mem.manifest)
              && (plan[j].role != Task ==> b.mem.manifest.Some?
                                           && Accepts(b.mem.manifest.value, b.mem.results[InitialKey(plan[j])].result))
    {
      PlanKeys(spec, j, k);
      if j < k {
        assert plan[..k][j] == plan[j];
      }
    }
    assert PlanPassed(spec, b.mem, plan[..k + 1]);
  }

  lemma {:induction false} RunPlanEnds(spec: Spec, a: Attempt, k: nat, envs: seq<ExecEnv>, stop: nat)
    requires k <= |Plan(spec)| && |envs| >= |Plan(spec)| - k
    requires InStep(a) && DoneSoFar(spec, a, k) && a.ending.Complete?
    ensures var b := RunPlan(spec, a, Plan(spec)[k..], envs, stop);
            InStep(b) && (b.ending.Complete? ==> DoneSoFar(spec, b, |Plan(spec)|))
    decreases |Plan(spec)| - k
  {
    hide CheckOnce, Plan, DoneSoFar, Replay, Increasing, NumbersUpTo, SameInitial, Synced;
    var plan := Plan(spec);
    if stop > 0 && k < |plan| {
      var b := CheckOnce(spec, a, plan[k], envs[0]);
      assert plan[k..][0] == plan[k] && plan[k..][1..] == plan[k + 1..];
      PlanKeys(spec, k, k);
      CheckStaysInStep(spec, a, plan[k], envs[0]);
      if b.ending.Complete? {
        CheckAdvances(spec, a, k, envs[0]);
        RunPlanEnds(spec, b, k + 1, envs[1..], stop - 1);
      }
    }
  }

  /** The saved report is checked against results of the initial phase, the manifest and the task evidence only. */
  lemma VerdictTransfers(spec: Spec, m: Memory, n: Memory, report: InitialValidation)
    requires Synced(m, n) && VerifySaved(spec, n, report)
    ensures VerifySaved(spec, m, report)
  {
    hide Accepted, Accepts, StateVerified, Plan;
    var plan := Plan(spec);
    assert InitialKey(plan[2]).phase == TaskValidation;
    forall k | 0 <= k < |plan[1..]|
      ensures InitialKey(plan[1..][k]) in m.results
              && m.results[InitialKey(plan[1..][k])] == n.results[InitialKey(plan[1..][k])]
    {
      assert InitialKey(plan[1..][k]).phase == TaskValidation;
    }
  }

  lemma CompletedIsVerified(spec: Spec, a: Attempt)
    requires a.ending.Complete? && DoneSoFar(spec, a, |Plan(spec)|)
    ensures VerifySaved(spec, a.mem, Verdict(spec, a))
  {
    hide Accepted, Accepts, StateVerified, Plan;
    var plan := Plan(spec);
    PlanKeys(spec, 2, 2);
    assert plan[..|plan|] == plan;
    forall k | 0 <= k < |plan[1..]|
      ensures var check := plan[1..][k];
              && InitialKey(check) in a.mem.results
              && Accepted(spec, check, a.mem.results[InitialKey(check)], a.mem.manifest)
              && (check.role != Task ==> a.mem.manifest.Some?
                                         && Accepts(a.mem.manifest.value, a.mem.results[InitialKey(check)].result))
    {
      assert plan[1..][k] == plan[k + 1];
    }
  }

  // ---- The invariant of whole runs ----

  ghost predicate Resumable(spec: Spec, m: Machine) {
    var replayed := Replay(Whole(m.disk.log));
    && Increasing(m.disk.log)
    && (replayed.Err? ==> HasBarren(Whole(m.disk.log)))
    && (m.disk.report.Saved? && m.disk.report.verdict.accepted ==>
          replayed.Ok? && VerifySaved(spec, replayed.value, m.disk.report.verdict))
    && (m.process.Some? ==>
          && !m.disk.report.TornReport?
          && NumbersUpTo(m.disk.log, m.process.value.invocations)
          && m.process.value.initial == InitialOf(m.disk.report)
          && (match replayed
              case Err(_) => m.disk.report.Saved?
              case Ok(r) =>
                && SameInitial(r.results, m.process.value.results)
                && (m.disk.report.Missing? || m.disk.report.verdict.accepted ==> Synced(r, m.process.value))))
  }

  lemma EntryNumbers(mem: Memory, e: Entry)
    ensures ReplayEntry(mem, e).Ok? ==>
              ReplayEntry(mem, e).value.invocations == if e.number > mem.invocations then e.number else mem.invocations
  {
    hide Merge, FromResult, Accepts, FromParser;
  }

  lemma {:induction false} ReplayNumbers(log: seq<Entry>)
    ensures Replay(log).Ok? ==> NumbersUpTo(log, Replay(log).value.invocations)
  {
    hide ReplayEntry;
    if log != [] {
      var init := log[..|log| - 1];
      ReplayNumbers(init);
      if Replay(init).Ok? {
        EntryNumbers(Replay(init).value, log[|log| - 1]);
      }
    }
  }

  lemma ValidateIsResumable(spec: Spec, m: Machine, envs: seq<ExecEnv>, stop: nat, write: Write)
    requires Resumable(spec, m) && Enabled(spec, m, Validates(envs, stop, write))
    ensures Resumable(spec, Step(spec, m, Validates(envs, stop, write)))
  {
    hide RunPlan, Plan, Replay, VerifySaved, Increasing, NumbersUpTo, SameInitial, DoneSoFar, HasBarren, Whole;
    var mem := m.process.value;
    if mem.initial.None? {
      var a := Attempt(mem, m.disk.log, "NOT_RUN", false, Complete);
      assert InStep(a);
      NothingDoneYet(spec, a);
      assert Plan(spec)[0..] == Plan(spec);
      RunPlanEnds(spec, a, 0, envs, stop);
      var b := RunPlan(spec, a, Plan(spec), envs, stop);
      if b.ending.Complete? {
        CompletedIsVerified(spec, b);
        VerdictTransfers(spec, Replay(Whole(b.log)).value, b.mem, Verdict(spec, b));
      }
    }
  }

  lemma NothingDoneYet(spec: Spec, a: Attempt)
    ensures DoneSoFar(spec, a, 0)
  {
  }

  lemma OtherPhase(a: map<Key, Executed>, b: map<Key, Executed>, key: Key, x: Executed)
    requires SameInitial(a, b) && key.phase == CandidateEvaluation
    ensures SameInitial(a[key := x], b[key := x]) && SameInitial(b[key := x], b) && SameInitial(a[key := x], b)
  {
  }

  lemma OtherPhaseRemoved(a: map<Key, Executed>, b: map<Key, Executed>, key: Key)
    requires SameInitial(a, b) && key.phase == CandidateEvaluation
    ensures SameInitial(a - {key}, b - {key}) && SameInitial(b - {key}, b) && SameInitial(a, b - {key})
  {
  }

  lemma OtherPhaseSame(a: map<Key, Executed>)
    ensures SameInitial(a, a)
  {
  }

  /** A candidate action after acceptance: its record, if it is whole, replays, and touches no result of the
      initial phase. */
  lemma ActReplays(m: Memory, log: seq<Entry>, action: Action, env: ExecEnv)
    requires Increasing(log) && NumbersUpTo(log, m.invocations)
    requires Replay(Whole(log)).Ok? && Synced(Replay(Whole(log)).value, m) && m.manifest.Some? && action != ValidateTask
    ensures var step := Execute(m, log, CandidateKey(action), env);
            && Increasing(step.log) && NumbersUpTo(step.log, step.mem.invocations)
            && Replay(Whole(step.log)).Ok? && Synced(Replay(Whole(step.log)).value, step.mem)
            && step.mem.initial == m.initial && SameInitial(step.mem.results, m.results)
            && step.mem.manifest == m.manifest && step.mem.evidence == m.evidence
  {
    hide RunAction, Merge, FromResult, Accepts, FromParser, Replay, SameInitial, Increasing, NumbersUpTo, Whole,
         Recorded;
    var key := CandidateKey(action);
    var w := Whole(log);
    OtherPhaseSame(m.results);
    NumbersGrow(log, m.invocations);
    match RunAction(Candidate, action, m.manifest, env.id, env.outs, env.late)
    case Escaped(_) =>
    case Failing =>
      RecordedKeeps(log, m.invocations, Errored(key), env.write);
      OtherPhaseRemoved(Replay(w).value.results, m.results, key);
      ReplaySnoc(w, Entry(m.invocations + 1, Errored(key)));
    case Returned(x) =>
      RecordedKeeps(log, m.invocations, Completed(CandidateEvaluation, x), env.write);
      OtherPhase(Replay(w).value.results, m.results, key, x);
      ReplaySnoc(w, Entry(m.invocations + 1, Completed(CandidateEvaluation, x)));
  }

  lemma ActIsResumable(spec: Spec, m: Machine, action: Action, env: ActEnv)
    requires Resumable(spec, m) && m.process.Some?
    ensures Resumable(spec, Step(spec, m, Acts(action, env)))
  {
    hide Execute, Replay, VerifySaved, Increasing, NumbersUpTo, HasBarren, Whole;
    var mem := m.process.value;
    if Gate(mem, action, env).Ok? {
      var g := Gate(mem, action, env).value;
      AcceptedHasManifest(spec, Replay(Whole(m.disk.log)).value, m.disk.report.verdict);
      ActReplays(g, m.disk.log, action, env.exec);
      var step := Execute(g, m.disk.log, CandidateKey(action), env.exec);
      VerdictTransfers(spec, Replay(Whole(step.log)).value, Replay(Whole(m.disk.log)).value, m.disk.report.verdict);
    }
  }

  lemma AcceptedHasManifest(spec: Spec, m: Memory, report: InitialValidation)
    requires VerifySaved(spec, m, report)
    ensures m.manifest.Some?
  {
  }

  lemma StepIsResumable(spec: Spec, m: Machine, e: Event)
    requires Resumable(spec, m) && Enabled(spec, m, e)
    ensures Resumable(spec, Step(spec, m, e))
  {
    hide Replay, VerifySaved, Increasing, HasBarren, ValidateInitial, Act, Plan, Whole;
    match e
    case Acts(action, env) => ActIsResumable(spec, m, action, env);
    case Validates(envs, stop, write) => ValidateIsResumable(spec, m, envs, stop, write);
    case Crashes =>
    case Loads(intact) =>
      ReplayNumbers(m.disk.log);
      TornStopsReplay(m.disk.log);
  }

  lemma {:induction false} RunIsResumable(spec: Spec, m: Machine, events: seq<Event>, n: Machine)
    requires Run(spec, m, events, n) && Resumable(spec, m)
    ensures Resumable(spec, n)
    decreases |events|
  {
    hide Step, Resumable;
    if events != [] {
      StepIsResumable(spec, m, events[0]);
      RunIsResumable(spec, Step(spec, m, events[0]), events[1..], n);
    }
  }

  // ---- What a saved report can say ----

  /** A report accepts exactly when it names no error, names one at most, and calls the baseline diagnostic only where
      the specification allows it and its correctness failed. */
  predicate Coherent(spec: Spec, v: InitialValidation) {
    && (v.accepted <==> v.errors == []) && |v.errors| <= 1 && v.implemented == spec.implemented
    && (v.diagnostic ==> spec.diagnostic && v.numerical == "FAIL")
    && (v.numerical == "NOT_RUN" || v.numerical == "PASS" || v.numerical == "FAIL")
    && (v.checks == NotRun <==> !v.accepted)
  }

  predicate NumericOk(spec: Spec, a: Attempt) {
    && (a.diagnostic ==> spec.diagnostic && a.numerical == "FAIL")
    && (a.numerical == "NOT_RUN" || a.numerical == "PASS" || a.numerical == "FAIL")
  }

  lemma CheckIsCoherent(spec: Spec, a: Attempt, check: Check, env: ExecEnv)
    requires NumericOk(spec, a)
    ensures NumericOk(spec, CheckOnce(spec, a, check, env))
  {
    hide Execute, Accepts, StateVerified, FromResult;
  }

  lemma {:induction false} PlanIsCoherent(spec: Spec, a: Attempt, plan: seq<Check>, envs: seq<ExecEnv>, stop: nat)
    requires |envs| >= |plan| && NumericOk(spec, a)
    ensures NumericOk(spec, RunPlan(spec, a, plan, envs, stop))
    decreases |plan|
  {
    hide CheckOnce;
    if stop > 0 && plan != [] {
      CheckIsCoherent(spec, a, plan[0], envs[0]);
      PlanIsCoherent(spec, CheckOnce(spec, a, plan[0], envs[0]), plan[1..], envs[1..], stop - 1);
    }
  }

  lemma StepIsCoherent(spec: Spec, m: Machine, e: Event)
    requires Enabled(spec, m, e) && (m.disk.report.Saved? ==> Coherent(spec, m.disk.report.verdict))
    ensures var d := Step(spec, m, e).disk; d.report.Saved? ==> Coherent(spec, d.report.verdict)
  {
    hide Act, RunPlan, Plan, Load;
    match e
    case Validates(envs, stop, write) =>
      PlanIsCoherent(spec, Attempt(m.process.value, m.disk.log, "NOT_RUN", false, Complete), Plan(spec), envs, stop);
    case _ =>
  }

  lemma {:induction false} RunIsCoherent(spec: Spec, m: Machine, events: seq<Event>, n: Machine)
    requires Run(spec, m, events, n) && (m.disk.report.Saved? ==> Coherent(spec, m.disk.report.verdict))
    ensures n.disk.report.Saved? ==> Coherent(spec, n.disk.report.verdict)
    decreases |events|
  {
    hide Step, Coherent;
    if events != [] {
      StepIsCoherent(spec, m, events[0]);
      RunIsCoherent(spec, Step(spec, m, events[0]), events[1..], n);
    }
  }

  /** In every run, of accepted reports and of others. */
  lemma SavedReportIsCoherent(spec: Spec, events: seq<Event>, m: Machine)
    requires Run(spec, START, events, m)
    ensures m.disk.report.Saved? ==> Coherent(spec, m.disk.report.verdict)
  {
    hide Run, Coherent;
    RunIsCoherent(spec, START, events, m);
  }

  /** When validation dies in a check, so that no report is written: its record could not be written, or an exception
      escaped that is no ValueError. */
  lemma CheckDiesExactly(spec: Spec, a: Attempt, check: Check, env: ExecEnv)
    requires a.ending.Complete?
    ensures CheckOnce(spec, a, check, env).ending.Died? <==>
              env.baselineBefore &&
              match CheckOutcome(a, check, env)
              case Escaped(kind) => kind == AsOther
              case _ => !env.write.Written?
  {
    hide RunAction, Recorded, Accepted;
  }

  // ---- The results about resuming ----

  /** In every run, record numbers are never used twice, and loading a live session's directory rebuilds its
      results of the initial phase and its report. */
  lemma LoadRebuildsTheSession(spec: Spec, events: seq<Event>, m: Machine)
    requires Run(spec, START, events, m)
    ensures Increasing(m.disk.log)
    ensures m.process.Some? && Load(spec, m.disk, true).Ok? ==>
              var loaded := Load(spec, m.disk, true).value;
              && SameInitial(loaded.results, m.process.value.results)
              && loaded.initial == m.process.value.initial
  {
    hide Run, Replay, VerifySaved, Whole;
    StartIsResumable(spec);
    RunIsResumable(spec, START, events, m);
    TornStopsReplay(m.disk.log);
  }

  /** An accepted initial validation survives every crash exactly as long as no record was torn: then the load
      succeeds and returns it unchanged. */
  lemma AcceptedReportIsLoaded(spec: Spec, events: seq<Event>, m: Machine)
    requires Run(spec, START, events, m)
    requires m.disk.report.Saved? && m.disk.report.verdict.accepted
    ensures Load(spec, m.disk, true).Ok? <==> !HasTorn(m.disk.log)
    ensures Load(spec, m.disk, true).Ok? ==> Load(spec, m.disk, true).value.initial == Some(m.disk.report.verdict)
  {
    hide Run, Replay, VerifySaved, Increasing, Whole;
    StartIsResumable(spec);
    RunIsResumable(spec, START, events, m);
    TornStopsReplay(m.disk.log);
  }

  /** What makes an intact directory unloadable, in every run: a torn record, a torn report, or a passing task check
      on record that names no performance case. */
  lemma UnloadableExactly(spec: Spec, events: seq<Event>, m: Machine)
    requires Run(spec, START, events, m)
    ensures Load(spec, m.disk, true).Err? <==>
              HasTorn(m.disk.log) || m.disk.report.TornReport? || HasBarren(m.disk.log)
  {
    hide Run, Replay, VerifySaved, Increasing, Whole;
    StartIsResumable(spec);
    RunIsResumable(spec, START, events, m);
    TornStopsReplay(m.disk.log);
    if HasBarren(m.disk.log) {
      BarrenStopsReplay(m.disk.log);
    }
  }

  lemma StartIsResumable(spec: Spec)
    ensures Resumable(spec, START)
  {
  }

  lemma BarrenEntryStops(mem: Memory, e: Entry)
    requires Barren(e)
    ensures ReplayEntry(mem, e).Err?
  {
    hide Merge, Accepts, FromParser, FromResult;
  }

  lemma {:induction false} BarrenStopsReplay(log: seq<Entry>)
    requires HasBarren(log)
    ensures Replay(log).Err?
  {
    hide Barren, ReplayEntry;
    var k :| 0 <= k < |log| && Barren(log[k]);
    var init := log[..|log| - 1];
    if k < |init| {
      assert Barren(init[k]);
      BarrenStopsReplay(init);
    } else if Replay(init).Ok? {
      BarrenEntryStops(Replay(init).value, log[k]);
    }
  }
}
