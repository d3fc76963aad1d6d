/** No case is timed that was not checked: what a session's manifest, its latest correctness result and a returned
    performance result have to do with one another, in every run. */
module SessionCoverage {
  import opened Wrappers
  import opened TaskProtocol
  import opened TaskSession
  import opened ActionEvidence
  import opened SessionRuns
  import opened SessionResume

  /** The manifest names every case once, and whatever is timed is checked. */
  predicate ChecksWhatIsTimed(m: Manifest) {
    && Distinct(Ids(m.cases))
    && forall k :: 0 <= k < |m.cases| && "performance" in m.cases[k].checks ==> "correctness" in m.cases[k].checks
  }

  /** What the session holds of a candidate action since its latest compile. */
  ghost predicate Evident(manifest: Manifest, action: Action, x: Executed) {
    && Merge(x.commands) == Ok(x.result) && FromParser(x.commands) && x.result.action == action
    && Accepts(manifest, x.result)
  }

  ghost predicate Covered(mem: Memory) {
    && (mem.manifest.Some? ==> ChecksWhatIsTimed(mem.manifest.value))
    && (mem.identity.Some? ==>
          && mem.initial.Some? && mem.manifest.Some?
          && forall action :: CandidateKey(action) in mem.results ==>
               Evident(mem.manifest.value, action, mem.results[CandidateKey(action)]))
  }

  lemma ManifestIsSound(x: Executed)
    requires Merge(x.commands) == Ok(x.result) && FromParser(x.commands) && FromResult(x.result).Ok?
    ensures ChecksWhatIsTimed(FromResult(x.result).value)
  {
    hide Merge, Distinct, Ids, Nonblank;
    MergedIs(x.commands);
    MergedIsDistinct(x.commands);
    SameActions(x.commands);
    forall k | 0 <= k < |x.result.cases| && "performance" in x.result.cases[k].checks
      ensures "correctness" in x.result.cases[k].checks
    {
      var row := x.result.cases[k];
      RowIsReported(x.commands, row);
      var c :| 0 <= c < |x.commands| && row in x.commands[c].cases;
      assert ReportAllowed(x.commands[c]);
      var j :| 0 <= j < |x.commands[c].cases| && x.commands[c].cases[j] == row;
      assert RowAllowed(x.commands[c], x.commands[c].cases[j]);
    }
  }

  lemma MergedIsDistinct(reports: seq<Report>)
    requires Merge(reports).Ok?
    ensures Distinct(Ids(Merge(reports).value.cases))
  {
  }

  lemma SameActions(reports: seq<Report>)
    requires Merge(reports).Ok?
    ensures forall k :: 0 <= k < |reports| ==> reports[k].action == Merge(reports).value.action
  {
  }

  // ---- Every step keeps it ----

  lemma ExecuteIsCovered(m: Memory, log: seq<Entry>, action: Action, env: ExecEnv)
    requires Covered(m) && m.identity.Some? && action != ValidateTask
    ensures Covered(Execute(m, log, CandidateKey(action), env).mem)
  {
    hide RunAction, Merge, Accepts, FromParser, Recorded, ChecksWhatIsTimed;
  }

  lemma ActIsCovered(mem: Memory, log: seq<Entry>, action: Action, env: ActEnv)
    requires Covered(mem) && (mem.initial.Some? && mem.initial.value.accepted ==> mem.manifest.Some?)
    ensures Covered(Act(mem, log, action, env).mem)
  {
    hide Execute, ChecksWhatIsTimed, Evident;
    if Gate(mem, action, env).Ok? {
      ExecuteIsCovered(Gate(mem, action, env).value, log, action, env.exec);
    }
  }

  /** Initial checks run before any candidate action. */
  ghost predicate Unstarted(mem: Memory) {
    mem.initial.None? && mem.identity.None? && (mem.manifest.Some? ==> ChecksWhatIsTimed(mem.manifest.value))
  }

  lemma CheckStaysUnstarted(spec: Spec, a: Attempt, check: Check, env: ExecEnv)
    requires Unstarted(a.mem)
    ensures Unstarted(CheckOnce(spec, a, check, env).mem)
  {
    hide RunAction, Merge, Accepts, FromParser, Recorded, ChecksWhatIsTimed, StateVerified, FromResult,
         BaselineCorrectnessAccepted;
    var step := Execute(a.mem, a.log, InitialKey(check), env);
    if step.r.Ok? && FromResult(step.r.value.result).Ok? {
      ManifestIsSound(step.r.value);
    }
  }

  lemma {:induction false} PlanStaysUnstarted(spec: Spec, a: Attempt, plan: seq<Check>, envs: seq<ExecEnv>, stop: nat)
    requires |envs| >= |plan| && Unstarted(a.mem)
    ensures Unstarted(RunPlan(spec, a, plan, envs, stop).mem)
    decreases |plan|
  {
    hide CheckOnce, Unstarted;
    if stop > 0 && plan != [] {
      CheckStaysUnstarted(spec, a, plan[0], envs[0]);
      PlanStaysUnstarted(spec, CheckOnce(spec, a, plan[0], envs[0]), plan[1..], envs[1..], stop - 1);
    }
  }

  lemma EntryIsSound(mem: Memory, e: Entry)
    requires ReplayEntry(mem, e).Ok? && (mem.manifest.Some? ==> ChecksWhatIsTimed(mem.manifest.value))
    ensures var m := ReplayEntry(mem, e).value; m.manifest.Some? ==> ChecksWhatIsTimed(m.manifest.value)
  {
    hide Merge, FromResult, Accepts, FromParser, ChecksWhatIsTimed;
    if e.body.Completed? && FromResult(e.body.executed.result).Ok? {
      ManifestIsSound(e.body.executed);
    }
  }

  lemma {:induction false} ReplayIsSound(log: seq<Entry>)
    requires Replay(log).Ok?
    ensures var m := Replay(log).value; m.manifest.Some? ==> ChecksWhatIsTimed(m.manifest.value)
  {
    hide ReplayEntry, ChecksWhatIsTimed;
    if log != [] {
      ReplayIsSound(log[..|log| - 1]);
      EntryIsSound(Replay(log[..|log| - 1]).value, log[|log| - 1]);
    }
  }

  ghost predicate Safe(m: Machine) {
    m.process.Some? ==> Covered(m.process.value) && (m.process.value.initial.None? ==> m.process.value.identity.None?)
  }

  lemma ActKeepsInitial(mem: Memory, log: seq<Entry>, action: Action, env: ActEnv)
    ensures var after := Act(mem, log, action, env).mem;
            after.initial == mem.initial && (mem.initial.None? ==> after.identity == mem.identity)
  {
    hide RunAction, Recorded;
  }

  lemma StepIsSafe(spec: Spec, m: Machine, e: Event)
    requires Enabled(spec, m, e) && Safe(m) && Resumable(spec, m)
    ensures Safe(Step(spec, m, e))
  {
    hide RunAction, Execute, RunPlan, Plan, Act, Replay, ChecksWhatIsTimed, VerifySaved, Verdict, Resumable;
    match e
    case Acts(action, env) =>
      AcceptedMeansManifest(spec, m);
      ActIsCovered(m.process.value, m.disk.log, action, env);
      ActKeepsInitial(m.process.value, m.disk.log, action, env);
    case Validates(envs, stop, write) =>
      var mem := m.process.value;
      if mem.initial.None? {
        PlanStaysUnstarted(spec, Attempt(mem, m.disk.log, "NOT_RUN", false, Complete), Plan(spec), envs, stop);
      }
    case Crashes =>
    case Loads(intact) =>
      ReplayHasNoIdentity(m.disk.log);
      if Replay(m.disk.log).Ok? {
        ReplayIsSound(m.disk.log);
      }
  }

  lemma AcceptedMeansManifest(spec: Spec, m: Machine)
    requires Resumable(spec, m) && m.process.Some?
    ensures m.process.value.initial.Some? && m.process.value.initial.value.accepted ==> m.process.value.manifest.Some?
  {
    hide Replay, Increasing, NumbersUpTo, HasBarren, Whole, StateVerified, PlanPassed;
  }

  lemma {:induction false} RunIsSafe(spec: Spec, m: Machine, events: seq<Event>, n: Machine)
    requires Run(spec, m, events, n) && Safe(m) && Resumable(spec, m)
    ensures Safe(n)
    decreases |events|
  {
    hide Step, Resumable, Safe;
    if events != [] {
      StepIsSafe(spec, m, events[0]);
      StepIsResumable(spec, m, events[0]);
      RunIsSafe(spec, Step(spec, m, events[0]), events[1..], n);
    }
  }

  // ---- The result ----

  /** In every run: whatever case a returned performance result times, the correctness result the session holds
      since its latest compile reports the same case, with the same identity, as passed. */
  lemma TimedCasesWereChecked(spec: Spec, events: seq<Event>, m: Machine, env: ActEnv, k: nat)
    requires Run(spec, START, events, m) && m.process.Some?
    requires Act(m.process.value, m.disk.log, Performance, env).r.Ok?
    ensures CandidateKey(Correctness) in m.process.value.results
    ensures var timed := Act(m.process.value, m.disk.log, Performance, env).r.value.result.cases;
            var checked := m.process.value.results[CandidateKey(Correctness)].result.cases;
            k < |timed| ==>
              exists j :: 0 <= j < |checked| && checked[j].id == timed[k].id && checked[j].pass
                          && IdentityOf(checked[j]) == IdentityOf(timed[k])
  {
    hide Run, Resumable, Merge, Accepts, FromParser, Distinct, Ids;
    StartIsResumable(spec);
    RunIsSafe(spec, START, events, m);
    var mem := m.process.value;
    PerformanceReturns(mem, m.disk.log, env);
    var x, y := Act(mem, m.disk.log, Performance, env).r.value, mem.results[CandidateKey(Correctness)];
    assert Evident(mem.manifest.value, Correctness, y);
    PassingRowsPass(y);
    if k < |x.result.cases| {
      SameCase(mem.manifest.value, x.result, y.result, k);
    }
  }

  lemma PerformanceReturns(mem: Memory, log: seq<Entry>, env: ActEnv)
    requires Act(mem, log, Performance, env).r.Ok?
    ensures mem.identity.Some? && Passes(mem.results, Correctness) && mem.manifest.Some?
    ensures var x := Act(mem, log, Performance, env).r.value;
            x.result.action == Performance && Accepts(mem.manifest.value, x.result)
  {
    hide Merge, Accepts, Collected, FromParser, Recorded;
  }

  /** A case of the performance result, found among those of the correctness result. */
  lemma SameCase(m: Manifest, timed: ActionResult, checked: ActionResult, k: nat)
    requires ChecksWhatIsTimed(m) && timed.action == Performance && checked.action == Correctness
    requires Accepts(m, timed) && Accepts(m, checked) && k < |timed.cases|
    ensures exists j :: 0 <= j < |checked.cases| && checked.cases[j].id == timed.cases[k].id
                        && IdentityOf(checked.cases[j]) == IdentityOf(timed.cases[k])
  {
    hide Accepts, Distinct, Ids;
    ManifestCovers(m, timed);
    ManifestCovers(m, checked);
    var row := timed.cases[k];
    assert IsDeclared(m, row, Performance);
    var d :| 0 <= d < |m.cases| && Answers(row, m.cases[d], Performance);
    assert Requires(m.cases[d], Correctness);
    assert Answered(checked.cases, m.cases[d], Correctness);
  }
}
