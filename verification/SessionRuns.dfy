/** Whole runs of a task session: candidate edits, candidate actions, initial validation, crashes and loads in
    any order. A history of what was started is kept beside the session, so that the results can speak of the
    latest execution of an action without trusting what the session remembers. */
module SessionRuns {
  import opened Wrappers
  import opened TaskProtocol
  import opened TaskSession

  // ---- Runs ----

  /** How a started command ended; Unrecorded when its evidence could not be written, Uncaught when an exception
      escaped that the session does not handle. */
  datatype Effect = Passed | NotPassed | Raised | Unrecorded(pass: bool) | Uncaught

  datatype Happening = Reset(sources: Sources) | Ran(action: Action, sources: Sources, effect: Effect) | Loaded

  function EffectOf(manifest: Option<Manifest>, action: Action, env: ExecEnv): Effect {
    match RunAction(Candidate, action, manifest, env.id, env.outs, env.late)
    case Escaped(_) => Uncaught
    case Failing => Raised
    case Returned(x) =>
      if !env.write.Written? then Unrecorded(x.result.pass) else if x.result.pass then Passed else NotPassed
  }

  /** A compile that gets through resets the attempt, and the command itself runs unless the frozen baseline
      has changed. */
  function Happened(mem: Memory, action: Action, env: ActEnv): seq<Happening> {
    match Gate(mem, action, env)
    case Err(_) => []
    case Ok(m) =>
      (if action == Compile then [Reset(env.before.value)] else [])
      + (if env.exec.baselineBefore
         then [Ran(action, env.before.value, EffectOf(mem.manifest, action, env.exec))] else [])
  }

  datatype Machine = Machine(disk: Disk, process: Option<Memory>, history: seq<Happening>)

  datatype Event =
    | Acts(action: Action, env: ActEnv)
    | Validates(envs: seq<ExecEnv>, stop: nat, write: Write)
    | Crashes
    | Loads(intact: bool)

  predicate Enabled(spec: Spec, m: Machine, e: Event) {
    match e
    case Acts(_, _) => m.process.Some?
    case Validates(envs, _, _) => m.process.Some? && |envs| >= |Plan(spec)|
    case Crashes => true
    case Loads(_) => m.process.None?
  }

  function Step(spec: Spec, m: Machine, e: Event): Machine
    requires Enabled(spec, m, e)
  {
    match e
    case Acts(action, env) =>
      var step := Act(m.process.value, m.disk.log, action, env);
      Machine(m.disk.(log := step.log), Some(step.mem), m.history + Happened(m.process.value, action, env))
    case Validates(envs, stop, write) =>
      var v := ValidateInitial(spec, m.process.value, m.disk, envs, stop, write);
      Machine(v.disk, v.process, m.history)
    case Crashes => m.(process := None)
    case Loads(intact) =>
      match Load(spec, m.disk, intact)
      case Err(_) => m
      case Ok(mem) => Machine(m.disk, Some(mem), m.history + [Loaded])
  }

  const START := Machine(Disk([], Missing), Some(FRESH), [])

  ghost predicate Run(spec: Spec, m: Machine, events: seq<Event>, n: Machine)
    decreases |events|
  {
    if events == [] then m == n
    else Enabled(spec, m, events[0]) && Run(spec, Step(spec, m, events[0]), events[1..], n)
  }

  // ---- What the history says ----

  /** The sources of the latest compile reset in this process. */
  function LastReset(h: seq<Happening>): Option<Sources> {
    if h == [] then None
    else match h[|h| - 1]
         case Loaded => None
         case Reset(s) => Some(s)
         case Ran(_, _, _) => LastReset(h[..|h| - 1])
  }

  /** What the session takes no notice of. */
  predicate Forgotten(e: Effect) {
    e.Unrecorded? || e.Uncaught?
  }

  /** The effect of the latest execution of an action since that reset; with `recorded`, executions that were
      forgotten are passed over. */
  function Latest(h: seq<Happening>, action: Action, recorded: bool): Option<Effect> {
    if h == [] then None
    else match h[|h| - 1]
         case Loaded => None
         case Reset(_) => None
         case Ran(a, _, e) =>
           if a == action && !(recorded && Forgotten(e)) then Some(e)
           else Latest(h[..|h| - 1], action, recorded)
  }

  /** Everything executed since that reset was started on these sources. */
  predicate AllOn(h: seq<Happening>, s: Sources) {
    h == [] || (h[|h| - 1].Ran? ==> h[|h| - 1].sources == s && AllOn(h[..|h| - 1], s))
  }

  /** The command itself passed. */
  predicate Succeeded(e: Effect) {
    e == Passed || e == Unrecorded(true)
  }

  /** A failure whose evidence was lost, or an exception that escaped: an earlier pass stays in memory. */
  predicate LeavesEarlierPass(e: Effect) {
    e == Unrecorded(false) || e == Uncaught
  }

  lemma {:induction false} LatestOrForgotten(h: seq<Happening>, action: Action)
    requires Latest(h, action, true) == Some(Passed)
    ensures var e := Latest(h, action, false);
            e.Some? && (Succeeded(e.value) <==> !LeavesEarlierPass(e.value))
  {
    if h[|h| - 1].action != action {
      LatestOrForgotten(h[..|h| - 1], action);
    }
  }

  // ---- The timing gate ----

  /** What a process may rely on: its identity is that of the latest reset, and what it remembers as passed is
      what the history says passed. */
  ghost predicate Faithful(mem: Memory, h: seq<Happening>) {
    && mem.identity == LastReset(h)
    && (mem.identity.Some? ==>
          && AllOn(h, mem.identity.value)
          && forall action :: Passes(mem.results, action) <==> Latest(h, action, true) == Some(Passed))
  }

  /** Results of the initial phase are the only ones initial checks touch. */
  lemma CheckKeepsCandidate(spec: Spec, a: Attempt, check: Check, env: ExecEnv)
    ensures var b := CheckOnce(spec, a, check, env);
            && b.mem.identity == a.mem.identity && b.mem.initial == a.mem.initial
            && forall action :: Passes(b.mem.results, action) <==> Passes(a.mem.results, action)
  {
    hide RunAction, Accepted;
  }

  lemma {:induction false} PlanKeepsCandidate(spec: Spec, a: Attempt, plan: seq<Check>, envs: seq<ExecEnv>, stop: nat)
    requires |envs| >= |plan|
    ensures var b := RunPlan(spec, a, plan, envs, stop);
            && b.mem.identity == a.mem.identity && b.mem.initial == a.mem.initial
            && forall action :: Passes(b.mem.results, action) <==> Passes(a.mem.results, action)
    decreases |plan|
  {
    hide CheckOnce;
    if stop > 0 && plan != [] {
      CheckKeepsCandidate(spec, a, plan[0], envs[0]);
      PlanKeepsCandidate(spec, CheckOnce(spec, a, plan[0], envs[0]), plan[1..], envs[1..], stop - 1);
    }
  }

  lemma AllOnSnoc(h: seq<Happening>, s: Sources, action: Action, e: Effect)
    ensures AllOn(h + [Ran(action, s, e)], s) <==> AllOn(h, s)
  {
  }

  /** One execution of a candidate action, started on the sources of the reset. */
  lemma ExecuteIsFaithful(m: Memory, log: seq<Entry>, action: Action, env: ExecEnv, h: seq<Happening>, s: Sources)
    requires Faithful(m, h) && m.identity == Some(s)
    ensures var ran := Ran(action, s, EffectOf(m.manifest, action, env));
            Faithful(Execute(m, log, CandidateKey(action), env).mem, if env.baselineBefore then h + [ran] else h)
  {
    hide RunAction, Recorded, Merge, Accepts, FromParser, AllOn;
    AllOnSnoc(h, s, action, EffectOf(m.manifest, action, env));
    var ran := Ran(action, s, EffectOf(m.manifest, action, env));
    assert (h + [ran])[..|h|] == h;
    var after := Execute(m, log, CandidateKey(action), env).mem;
    if env.baselineBefore {
      forall a ensures Passes(after.results, a) <==> Latest(h + [ran], a, true) == Some(Passed) {
        assert Passes(m.results, a) <==> Latest(h, a, true) == Some(Passed);
      }
    }
  }

  lemma ActIsFaithful(mem: Memory, log: seq<Entry>, action: Action, env: ActEnv, h: seq<Happening>)
    requires Faithful(mem, h)
    ensures Faithful(Act(mem, log, action, env).mem, h + Happened(mem, action, env))
  {
    hide RunAction, Execute, EffectOf;
    assert h + [] == h;
    if Gate(mem, action, env).Ok? {
      var m := Gate(mem, action, env).value;
      var s := env.before.value;
      var g := if action == Compile then h + [Reset(s)] else h;
      if action == Compile {
        assert g[|g| - 1] == Reset(s);
        assert forall a :: !Passes(m.results, a);
      }
      ExecuteIsFaithful(m, log, action, env.exec, g, s);
      var ran := Ran(action, s, EffectOf(m.manifest, action, env.exec));
      assert h + Happened(mem, action, env) == if env.exec.baselineBefore then g + [ran] else g;
    }
  }

  lemma StepIsFaithful(spec: Spec, m: Machine, e: Event)
    requires Enabled(spec, m, e) && (m.process.Some? ==> Faithful(m.process.value, m.history))
    ensures var n := Step(spec, m, e); n.process.Some? ==> Faithful(n.process.value, n.history)
  {
    hide RunAction, Execute, RunPlan, Plan, Act, Happened, Replay;
    match e
    case Acts(action, env) =>
      ActIsFaithful(m.process.value, m.disk.log, action, env, m.history);
    case Validates(envs, stop, write) =>
      var mem := m.process.value;
      var a := Attempt(mem, m.disk.log, "NOT_RUN", false, Complete);
      PlanKeepsCandidate(spec, a, Plan(spec), envs, stop);
    case Crashes =>
    case Loads(intact) =>
      ReplayHasNoIdentity(m.disk.log);
  }

  lemma {:induction false} ReplayHasNoIdentity(log: seq<Entry>)
    ensures Replay(log).Ok? ==> Replay(log).value.identity.None? && Replay(log).value.initial.None?
  {
    hide ReplayEntry;
    if log != [] {
      var init := log[..|log| - 1];
      ReplayHasNoIdentity(init);
      if Replay(init).Ok? {
        EntryKeepsIdentity(Replay(init).value, log[|log| - 1]);
      }
    }
  }

  lemma EntryKeepsIdentity(mem: Memory, e: Entry)
    ensures ReplayEntry(mem, e).Ok? ==>
              ReplayEntry(mem, e).value.identity == mem.identity && ReplayEntry(mem, e).value.initial == mem.initial
  {
    hide Merge, FromResult, Accepts, FromParser;
  }

  lemma {:induction false} RunIsFaithful(spec: Spec, m: Machine, events: seq<Event>, n: Machine)
    requires Run(spec, m, events, n) && (m.process.Some? ==> Faithful(m.process.value, m.history))
    ensures n.process.Some? ==> Faithful(n.process.value, n.history)
    decreases |events|
  {
    hide Step, Faithful;
    if events != [] {
      StepIsFaithful(spec, m, events[0]);
      RunIsFaithful(spec, Step(spec, m, events[0]), events[1..], n);
    }
  }

  /** Whenever candidate_action("performance") returns, in any run: it started and finished on the sources of the
      latest compile reset in this process, everything since then was started on them, and the latest recorded
      compile and correctness since then passed. The latest one executed of each passed too, exactly unless it was
      a failure whose evidence was lost or an exception that escaped. Nothing before a load counts. */
  lemma TimingIsGated(spec: Spec, events: seq<Event>, m: Machine, env: ActEnv)
    requires Run(spec, START, events, m) && m.process.Some?
    requires Act(m.process.value, m.disk.log, Performance, env).r.Ok?
    ensures env.before.Some? && env.after == env.before && LastReset(m.history) == env.before
    ensures AllOn(m.history, env.before.value)
    ensures Latest(m.history, Compile, true) == Latest(m.history, Correctness, true) == Some(Passed)
    ensures var e := Latest(m.history, Compile, false);
            e.Some? && (Succeeded(e.value) <==> !LeavesEarlierPass(e.value))
    ensures var e := Latest(m.history, Correctness, false);
            e.Some? && (Succeeded(e.value) <==> !LeavesEarlierPass(e.value))
  {
    hide Run, RunAction, Execute;
    RunIsFaithful(spec, START, events, m);
    LatestOrForgotten(m.history, Compile);
    LatestOrForgotten(m.history, Correctness);
  }

  predicate HasPassed(mem: Memory, action: Action) {
    var key := Key(CandidateEvaluation, Candidate, action);
    key in mem.results && mem.results[key].result.pass
  }

  /** When a candidate action returns: exactly when the initial validation was accepted, every check of protected
      files and of the candidate's files held before and after, the sources are readable and did not change, all but
      compile find them as compile left them together with the passes they depend on, and the commands gave a result
      whose record was written. That result is returned and remembered. */
  lemma ActionReturnsExactly(mem: Memory, log: seq<Entry>, action: Action, env: ActEnv)
    ensures var step, outcome := Act(mem, log, action, env),
                                 RunAction(Candidate, action, mem.manifest, env.exec.id, env.exec.outs, env.exec.late);
            && (step.r.Ok? <==>
                  && mem.initial.Some? && mem.initial.value.accepted && action != ValidateTask
                  && env.harnessBefore && env.filesOk && env.exec.baselineBefore
                  && env.before.Some? && env.after == env.before && env.harnessAfter && env.exec.baselineAfter
                  && (action != Compile ==> mem.identity == env.before && HasPassed(mem, Compile))
                  && (action == Performance ==> HasPassed(mem, Correctness))
                  && outcome.Returned? && env.exec.write.Written?)
            && (step.r.Ok? ==>
                  && step.r.value == outcome.executed
                  && Key(CandidateEvaluation, Candidate, action) in step.mem.results
                  && step.mem.results[Key(CandidateEvaluation, Candidate, action)] == outcome.executed
                  && step.mem.identity == env.before
                  && step.log == log + [Entry(mem.invocations + 1, Completed(CandidateEvaluation, outcome.executed))])
  {
    hide RunAction, Merge, Accepts, FromParser;
  }

  /** Both exceptions matter: after such a correctness run the earlier pass stays, and timing is still authorised
      on the same sources. */
  lemma EarlierPassStillAuthorises(mem: Memory, log: seq<Entry>, failing: ActEnv, timing: ActEnv)
    requires Gate(mem, Correctness, failing).Ok? && Passes(mem.results, Correctness)
    requires failing.exec.baselineBefore
    requires LeavesEarlierPass(EffectOf(mem.manifest, Correctness, failing.exec))
    requires timing.harnessBefore && timing.filesOk && timing.before == failing.before
    ensures var step := Act(mem, log, Correctness, failing);
            && step.r.Err? && step.mem == mem.(invocations := mem.invocations + 1)
            && Happened(mem, Correctness, failing)
               == [Ran(Correctness, failing.before.value, EffectOf(mem.manifest, Correctness, failing.exec))]
            && Gate(step.mem, Performance, timing).Ok?
  {
    hide RunAction, Execute, EffectOf;
    ForgottenExecution(mem, log, Correctness, failing.exec);
  }

  lemma ForgottenExecution(mem: Memory, log: seq<Entry>, action: Action, env: ExecEnv)
    requires env.baselineBefore && Forgotten(EffectOf(mem.manifest, action, env))
    ensures var step := Execute(mem, log, CandidateKey(action), env);
            step.mem == mem.(invocations := mem.invocations + 1) && step.r.Err?
  {
    hide RunAction, Recorded;
  }

  /** After a load, and until a compile, no action but compile gets through. */
  lemma LoadedSessionMustCompile(spec: Spec, disk: Disk, mem: Memory, action: Action, env: ActEnv)
    requires Load(spec, disk, true) == Ok(mem)
    ensures Gate(mem, action, env).Ok? ==> action == Compile
  {
    hide Replay, VerifySaved;
    ReplayHasNoIdentity(disk.log);
  }
}
