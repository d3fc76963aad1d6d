/** From a run of a session to its score: evaluate_task_session of src/evaluator.py compares the performance
    result a session has just returned with the baseline result it validated at the start. */
module SessionScores {
  import opened Wrappers
  import opened TaskProtocol
  import opened TaskSession
  import opened SessionRuns
  import opened SessionResume
  import opened Speedup
  import opened ScoredEvidence

  const BASELINE_TIMING := Key(TaskValidation, Baseline, Performance)

  predicate Merged(key: Key, x: Executed) {
    && Merge(x.commands) == Ok(x.result) && x.result.role == key.role && x.result.action == key.action
    && FromParser(x.commands)
  }

  lemma EntryIsMerged(mem: Memory, e: Entry, key: Key)
    requires ReplayEntry(mem, e).Ok? && key in ReplayEntry(mem, e).value.results
    ensures var x := ReplayEntry(mem, e).value.results[key];
            Merged(key, x) || (key in mem.results && mem.results[key] == x)
  {
    hide Merge, FromResult, Accepts, FromParser;
  }

  /** Replayed results were merged from reports the parser accepts, and stand under their own keys. */
  lemma {:induction false} ReplayedAreMerged(log: seq<Entry>, key: Key)
    requires Replay(log).Ok? && key in Replay(log).value.results
    ensures Merged(key, Replay(log).value.results[key])
  {
    hide Merged, ReplayEntry;
    if log != [] {
      var init := log[..|log| - 1];
      EntryIsMerged(Replay(init).value, log[|log| - 1], key);
      if key in Replay(init).value.results {
        ReplayedAreMerged(init, key);
      }
    }
  }

  /** What a session knows of its baseline once its initial validation is accepted. */
  lemma AcceptedBaseline(spec: Spec, events: seq<Event>, m: Machine)
    requires Run(spec, START, events, m) && m.process.Some?
    requires m.process.value.initial.Some? && m.process.value.initial.value.accepted
    ensures var mem := m.process.value;
            && mem.manifest.Some? && BASELINE_TIMING in mem.results
            && var y := mem.results[BASELINE_TIMING];
               && Merge(y.commands) == Ok(y.result) && FromParser(y.commands)
               && y.result.pass && y.result.action == Performance && Accepts(mem.manifest.value, y.result)
  {
    hide Run, Replay, Increasing, NumbersUpTo, HasBarren, Whole, Merge, Accepts, StateVerified, FromParser;
    StartIsResumable(spec);
    RunIsResumable(spec, START, events, m);
    var log := Whole(m.disk.log);
    VerdictHolds(spec, Replay(log).value, m.disk.report.verdict);
    ReplayedAreMerged(log, BASELINE_TIMING);
  }

  lemma VerdictHolds(spec: Spec, m: Memory, report: InitialValidation)
    requires VerifySaved(spec, m, report)
    ensures m.manifest.Some? && BASELINE_TIMING in m.results && m.results[BASELINE_TIMING].result.pass
    ensures Accepts(m.manifest.value, m.results[BASELINE_TIMING].result)
  {
    hide Accepts, StateVerified;
    assert Plan(spec)[1..][2] == Check(Baseline, Performance);
  }

  lemma ReturnedIsAccepted(mem: Memory, log: seq<Entry>, env: ActEnv)
    requires Act(mem, log, Performance, env).r.Ok?
    ensures var x := Act(mem, log, Performance, env).r.value;
            && Merge(x.commands) == Ok(x.result) && FromParser(x.commands) && x.result.action == Performance
            && mem.manifest.Some? && Accepts(mem.manifest.value, x.result)
            && mem.initial.Some? && mem.initial.value.accepted
  {
    hide Merge, Accepts, Collected, FromParser, Recorded;
  }

  /** In every run: when the performance action returns a pass, it and the session's baseline are evidence for one
      manifest, so as long as no row of either marks its id as synthetic they pair id for id, and they score exactly
      when undeclared workload fields agree and every case was timed alike. */
  lemma ReturnedPerformanceScores(spec: Spec, events: seq<Event>, m: Machine, env: ActEnv)
    requires Run(spec, START, events, m) && m.process.Some?
    requires Act(m.process.value, m.disk.log, Performance, env).r.Ok?
    ensures BASELINE_TIMING in m.process.value.results
    ensures var x := Act(m.process.value, m.disk.log, Performance, env).r.value;
            var y := m.process.value.results[BASELINE_TIMING];
            x.result.pass && Unmarked(x.result.cases) && Unmarked(y.result.cases) ==>
              && TimedRows(y.result.cases) && TimedRows(x.result.cases)
              && PairsFor(CasesOf(y.result.cases), CasesOf(x.result.cases), true)
                 == SameIds(y.result.cases, x.result.cases)
              && (AverageSpeedup(CasesOf(y.result.cases), CasesOf(x.result.cases), true) > 0.0
                  <==> ResiduesAgree(y.result.cases, x.result.cases) && AllTimedAlike(y.result.cases, x.result.cases))
  {
    hide Run, Act, Merge, Accepts, ReportAllowed, Unmarked, TimedRow, PairsFor, AverageSpeedup, ResiduesAgree,
         AllTimedAlike, SameIds, CaseOf;
    var mem := m.process.value;
    ReturnedIsAccepted(mem, m.disk.log, env);
    AcceptedBaseline(spec, events, m);
    var x := Act(mem, m.disk.log, Performance, env).r.value;
    var y := mem.results[BASELINE_TIMING];
    if x.result.pass && Unmarked(x.result.cases) && Unmarked(y.result.cases) {
      ManifestPairsIds(mem.manifest.value, y.commands, y.result, x.commands, x.result);
      EvidenceScores(mem.manifest.value, y.commands, y.result, x.commands, x.result);
    }
  }

  /** In every run: the score of such a result lies between any bounds that its times keep with those of the
      session's baseline, id for id. */
  lemma ReturnedScoreWithin(spec: Spec, events: seq<Event>, m: Machine, env: ActEnv, lo: real, hi: real)
    requires Run(spec, START, events, m) && m.process.Some?
    requires Act(m.process.value, m.disk.log, Performance, env).r.Ok?
    ensures BASELINE_TIMING in m.process.value.results
    ensures var x := Act(m.process.value, m.disk.log, Performance, env).r.value;
            var y := m.process.value.results[BASELINE_TIMING];
            x.result.pass && Unmarked(x.result.cases) && Unmarked(y.result.cases)
            && RowsTake(y.result.cases, x.result.cases, lo, hi) ==>
              && TimedRows(y.result.cases) && TimedRows(x.result.cases)
              && var r := AverageSpeedup(CasesOf(y.result.cases), CasesOf(x.result.cases), true);
                 r > 0.0 ==> lo <= r <= hi
  {
    hide Run, Act, Merge, Accepts, ReportAllowed, Unmarked, TimedRow, AverageSpeedup, CaseOf, RowsTake;
    var mem := m.process.value;
    ReturnedIsAccepted(mem, m.disk.log, env);
    AcceptedBaseline(spec, events, m);
    var x, y := Act(mem, m.disk.log, Performance, env).r.value, mem.results[BASELINE_TIMING];
    if x.result.pass && Unmarked(x.result.cases) && Unmarked(y.result.cases)
       && RowsTake(y.result.cases, x.result.cases, lo, hi)
    {
      EvidenceScoreWithin(mem.manifest.value, y.commands, y.result, x.commands, x.result, lo, hi);
    }
  }
}
