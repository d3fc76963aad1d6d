/** What the directories of the task queue say about the tasks: a descriptor is done because its task was complete
    from the start or a worker reported success for it, in every run of the workers and of post-processing. */
module QueueOutcomes {
  import opened Naming
  import opened TaskQueue

  // ---- What workers report ----

  /** The task whose descriptor a worker is working on, and that it succeeded, or that it did not. */
  ghost function ToldBy(s: State, e: Event): set<(nat, bool)> {
    if e.Report? && e.w in s.workers && s.workers[e.w].Holding? && File(Running, s.workers[e.w].name) in s.files
    then {(s.files[File(Running, s.workers[e.w].name)].index, e.success)} else {}
  }

  /** Everything workers reported in a run. */
  ghost function Told(s: State, events: seq<Event>): set<(nat, bool)>
    decreases |events|
  {
    if events == [] || !Enabled(s, events[0]) then {}
    else ToldBy(s, events[0]) + Told(Step(s, events[0]), events[1..])
  }

  /** What is known of one file, given what was reported, and what was done or failed from the start. */
  ghost predicate Explained(done: set<nat>, failed: set<nat>, told: set<(nat, bool)>, f: File, i: nat) {
    && (f.place == Done ==> i in done || (i, true) in told)
    && (f.place == Failed ==> i in failed || (i, false) in told)
  }

  /** A worker that is about to move its descriptor has reported the outcome it moves it for. */
  ghost predicate Consistent(files: Files, told: set<(nat, bool)>, worker: Worker) {
    worker.Finishing? && File(Running, worker.name) in files ==>
      var i := files[File(Running, worker.name)].index;
      (worker.to == Done && (i, true) in told) || (worker.to == Failed && (i, false) in told)
  }

  /** The payload of that descriptor says the same. */
  ghost predicate Stamped(files: Files, worker: Worker) {
    worker.Finishing? && File(Running, worker.name) in files ==>
      files[File(Running, worker.name)].status == Finished(worker.to)
  }

  /** Where the descriptor of a task may be that was reported on: where it belongs, or still on its way, with no
      worker left to report on it again. */
  ghost predicate Follows(s: State, f: File, success: bool) {
    || f.place == (if success then Done else Failed)
    || (f.place == Running && f in s.files && s.files[f].status == Finished(if success then Done else Failed)
        && forall w :: w in s.workers && s.workers[w].Holding? ==> s.workers[w].name != f.name)
  }

  ghost predicate Known(done: set<nat>, failed: set<nat>, told: set<(nat, bool)>, s: State) {
    && (forall f :: f in s.files ==> Explained(done, failed, told, f, s.files[f].index))
    && (forall w :: w in s.workers ==> Consistent(s.files, told, s.workers[w]))
  }

  ghost predicate Lasting(told: set<(nat, bool)>, s: State) {
    && (forall f, b :: f in s.files && (s.files[f].index, b) in told ==> Follows(s, f, b))
    && (forall w :: w in s.workers ==> Stamped(s.files, s.workers[w]))
  }

  // ---- One step ----

  lemma WorkersHaveTheirFiles(tasks: Tasks, s: State)
    requires Inv(tasks, s)
    ensures forall w :: w in s.workers && (s.workers[w].Holding? || s.workers[w].Finishing?) ==>
              File(Running, s.workers[w].name) in s.files
  {
    hide OneCopy, SeparatorFree, ClaimedName;
    forall w | w in s.workers && (s.workers[w].Holding? || s.workers[w].Finishing?)
      ensures File(Running, s.workers[w].name) in s.files
    {
      assert Sound(tasks, s.files, w, s.workers[w]);
    }
  }

  /** Workers with the same file are one worker. */
  lemma FileHasOneWorker(tasks: Tasks, s: State, v: WorkerId, w: WorkerId)
    requires Inv(tasks, s) && v in s.workers && w in s.workers
    requires (s.workers[v].Holding? || s.workers[v].Finishing?) && (s.workers[w].Holding? || s.workers[w].Finishing?)
    requires s.workers[v].name == s.workers[w].name
    ensures v == w
  {
    hide OneCopy, SeparatorFree, ClaimedName;
    assert Sound(tasks, s.files, v, s.workers[v]) && Sound(tasks, s.files, w, s.workers[w]);
    NoSharedClaim(tasks, s.files, v, w, s.workers[v].name);
  }

  lemma TryIsKnown(tasks: Tasks, done: set<nat>, failed: set<nat>, told: set<(nat, bool)>, s: State, w: WorkerId)
    requires Inv(tasks, s) && Enabled(s, Try(w)) && Known(done, failed, told, s)
    ensures Known(done, failed, told, Step(s, Try(w)))
  {
    hide OneCopy, SeparatorFree, OwnClaim, ClaimedName, Sound;
    WorkersHaveTheirFiles(tasks, s);
    if File(Pending, s.workers[w].listing[0]) in s.files {
      Claiming(tasks, s, w);
    }
  }

  lemma MoveIsKnown(tasks: Tasks, done: set<nat>, failed: set<nat>, told: set<(nat, bool)>, s: State, w: WorkerId)
    requires Inv(tasks, s) && Enabled(s, Move(w)) && Known(done, failed, told, s)
    ensures Known(done, failed, told, Step(s, Move(w)))
  {
    hide OneCopy, SeparatorFree, OwnClaim, ClaimedName, Sound;
    Moving(tasks, s, w);
    assert Consistent(s.files, told, s.workers[w]);
  }

  lemma ReportIsKnown(tasks: Tasks, done: set<nat>, failed: set<nat>, told: set<(nat, bool)>, s: State, w: WorkerId,
                      success: bool)
    requires Inv(tasks, s) && Enabled(s, Report(w, success)) && Known(done, failed, told, s)
    ensures Known(done, failed, told + ToldBy(s, Report(w, success)), Step(s, Report(w, success)))
  {
    hide OneCopy, SeparatorFree, OwnClaim, ClaimedName, Sound;
  }

  lemma StepIsKnown(tasks: Tasks, done: set<nat>, failed: set<nat>, told: set<(nat, bool)>, s: State, e: Event)
    requires Inv(tasks, s) && Enabled(s, e) && Known(done, failed, told, s)
    ensures Known(done, failed, told + ToldBy(s, e), Step(s, e))
  {
    hide OneCopy, SeparatorFree, OwnClaim, ClaimedName, Sound, Inv;
    match e
    case Try(w) =>
      TryIsKnown(tasks, done, failed, told, s, w);
      assert told + ToldBy(s, e) == told;
    case Move(w) =>
      MoveIsKnown(tasks, done, failed, told, s, w);
      assert told + ToldBy(s, e) == told;
    case Report(w, success) => ReportIsKnown(tasks, done, failed, told, s, w, success);
    case _ => assert told + ToldBy(s, e) == told;
  }

  lemma {:induction false} RunIsKnown(tasks: Tasks, done: set<nat>, failed: set<nat>, told: set<(nat, bool)>, s: State,
                                      events: seq<Event>, t: State)
    requires Inv(tasks, s) && Run(s, events, t) && Known(done, failed, told, s)
    ensures Known(done, failed, told + Told(s, events), t)
    decreases |events|
  {
    hide Known, Inv, Step, ToldBy;
    if events == [] {
      assert told + Told(s, events) == told;
    } else {
      StepKeepsInv(tasks, s, events[0]);
      StepIsKnown(tasks, done, failed, told, s, events[0]);
      RunIsKnown(tasks, done, failed, told + ToldBy(s, events[0]), Step(s, events[0]), events[1..], t);
      assert told + Told(s, events) == told + ToldBy(s, events[0]) + Told(Step(s, events[0]), events[1..]);
    }
  }

  // ---- What was reported stays true ----

  lemma TryLasts(tasks: Tasks, told: set<(nat, bool)>, s: State, w: WorkerId)
    requires Inv(tasks, s) && Enabled(s, Try(w)) && Lasting(told, s)
    ensures Lasting(told, Step(s, Try(w)))
  {
    hide OneCopy, SeparatorFree, OwnClaim, ClaimedName, Sound;
    WorkersHaveTheirFiles(tasks, s);
    if File(Pending, s.workers[w].listing[0]) in s.files {
      Claiming(tasks, s, w);
    }
  }

  lemma MoveLasts(tasks: Tasks, told: set<(nat, bool)>, s: State, w: WorkerId)
    requires Inv(tasks, s) && Enabled(s, Move(w)) && Lasting(told, s)
    ensures Lasting(told, Step(s, Move(w)))
  {
    hide OneCopy, SeparatorFree, OwnClaim, ClaimedName, Sound;
    WorkersHaveTheirFiles(tasks, s);
    Moving(tasks, s, w);
    assert Stamped(s.files, s.workers[w]);
  }

  lemma ReportLasts(tasks: Tasks, told: set<(nat, bool)>, s: State, w: WorkerId, success: bool)
    requires Inv(tasks, s) && Enabled(s, Report(w, success)) && Lasting(told, s)
    ensures Lasting(told + ToldBy(s, Report(w, success)), Step(s, Report(w, success)))
  {
    hide SeparatorFree, OwnClaim, ClaimedName, Sound, Shape, HasCopy;
    WorkersHaveTheirFiles(tasks, s);
    forall v | v in s.workers && v != w && (s.workers[v].Holding? || s.workers[v].Finishing?)
      ensures s.workers[v].name != s.workers[w].name
    {
      if s.workers[v].name == s.workers[w].name {
        FileHasOneWorker(tasks, s, v, w);
      }
    }
  }

  lemma StepLasts(tasks: Tasks, told: set<(nat, bool)>, s: State, e: Event)
    requires Inv(tasks, s) && Enabled(s, e) && Lasting(told, s)
    ensures Lasting(told + ToldBy(s, e), Step(s, e))
  {
    hide OneCopy, SeparatorFree, OwnClaim, ClaimedName, Sound, Inv;
    match e
    case Try(w) =>
      TryLasts(tasks, told, s, w);
      assert told + ToldBy(s, e) == told;
    case Move(w) =>
      MoveLasts(tasks, told, s, w);
      assert told + ToldBy(s, e) == told;
    case Report(w, success) => ReportLasts(tasks, told, s, w, success);
    case _ => assert told + ToldBy(s, e) == told;
  }

  lemma {:induction false} RunLasts(tasks: Tasks, told: set<(nat, bool)>, s: State, events: seq<Event>, t: State)
    requires Inv(tasks, s) && Run(s, events, t) && Lasting(told, s)
    ensures Lasting(told + Told(s, events), t)
    decreases |events|
  {
    hide Lasting, Inv, Step, ToldBy;
    if events == [] {
      assert told + Told(s, events) == told;
    } else {
      StepKeepsInv(tasks, s, events[0]);
      StepLasts(tasks, told, s, events[0]);
      RunLasts(tasks, told + ToldBy(s, events[0]), Step(s, events[0]), events[1..], t);
      assert told + Told(s, events) == told + ToldBy(s, events[0]) + Told(Step(s, events[0]), events[1..]);
    }
  }

  // ---- The results ----

  ghost predicate StartsIn(s: State, i: nat, place: Place) {
    exists f :: f in s.files && f.place == place && s.files[f].index == i
  }

  lemma StartIsKnown(tasks: Tasks, s: State, done: set<nat>, failed: set<nat>)
    requires Initial(tasks, s)
    requires done == (set f | f in s.files && f.place == Done :: s.files[f].index)
    requires failed == (set f | f in s.files && f.place == Failed :: s.files[f].index)
    ensures Inv(tasks, s) && Known(done, failed, {}, s) && Lasting({}, s)
  {
    hide OneCopy, SeparatorFree;
  }

  /** In every run: a descriptor in the done directory was there from the start, or a worker that held it reported
      success; one in the failed directory was there, or a worker reported that it failed. What was reported holds:
      the descriptor of the task is in the directory of that outcome, or on its way there. */
  lemma DirectoriesTellTheOutcome(tasks: Tasks, s: State, events: seq<Event>, t: State, f: File)
    requires Initial(tasks, s) && Run(s, events, t) && f in t.files
    ensures var i, told := t.files[f].index, Told(s, events);
            && (f.place == Done ==> StartsIn(s, i, Done) || (i, true) in told)
            && (f.place == Failed ==> StartsIn(s, i, Failed) || (i, false) in told)
            && ((i, true) in told ==> f.place == Done || f.place == Running)
            && ((i, false) in told ==> f.place == Failed || f.place == Running)
            && !((i, true) in told && (i, false) in told)
  {
    hide Run, Initial, Inv, Step, Told;
    var done := set f | f in s.files && f.place == Done :: s.files[f].index;
    var failed := set f | f in s.files && f.place == Failed :: s.files[f].index;
    StartIsKnown(tasks, s, done, failed);
    RunIsKnown(tasks, done, failed, {}, s, events, t);
    RunLasts(tasks, {}, s, events, t);
    assert {} + Told(s, events) == Told(s, events);
    assert Explained(done, failed, Told(s, events), f, t.files[f].index);
  }

  /** Post-processing returns 0 only if it passed, every task was done from the start or was reported successful,
      and none was reported to have failed. */
  lemma PostprocessGate(tasks: Tasks, s: State, events: seq<Event>, t: State, i: nat)
    requires Initial(tasks, s) && Run(s, events, t)
    requires t.post.Returned? && t.post.code == 0
    ensures t.post.passed
    ensures 1 <= i <= |tasks| ==>
              (StartsIn(s, i, Done) || (i, true) in Told(s, events)) && (i, false) !in Told(s, events)
  {
    hide Run, Initial, Inv, Step, Told;
    ZeroMeansAllDone(tasks, s, events, t);
    if 1 <= i <= |tasks| {
      assert IsDone(t.files, i);
      var f :| f in t.files && f.place == Done && t.files[f].index == i;
      DirectoriesTellTheOutcome(tasks, s, events, t, f);
    }
  }

  // ---- The other direction ----

  ghost predicate AllDone(s: State) {
    forall f :: f in s.files ==> f.place == Done
  }

  /** Post-processing has seen nothing that would keep it from returning 0. */
  ghost predicate SeesNothing(post: Post) {
    match post
    case SawPending(_, none) => none
    case SawRunning(_, p, r) => p && r
    case Returned(code, passed) => code == if passed then 0 else 1
    case _ => true
  }

  lemma StepStaysDone(tasks: Tasks, s: State, e: Event)
    requires Inv(tasks, s) && Enabled(s, e) && AllDone(s) && SeesNothing(s.post)
    ensures AllDone(Step(s, e)) && SeesNothing(Step(s, e).post)
  {
    hide OneCopy, SeparatorFree, OwnClaim, ClaimedName, Sound, Inv;
    WorkersHaveTheirFiles(tasks, s);
  }

  /** Once every descriptor is done, whatever still happens, post-processing that starts then returns 0 exactly when
      it passes. */
  lemma {:induction false} DoneQueueIsPassed(tasks: Tasks, s: State, events: seq<Event>, t: State)
    requires Inv(tasks, s) && AllDone(s) && SeesNothing(s.post) && Run(s, events, t)
    ensures AllDone(t) && (t.post.Returned? ==> (t.post.code == 0 <==> t.post.passed))
    decreases |events|
  {
    hide Step, Inv, AllDone;
    if events != [] {
      StepKeepsInv(tasks, s, events[0]);
      StepStaysDone(tasks, s, events[0]);
      DoneQueueIsPassed(tasks, Step(s, events[0]), events[1..], t);
    }
  }

  /** The same for runs from the start: once every descriptor is done before post-processing starts. */
  lemma DoneBeforePostprocessing(tasks: Tasks, s: State, before: seq<Event>, m: State, after: seq<Event>, t: State)
    requires Initial(tasks, s) && Run(s, before, m) && AllDone(m) && m.post.Waiting?
    requires Run(m, after, t) && t.post.Returned?
    ensures t.post.code == 0 <==> t.post.passed
  {
    hide Run, Step, AllDone;
    Reaches(tasks, s, before, m);
    DoneQueueIsPassed(tasks, m, after, t);
  }
}
