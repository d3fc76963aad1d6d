/** The shared task queue of main.py: descriptor files move between four state directories by renaming, while
    any number of workers run and may crash. One step is one file-system operation of one process. */
module TaskQueue {
  import opened Naming

  // ---- File names ----

  predicate Kept(c: char) {
    'A' <= c <= 'Z' || 'a' <= c <= 'z' || '0' <= c <= '9' || c in {'.', '_', '-'}
  }

  /** Every run of other characters becomes one underscore. */
  function Collapse(s: string, inRun: bool): string {
    if s == "" then ""
    else if Kept(s[0]) then [s[0]] + Collapse(s[1..], false)
    else (if inRun then "" else "_") + Collapse(s[1..], true)
  }

  function Strip(s: string): string {
    if s != "" && s[0] == '_' then Strip(s[1..])
    else if s != "" && s[|s| - 1] == '_' then Strip(s[..|s| - 1])
    else s
  }

  function SafeName(task: string): string {
    var s := Strip(Collapse(task, false));
    if s == "" then "task" else s
  }

  function DescriptorName(index: nat, task: string): string {
    Padded(index, 6) + ("_" + SafeName(task) + ".yaml")
  }

  /** Digits up to the first underscore are determined by the whole name. */
  lemma DigitsBeforeSeparator(d: string, e: string, s: string, t: string)
    requires AllDigits(d) && AllDigits(e) && d + ("_" + s) == e + ("_" + t)
    ensures d == e
  {
    var x := d + ("_" + s);
    assert x[|d|] == '_' && x[|e|] == '_';
    assert forall k :: 0 <= k < |d| ==> IsDigit(x[k]);
    assert forall k :: 0 <= k < |e| ==> IsDigit(x[k]);
    assert d == x[..|d|] && e == x[..|e|];
  }

  /** Descriptors of different tasks have different names, whatever the task names are. */
  lemma DescriptorNamesDiffer(i: nat, j: nat, s: string, t: string)
    ensures DescriptorName(i, s) == DescriptorName(j, t) ==> i == j
  {
    hide Padded, SafeName, Value;
    if DescriptorName(i, s) == DescriptorName(j, t) {
      assert "_" + SafeName(s) + ".yaml" == "_" + (SafeName(s) + ".yaml");
      assert "_" + SafeName(t) + ".yaml" == "_" + (SafeName(t) + ".yaml");
      DigitsBeforeSeparator(Padded(i, 6), Padded(j, 6), SafeName(s) + ".yaml", SafeName(t) + ".yaml");
      PaddedValue(i, 6);
      PaddedValue(j, 6);
    }
  }

  type WorkerId = string

  function ClaimedName(id: WorkerId, name: string): string {
    "worker_" + (id + ("__" + name))
  }

  predicate SeparatorFree(id: string) {
    forall k :: 0 <= k < |id| - 1 ==> !(id[k] == '_' && id[k + 1] == '_')
  }

  /** With separator-free worker ids, the name of a claimed descriptor says who claimed which one. */
  lemma ClaimedNamesDiffer(a: WorkerId, b: WorkerId, n: string, m: string)
    requires SeparatorFree(a) && SeparatorFree(b)
    requires n != "" && m != "" && IsDigit(n[0]) && IsDigit(m[0])
    ensures ClaimedName(a, n) == ClaimedName(b, m) <==> a == b && n == m
  {
    if ClaimedName(a, n) == ClaimedName(b, m) {
      var x, y := a + ("__" + n), b + ("__" + m);
      assert ClaimedName(a, n)[7..] == x && ClaimedName(b, m)[7..] == y;
      LongerIdHasSeparator(a, b, n, m);
      LongerIdHasSeparator(b, a, m, n);
      assert a == x[..|a|] && b == y[..|b|] && n == x[|a| + 2..] && m == y[|b| + 2..];
    }
  }

  lemma LongerIdHasSeparator(a: WorkerId, b: WorkerId, n: string, m: string)
    requires SeparatorFree(b) && n != "" && m != "" && IsDigit(n[0])
    requires a + ("__" + n) == b + ("__" + m)
    ensures |b| <= |a|
  {
    var x := a + ("__" + n);
    assert x[|a|] == '_' && x[|a| + 1] == '_' && x[|a| + 2] == n[0];
    assert x[|b|] == '_' && x[|b| + 1] == '_';
    assert forall k :: 0 <= k < |b| - 1 ==> !(x[k] == '_' && x[k + 1] == '_') by {
      assert forall k :: 0 <= k < |b| ==> x[k] == b[k];
    }
  }

  /** Without that condition two claims of different tasks of one queue can meet: the second rename would overwrite
      the first. */
  lemma ClaimsCanMeet()
    ensures var tasks := ["g", "f__000001_g"];
            ClaimedName("w", NameOf(tasks, 2)) == ClaimedName("w__000002_f", NameOf(tasks, 1))
  {
    hide DescriptorName;
    NameOfFirst();
    NameOfSecond();
  }

  lemma NameOfFirst()
    ensures DescriptorName(1, "g") == "000001_g.yaml"
  {
    hide Padded, SafeName;
    KeptAsItIs("g");
    OneAndTwo();
  }

  lemma NameOfSecond()
    ensures DescriptorName(2, "f__000001_g") == "000002_f__000001_g.yaml"
  {
    hide Padded, SafeName;
    KeptAsItIs("f__000001_g");
    OneAndTwo();
  }

  lemma OneAndTwo()
    ensures Padded(1, 6) == "000001" && Padded(2, 6) == "000002"
  {
    assert Zeros(5) == "0" + Zeros(4) == "00" + Zeros(3) == "000" + Zeros(2) == "0000" + Zeros(1) == "00000";
  }

  lemma {:induction false} CollapsesToItself(s: string)
    requires forall k :: 0 <= k < |s| ==> Kept(s[k])
    ensures Collapse(s, false) == s
  {
    if s != "" {
      CollapsesToItself(s[1..]);
    }
  }

  lemma KeptAsItIs(s: string)
    requires s != "" && (forall k :: 0 <= k < |s| ==> Kept(s[k])) && s[0] != '_' && s[|s| - 1] != '_'
    ensures SafeName(s) == s
  {
    CollapsesToItself(s);
  }

  // ---- The queue directory ----

  datatype Place = Pending | Running | Done | Failed

  datatype File = File(place: Place, name: string)

  datatype Status = AlreadyComplete | Queued | Finished(place: Place)

  /** A descriptor's payload, reduced to the task it is for and its status. */
  datatype Descriptor = Descriptor(index: nat, status: Status)

  type Files = map<File, Descriptor>

  type Tasks = seq<string>

  function NameOf(tasks: Tasks, i: nat): string
    requires 1 <= i <= |tasks|
  {
    DescriptorName(i, tasks[i - 1])
  }

  /** The name a descriptor of task i has: its own, or that of some worker's claim. */
  ghost predicate Shape(tasks: Tasks, f: File, i: nat) {
    && 1 <= i <= |tasks|
    && ((f.place != Running && f.name == NameOf(tasks, i))
        || (f.place != Pending && exists w :: SeparatorFree(w) && f.name == ClaimedName(w, NameOf(tasks, i))))
  }

  /** No file name fits two tasks. */
  lemma ShapeTellsTask(tasks: Tasks, f: File, g: File, i: nat, j: nat)
    requires Shape(tasks, f, i) && Shape(tasks, g, j) && f.name == g.name
    ensures i == j
  {
    hide DescriptorName, SeparatorFree;
    var n, m := NameOf(tasks, i), NameOf(tasks, j);
    NameStartsWithDigit(tasks, i);
    NameStartsWithDigit(tasks, j);
    DescriptorNamesDiffer(i, j, tasks[i - 1], tasks[j - 1]);
    assert f.name != n ==> f.name[0] == 'w';
    assert g.name != m ==> g.name[0] == 'w';
    if f.name != n && g.name != m {
      var a :| SeparatorFree(a) && f.name == ClaimedName(a, n);
      var b :| SeparatorFree(b) && g.name == ClaimedName(b, m);
      ClaimedNamesDiffer(a, b, n, m);
    }
  }

  lemma NameStartsWithDigit(tasks: Tasks, i: nat)
    requires 1 <= i <= |tasks|
    ensures NameOf(tasks, i) != "" && IsDigit(NameOf(tasks, i)[0])
  {
  }

  ghost predicate HasCopy(files: Files, i: nat) {
    exists f :: f in files && files[f].index == i
  }

  ghost predicate IsDone(files: Files, i: nat) {
    exists f :: f in files && f.place == Done && files[f].index == i
  }

  /** Every task has exactly one descriptor, and every descriptor is of a task. */
  ghost predicate OneCopy(tasks: Tasks, files: Files) {
    && (forall i :: 1 <= i <= |tasks| ==> HasCopy(files, i))
    && (forall f, g :: f in files && g in files && files[f].index == files[g].index ==> f == g)
    && (forall f :: f in files ==> Shape(tasks, f, files[f].index))
  }

  predicate Empty(files: Files, place: Place) {
    forall f :: f in files ==> f.place != place
  }

  /** A rename: the descriptor leaves its old name; a file already at the new name would be lost. */
  function Rename(files: Files, from: File, to: File): Files
    requires from in files
  {
    (files - {from})[to := files[from]]
  }

  lemma RenameKeepsOneCopy(tasks: Tasks, files: Files, from: File, to: File)
    requires OneCopy(tasks, files) && from in files && Shape(tasks, to, files[from].index) && to != from
    ensures to !in files
    ensures OneCopy(tasks, Rename(files, from, to))
  {
    hide Shape;
    var i := files[from].index;
    if to in files {
      ShapeTellsTask(tasks, to, to, i, files[to].index);
    }
    var after := Rename(files, from, to);
    forall k | 1 <= k <= |tasks| ensures HasCopy(after, k) {
      assert HasCopy(files, k);
      var f :| f in files && files[f].index == k;
      assert (if f == from then to else f) in after;
    }
  }

  /** Fills the queue directories; descriptors of an earlier run are removed first. */
  method InitializeQueue(tasks: Tasks, complete: seq<bool>, earlier: Files) returns (files: Files)
    requires |complete| == |tasks|
    ensures OneCopy(tasks, files)
    ensures forall f :: f in files ==>
              var i := files[f].index;
              1 <= i <= |tasks| && f.name == DescriptorName(i, tasks[i - 1])
              && if complete[i - 1] then f.place == Done && files[f].status == AlreadyComplete
                 else f.place == Pending && files[f].status == Queued
  {
    hide OneCopy, Filled, DescriptorName;
    files := earlier - earlier.Keys;
    FilledStarts(tasks, complete, files);
    var index := 1;
    while index <= |tasks|
      invariant 1 <= index <= |tasks| + 1
      invariant Filled(tasks, complete, files, index)
    {
      var state := if complete[index - 1] then Done else Pending;
      var status := if complete[index - 1] then AlreadyComplete else Queued;
      FilledNext(tasks, complete, files, index);
      files := files[File(state, DescriptorName(index, tasks[index - 1])) := Descriptor(index, status)];
      index := index + 1;
    }
    FilledEnds(tasks, complete, files);
  }

  /** The descriptors of the tasks before this one are in their places. */
  ghost predicate Filled(tasks: Tasks, complete: seq<bool>, files: Files, index: nat)
    requires |complete| == |tasks|
  {
    && (forall f :: f in files ==> Placed(tasks, complete, f, files[f].index) && files[f].index < index)
    && (forall f :: f in files ==>
          files[f].status == if complete[files[f].index - 1] then AlreadyComplete else Queued)
    && forall i :: 1 <= i < index && i <= |tasks| ==>
         InitialFile(tasks, complete, i) in files && files[InitialFile(tasks, complete, i)].index == i
  }

  lemma FilledStarts(tasks: Tasks, complete: seq<bool>, files: Files)
    requires |complete| == |tasks| && files == map[]
    ensures Filled(tasks, complete, files, 1)
  {
  }

  lemma FilledNext(tasks: Tasks, complete: seq<bool>, files: Files, index: nat)
    requires 1 <= index <= |tasks| == |complete| && Filled(tasks, complete, files, index)
    ensures var d := Descriptor(index, if complete[index - 1] then AlreadyComplete else Queued);
            Filled(tasks, complete, files[InitialFile(tasks, complete, index) := d], index + 1)
  {
    hide DescriptorName;
    NewNameIsFresh(tasks, complete, index);
  }

  lemma FilledEnds(tasks: Tasks, complete: seq<bool>, files: Files)
    requires |complete| == |tasks| && Filled(tasks, complete, files, |tasks| + 1)
    ensures OneCopy(tasks, files)
    ensures forall f :: f in files ==>
              var i := files[f].index;
              1 <= i <= |tasks| && f.name == DescriptorName(i, tasks[i - 1])
              && if complete[i - 1] then f.place == Done && files[f].status == AlreadyComplete
                 else f.place == Pending && files[f].status == Queued
  {
    hide OneCopy, DescriptorName;
    PlacedIsOneCopy(tasks, complete, files);
    assert forall f :: f in files ==> Placed(tasks, complete, f, files[f].index);
  }

  lemma PlacedIsOneCopy(tasks: Tasks, complete: seq<bool>, files: Files)
    requires |complete| == |tasks|
    requires forall f :: f in files ==> Placed(tasks, complete, f, files[f].index)
    requires forall i :: 1 <= i <= |tasks| ==>
               InitialFile(tasks, complete, i) in files && files[InitialFile(tasks, complete, i)].index == i
    ensures OneCopy(tasks, files)
  {
    forall i | 1 <= i <= |tasks| ensures HasCopy(files, i) {
      assert InitialFile(tasks, complete, i) in files;
    }
    forall f | f in files ensures Shape(tasks, f, files[f].index) {
      assert Placed(tasks, complete, f, files[f].index);
    }
  }

  function InitialFile(tasks: Tasks, complete: seq<bool>, i: nat): File
    requires 1 <= i <= |tasks| == |complete|
  {
    File(if complete[i - 1] then Done else Pending, NameOf(tasks, i))
  }

  predicate Placed(tasks: Tasks, complete: seq<bool>, f: File, i: nat)
    requires |complete| == |tasks|
  {
    1 <= i <= |tasks| && f == InitialFile(tasks, complete, i)
  }

  lemma NewNameIsFresh(tasks: Tasks, complete: seq<bool>, index: nat)
    requires 1 <= index <= |tasks| == |complete|
    ensures forall i :: 1 <= i <= |tasks| && i != index ==>
              InitialFile(tasks, complete, i) != InitialFile(tasks, complete, index)
  {
    forall i | 1 <= i <= |tasks| && i != index
      ensures InitialFile(tasks, complete, i) != InitialFile(tasks, complete, index)
    {
      DescriptorNamesDiffer(i, index, tasks[i - 1], tasks[index - 1]);
    }
  }

  // ---- Processes ----

  /** Where a worker is: between tasks, going through a listing of the pending directory, working on the
      descriptor it renamed, about to move it to its final directory, or gone. */
  datatype Worker = Idle | Scanning(listing: seq<string>) | Holding(name: string)
                  | Finishing(name: string, to: Place) | Stopped | Crashed

  /** The post-processing process: what it has seen so far, and the code it returned. */
  datatype Post = Waiting | Processed(passed: bool) | SawPending(passed: bool, none: bool)
                | SawRunning(passed: bool, nonePending: bool, noneRunning: bool) | Returned(code: int, passed: bool)

  datatype State = State(files: Files, workers: map<WorkerId, Worker>, post: Post)

  datatype Event =
    | List(w: WorkerId, listing: seq<string>)
    | Try(w: WorkerId)
    | GiveUp(w: WorkerId)
    | Report(w: WorkerId, success: bool)
    | Move(w: WorkerId)
    | Crash(w: WorkerId)
    | Restart(w: WorkerId)
    | Process(passed: bool)
    | ListPending
    | ListRunning
    | ListFailed

  predicate Enabled(s: State, e: Event) {
    match e
    case List(w, listing) => w in s.workers && s.workers[w].Idle?
                             // a listing holds every file that is there throughout, and perhaps others
                             && forall f :: f in s.files && f.place == Pending ==> f.name in listing
    case Try(w) => w in s.workers && s.workers[w].Scanning? && s.workers[w].listing != []
    case GiveUp(w) => w in s.workers && s.workers[w] == Scanning([])
    case Report(w, _) => w in s.workers && s.workers[w].Holding?
    case Move(w) => w in s.workers && s.workers[w].Finishing?
    case Crash(w) => w in s.workers
    case Restart(w) => w in s.workers && (s.workers[w].Crashed? || s.workers[w].Stopped?)
    case Process(_) => s.post.Waiting?
    case ListPending => s.post.Processed?
    case ListRunning => s.post.SawPending?
    case ListFailed => s.post.SawRunning?
  }

  /** One file-system operation of one process. A missing file raises and the process ends. */
  function Step(s: State, e: Event): State
    requires Enabled(s, e)
  {
    match e
    case List(w, listing) => s.(workers := s.workers[w := Scanning(listing)])
    case Try(w) =>
      var name := s.workers[w].listing[0];
      var from, to := File(Pending, name), File(Running, ClaimedName(w, name));
      if from in s.files then
        s.(files := Rename(s.files, from, to), workers := s.workers[w := Holding(to.name)])
      else s.(workers := s.workers[w := Scanning(s.workers[w].listing[1..])])
    case GiveUp(w) => s.(workers := s.workers[w := Stopped])
    case Report(w, success) =>
      var f := File(Running, s.workers[w].name);
      var to := if success then Done else Failed;
      if f in s.files then
        s.(files := s.files[f := s.files[f].(status := Finished(to))],
           workers := s.workers[w := Finishing(f.name, to)])
      else s.(workers := s.workers[w := Crashed])
    case Move(w) =>
      var from := File(Running, s.workers[w].name);
      if from in s.files then
        s.(files := Rename(s.files, from, File(s.workers[w].to, from.name)), workers := s.workers[w := Idle])
      else s.(workers := s.workers[w := Crashed])
    case Crash(w) => s.(workers := s.workers[w := Crashed])
    case Restart(w) => s.(workers := s.workers[w := Idle])
    case Process(passed) => s.(post := Processed(passed))
    case ListPending => s.(post := SawPending(s.post.passed, Empty(s.files, Pending)))
    case ListRunning => s.(post := SawRunning(s.post.passed, s.post.none, Empty(s.files, Running)))
    case ListFailed =>
      var ok := s.post.nonePending && s.post.noneRunning && Empty(s.files, Failed) && s.post.passed;
      s.(post := Returned(if ok then 0 else 1, s.post.passed))
  }

  predicate Holds(s: State, w: WorkerId, name: string) {
    w in s.workers && (s.workers[w].Holding? || s.workers[w].Finishing?) && s.workers[w].name == name
  }

  /** A worker's descriptor is in the running directory, under the name of its own claim; a worker going through
      a listing still has every pending descriptor ahead of it. */
  ghost predicate Sound(tasks: Tasks, files: Files, w: WorkerId, worker: Worker) {
    match worker
    case Holding(name) => OwnClaim(tasks, files, w, name)
    case Finishing(name, to) => OwnClaim(tasks, files, w, name) && (to == Done || to == Failed)
    case Scanning(listing) => forall f :: f in files && f.place == Pending ==> f.name in listing
    case _ => true
  }

  ghost predicate OwnClaim(tasks: Tasks, files: Files, w: WorkerId, name: string) {
    && File(Running, name) in files
    && var i := files[File(Running, name)].index;
       1 <= i <= |tasks| && name == ClaimedName(w, NameOf(tasks, i))
  }

  ghost predicate PostSawRight(s: State) {
    match s.post
    case SawPending(_, none) => none ==> Empty(s.files, Pending)
    case SawRunning(_, p, r) => (p ==> Empty(s.files, Pending)) && (p && r ==> Empty(s.files, Running))
    case Returned(code, passed) =>
      code == 0 ==> passed && Empty(s.files, Pending) && Empty(s.files, Running) && Empty(s.files, Failed)
    case _ => true
  }

  ghost predicate Inv(tasks: Tasks, s: State) {
    && OneCopy(tasks, s.files)
    && (forall w :: w in s.workers ==> SeparatorFree(w) && Sound(tasks, s.files, w, s.workers[w]))
    && PostSawRight(s)
  }

  ghost predicate Initial(tasks: Tasks, s: State) {
    && OneCopy(tasks, s.files)
    && (forall w :: w in s.workers ==> SeparatorFree(w) && s.workers[w].Idle?)
    && s.post.Waiting?
  }

  /** The states a run of steps goes through, one after the other. */
  ghost predicate Run(s: State, events: seq<Event>, t: State)
    decreases |events|
  {
    if events == [] then s == t
    else Enabled(s, events[0]) && Run(Step(s, events[0]), events[1..], t)
  }

  // ---- Every step keeps the invariant ----

  lemma PendingName(tasks: Tasks, files: Files, f: File)
    requires OneCopy(tasks, files) && f in files && f.place == Pending
    ensures 1 <= files[f].index <= |tasks| && f.name == NameOf(tasks, files[f].index)
  {
  }

  lemma ClaimedShape(tasks: Tasks, w: WorkerId, i: nat, place: Place)
    requires 1 <= i <= |tasks| && SeparatorFree(w) && place != Pending
    ensures Shape(tasks, File(place, ClaimedName(w, NameOf(tasks, i))), i)
  {
  }

  /** A rename that neither takes a worker's descriptor nor adds a pending one leaves that worker sound. */
  lemma SoundAfterRename(tasks: Tasks, files: Files, from: File, to: File, w: WorkerId, worker: Worker)
    requires Sound(tasks, files, w, worker) && from in files && to !in files && to.place != Pending
    requires worker.Holding? || worker.Finishing? ==> from != File(Running, worker.name)
    ensures Sound(tasks, Rename(files, from, to), w, worker)
  {
  }

  /** No two workers hold the same descriptor. */
  lemma NoSharedClaim(tasks: Tasks, files: Files, v: WorkerId, w: WorkerId, name: string)
    requires SeparatorFree(v) && SeparatorFree(w) && OwnClaim(tasks, files, v, name) && OwnClaim(tasks, files, w, name)
    ensures v == w
  {
    hide ClaimedName, NameOf, SeparatorFree;
    var i := files[File(Running, name)].index;
    NameStartsWithDigit(tasks, i);
    ClaimedNamesDiffer(v, w, NameOf(tasks, i), NameOf(tasks, i));
  }

  /** The facts about a claim by rename, and about the final move, that everything else rests on. */
  lemma Claiming(tasks: Tasks, s: State, w: WorkerId)
    requires Inv(tasks, s) && Enabled(s, Try(w)) && File(Pending, s.workers[w].listing[0]) in s.files
    ensures var name := s.workers[w].listing[0];
            var from, to := File(Pending, name), File(Running, ClaimedName(w, name));
            && to !in s.files && OneCopy(tasks, Rename(s.files, from, to))
            && OwnClaim(tasks, Rename(s.files, from, to), w, to.name)
  {
    hide Shape, OneCopy, SeparatorFree, ClaimedName, NameOf, Sound;
    var name := s.workers[w].listing[0];
    var from, to := File(Pending, name), File(Running, ClaimedName(w, name));
    PendingName(tasks, s.files, from);
    ClaimedShape(tasks, w, s.files[from].index, Running);
    RenameKeepsOneCopy(tasks, s.files, from, to);
  }

  lemma Moving(tasks: Tasks, s: State, w: WorkerId)
    requires Inv(tasks, s) && Enabled(s, Move(w))
    ensures var from := File(Running, s.workers[w].name);
            var to := File(s.workers[w].to, from.name);
            && from in s.files && to !in s.files && to.place != Pending && to.place != Running
            && OneCopy(tasks, Rename(s.files, from, to))
  {
    hide Shape, OneCopy, SeparatorFree, ClaimedName, NameOf;
    assert Sound(tasks, s.files, w, s.workers[w]);
    var from := File(Running, s.workers[w].name);
    var to := File(s.workers[w].to, from.name);
    ClaimedShape(tasks, w, s.files[from].index, to.place);
    RenameKeepsOneCopy(tasks, s.files, from, to);
  }

  lemma TryKeepsInv(tasks: Tasks, s: State, w: WorkerId)
    requires Inv(tasks, s) && Enabled(s, Try(w))
    ensures Inv(tasks, Step(s, Try(w)))
  {
    hide Shape, OneCopy, SeparatorFree, ClaimedName, NameOf;
    var name := s.workers[w].listing[0];
    var from, to := File(Pending, name), File(Running, ClaimedName(w, name));
    assert Sound(tasks, s.files, w, s.workers[w]);
    if from in s.files {
      Claiming(tasks, s, w);
      forall v | v in s.workers && v != w ensures Sound(tasks, Rename(s.files, from, to), v, s.workers[v]) {
        SoundAfterRename(tasks, s.files, from, to, v, s.workers[v]);
      }
    }
  }

  lemma MoveKeepsInv(tasks: Tasks, s: State, w: WorkerId)
    requires Inv(tasks, s) && Enabled(s, Move(w))
    ensures Inv(tasks, Step(s, Move(w)))
  {
    hide Shape, OneCopy, SeparatorFree, ClaimedName, NameOf;
    Moving(tasks, s, w);
    var from := File(Running, s.workers[w].name);
    var to := File(s.workers[w].to, from.name);
    assert Sound(tasks, s.files, w, s.workers[w]);
    forall v | v in s.workers && v != w ensures Sound(tasks, Rename(s.files, from, to), v, s.workers[v]) {
      if (s.workers[v].Holding? || s.workers[v].Finishing?) && s.workers[v].name == from.name {
        NoSharedClaim(tasks, s.files, v, w, from.name);
      }
      SoundAfterRename(tasks, s.files, from, to, v, s.workers[v]);
    }
  }

  /** Rewriting a payload in place changes neither names nor tasks. */
  lemma RewriteKeeps(tasks: Tasks, files: Files, f: File, d: Descriptor)
    requires OneCopy(tasks, files) && f in files && d.index == files[f].index
    ensures OneCopy(tasks, files[f := d])
    ensures forall w, worker :: Sound(tasks, files, w, worker) ==> Sound(tasks, files[f := d], w, worker)
  {
    hide Shape, ClaimedName, NameOf;
    var after := files[f := d];
    assert after.Keys == files.Keys;
    forall k | 1 <= k <= |tasks| ensures HasCopy(after, k) {
      assert HasCopy(files, k);
      var g :| g in files && files[g].index == k;
      assert g in after;
    }
  }

  lemma ReportKeepsInv(tasks: Tasks, s: State, w: WorkerId, success: bool)
    requires Inv(tasks, s) && Enabled(s, Report(w, success))
    ensures Inv(tasks, Step(s, Report(w, success)))
  {
    hide OneCopy, SeparatorFree, OwnClaim;
    var f := File(Running, s.workers[w].name);
    assert Sound(tasks, s.files, w, s.workers[w]);
    if f in s.files {
      var d := s.files[f].(status := Finished(if success then Done else Failed));
      RewriteKeeps(tasks, s.files, f, d);
      assert s.files[f := d].Keys == s.files.Keys;
      assert Sound(tasks, s.files[f := d], w, s.workers[w]);
    }
  }

  lemma StepKeepsInv(tasks: Tasks, s: State, e: Event)
    requires Inv(tasks, s) && Enabled(s, e)
    ensures Inv(tasks, Step(s, e))
  {
    hide OneCopy, SeparatorFree, OwnClaim;
    match e
    case Try(w) => TryKeepsInv(tasks, s, w);
    case Move(w) => MoveKeepsInv(tasks, s, w);
    case Report(w, success) => ReportKeepsInv(tasks, s, w, success);
    case _ =>
  }

  lemma {:induction false} RunKeepsInv(tasks: Tasks, s: State, events: seq<Event>, t: State)
    requires Inv(tasks, s) && Run(s, events, t)
    ensures Inv(tasks, t)
    decreases |events|
  {
    if events != [] {
      StepKeepsInv(tasks, s, events[0]);
      RunKeepsInv(tasks, Step(s, events[0]), events[1..], t);
    }
  }

  lemma Reaches(tasks: Tasks, s: State, events: seq<Event>, t: State)
    requires Initial(tasks, s) && Run(s, events, t)
    ensures Inv(tasks, t)
  {
    hide Run, OneCopy, SeparatorFree;
    RunKeepsInv(tasks, s, events, t);
  }

  // ---- The main results, for every run ----

  /** In every state a run reaches, each task's descriptor is in exactly one state directory, and no two workers
      hold the same one. */
  lemma QueueSafety(tasks: Tasks, s: State, events: seq<Event>, t: State)
    requires Initial(tasks, s) && Run(s, events, t)
    ensures OneCopy(tasks, t.files)
    ensures forall v, w, name :: Holds(t, v, name) && Holds(t, w, name) ==> v == w
  {
    hide OneCopy, SeparatorFree, OwnClaim;
    Reaches(tasks, s, events, t);
    forall v, w, name | Holds(t, v, name) && Holds(t, w, name) ensures v == w {
      assert Sound(tasks, t.files, v, t.workers[v]) && Sound(tasks, t.files, w, t.workers[w]);
      NoSharedClaim(tasks, t.files, v, w, name);
    }
  }

  /** Whatever step comes next, no rename lands on an existing file, and no descriptor returns to the pending
      directory. */
  lemma NothingIsOverwritten(tasks: Tasks, s: State, events: seq<Event>, t: State, e: Event)
    requires Initial(tasks, s) && Run(s, events, t) && Enabled(t, e)
    ensures |Step(t, e).files| == |t.files|
    ensures forall f :: f in Step(t, e).files && f.place == Pending ==> f in t.files
  {
    hide OneCopy, SeparatorFree, OwnClaim, Sound, Run, Initial;
    Reaches(tasks, s, events, t);
    match e
    case Try(w) =>
      if File(Pending, t.workers[w].listing[0]) in t.files {
        Claiming(tasks, t, w);
        var name := t.workers[w].listing[0];
        RenameKeepsSize(t.files, File(Pending, name), File(Running, ClaimedName(w, name)));
      }
    case Move(w) =>
      Moving(tasks, t, w);
      RenameKeepsSize(t.files, File(Running, t.workers[w].name), File(t.workers[w].to, t.workers[w].name));
    case Report(w, success) =>
      var f := File(Running, t.workers[w].name);
      if f in t.files {
        SizeOfKeys(t.files, Step(t, e).files);
      }
    case _ =>
  }

  lemma SizeOfKeys(files: Files, after: Files)
    requires after.Keys == files.Keys
    ensures |after| == |files|
  {
  }

  lemma RenameKeepsSize(files: Files, from: File, to: File)
    requires from in files && to !in files
    ensures |Rename(files, from, to)| == |files|
    ensures forall f :: f in Rename(files, from, to) && f != to ==> f in files
  {
  }

  /** When a worker's claim finds nothing and the worker gives up, the pending directory is empty, although the
      worker only went through a listing taken earlier. */
  lemma QueueIsDrained(tasks: Tasks, s: State, events: seq<Event>, t: State, w: WorkerId)
    requires Initial(tasks, s) && Run(s, events, t) && Enabled(t, GiveUp(w))
    ensures Empty(t.files, Pending)
  {
    hide OneCopy, SeparatorFree, OwnClaim, Run;
    Reaches(tasks, s, events, t);
    assert Sound(tasks, t.files, w, t.workers[w]);
  }

  /** Post-processing returns 0 only if it passed and every task's descriptor is in the done directory, although
      it reads the three other directories one after the other while workers may be running. */
  lemma ZeroMeansAllDone(tasks: Tasks, s: State, events: seq<Event>, t: State)
    requires Initial(tasks, s) && Run(s, events, t)
    requires t.post.Returned? && t.post.code == 0
    ensures t.post.passed
    ensures forall i :: 1 <= i <= |tasks| ==> IsDone(t.files, i)
  {
    hide Sound, SeparatorFree, Run, Shape;
    Reaches(tasks, s, events, t);
    forall i | 1 <= i <= |tasks| ensures IsDone(t.files, i) {
      assert HasCopy(t.files, i);
      var f :| f in t.files && t.files[f].index == i;
      assert f.place == Done;
    }
  }
}
