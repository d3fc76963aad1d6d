/** Snapshots of protected files and their verification: src/harness_guard.py, for tasks with a captured
    specification. Hashes are taken to be injective, so a byte digest is the text itself. */
module HarnessGuard {
  import opened Wrappers
  import opened EditScopes
  import opened PythonSyntax
  import opened HarnessPolicy
  import opened SymbolDigest

  const HARNESS_DIRS: set<string> := {"script", "scripts", "test", "tests"}
  const HARNESS_NAMES: set<string> := {"_aka_benchmark.py", "config.yaml", "config.yml", "conftest.py",
                                       "hip_graph_benchmark.hpp", "performance_utils_pytest.py"}
  const HARNESS_SUFFIXES: set<string> := {"_test.py", "_test.cpp", "_test.cu", "_test.hip", "_harness.py"}
  const RUNTIME_DIRS: set<string> := {".git", ".task-venv", ".validator_torch_extensions", ".venv", "__pycache__",
                                      "build", "logs", "perf", ".pytest_cache"}
  const OUTPUT_NAMES: set<string> := {"task_result.yaml", "validation_report.yaml", ".validation_complete",
                                      "baseline_perf.yaml", "optimized_perf.yaml"}

  predicate EndsWith(s: string, suffix: string) {
    |suffix| <= |s| && s[|s| - |suffix|..] == suffix
  }

  function FileName(p: Path): string {
    if p == [] then "" else p[|p| - 1]
  }

  predicate HasParentIn(p: Path, names: set<string>) {
    exists k :: 0 <= k < |p| - 1 && p[k] in names
  }

  /** _is_protected_path. */
  predicate IsProtected(p: Path) {
    || HasParentIn(p, HARNESS_DIRS) || FileName(p) in HARNESS_NAMES
    || exists suffix :: suffix in HARNESS_SUFFIXES && EndsWith(FileName(p), suffix)
  }

  /** The files a scan looks for by name. */
  predicate IsWatched(p: Path) {
    !HasParentIn(p, RUNTIME_DIRS) && FileName(p) !in OUTPUT_NAMES && IsProtected(p)
  }

  datatype Digest = Bytes(text: string) | InvalidPython(text: string) | Statements(kept: Module)

  datatype Refusal = NotPython | Rejected(why: Refused) | NeedsReview | Changed

  /** The specification captured with the snapshot: the files with editable symbols and their original names. Text
      is parsed by Python; None stands for a syntax error. */
  datatype Guard = Guard(scopes: map<Path, Edit>, initial: map<Path, set<string>>, parse: string -> Option<Module>)

  function InitialNames(g: Guard, p: Path): set<string> {
    if p in g.initial then g.initial[p] else {}
  }

  /** Whether a file has a digest, and which. */
  ghost predicate Digests(g: Guard, p: Path, text: string, d: Digest) {
    if p !in g.scopes then d == Bytes(text)
    else
      IsPythonFile(p) &&
      match g.parse(text)
      case None => d == InvalidPython(text)
      case Some(tree) =>
        && Policy(tree, g.scopes[p], InitialNames(g, p))
        && d == Statements(Kept(tree, g.scopes[p], InitialNames(g, p)))
  }

  method DigestFile(g: Guard, p: Path, text: string) returns (r: Result<Digest, Refusal>)
    ensures r.Ok? ==> Digests(g, p, text, r.value)
    ensures r.Err? ==> forall d :: !Digests(g, p, text, d)
  {
    hide Policy, Kept;
    if p !in g.scopes {
      return Ok(Bytes(text));
    }
    if !IsPythonFile(p) {
      return Err(NotPython);
    }
    var tree := g.parse(text);
    if tree.None? {
      return Ok(InvalidPython(text));
    }
    var kept := SymbolDigest.Digest(tree.value, g.scopes[p], InitialNames(g, p));
    if kept.Err? {
      return Err(Rejected(kept.error));
    }
    return Ok(Statements(kept.value));
  }

  lemma OneDigest(g: Guard, p: Path, text: string, d: Digest, e: Digest)
    requires Digests(g, p, text, d) && Digests(g, p, text, e)
    ensures d == e
  {
  }

  type Snapshot = map<Path, Digest>

  type Files = map<Path, string>

  predicate Selected(before: Snapshot, p: Path) {
    p in before || IsWatched(p)
  }

  /** Every selected file has a digest. */
  ghost predicate Scannable(g: Guard, before: Snapshot, files: Files) {
    forall p :: p in files && Selected(before, p) ==> exists d :: Digests(g, p, files[p], d)
  }

  ghost predicate IsScan(g: Guard, before: Snapshot, files: Files, scan: Snapshot) {
    && (forall p :: p in scan <==> p in files && Selected(before, p))
    && forall p :: p in scan ==> Digests(g, p, files[p], scan[p])
  }

  method Scan(g: Guard, before: Snapshot, files: Files) returns (r: Result<Snapshot, Refusal>)
    ensures r.Ok? <==> Scannable(g, before, files)
    ensures r.Ok? ==> IsScan(g, before, files, r.value)
  {
    hide Digests, IsWatched;
    var selected := set p | p in files && Selected(before, p);
    var left, scan: Snapshot := selected, map[];
    while left != {}
      invariant left <= selected
      invariant scan.Keys == selected - left
      invariant forall p :: p in scan ==> Digests(g, p, files[p], scan[p])
      decreases |left|
    {
      var p :| p in left;
      var d := DigestFile(g, p, files[p]);
      if d.Err? {
        return Err(d.error);
      }
      scan := scan[p := d.value];
      left := left - {p};
    }
    return Ok(scan);
  }

  /** The files that a scan would find beside those of the snapshot. */
  function Added(before: Snapshot, files: Files): set<Path> {
    set p | p in files && IsWatched(p) && p !in before
  }

  /** The protected scan of these files is the snapshot. */
  ghost predicate Matches(g: Guard, before: Snapshot, files: Files) {
    IsScan(g, before, files, before)
  }

  class Workspace {
    var files: Files

    constructor (files: Files)
      ensures this.files == files
    {
      this.files := files;
    }
  }

  /** verify_workspace_harness. With discarding it returns exactly when the first scan goes through and, after
      deleting the added files and nothing else, the protected scan is the snapshot; without, exactly when the
      protected scan is the snapshot as it stands. */
  method Verify(g: Guard, before: Snapshot, w: Workspace, discard: bool) returns (r: Result<(), Refusal>)
    modifies w
    ensures discard ==>
              (r.Ok? <==> Scannable(g, before, old(w.files))
                          && Matches(g, before, old(w.files) - Added(before, old(w.files))))
    ensures !discard ==> (r.Ok? <==> Matches(g, before, old(w.files)))
    ensures w.files == if discard && Scannable(g, before, old(w.files))
                       then old(w.files) - Added(before, old(w.files)) else old(w.files)
  {
    hide Digests, IsWatched, Scannable, IsScan, Added, Matches;
    ghost var original := w.files;
    MatchingIsScannable(g, before, original);
    var current := Scan(g, before, w.files);
    if current.Err? {
      return Err(current.error);
    }
    AddedIsScanned(g, before, original, current.value);
    var discarded := current.value.Keys - before.Keys;
    if discarded != {} && !discard {
      return Err(NeedsReview);
    }
    Discard(w, discarded);
    ScannableWithout(g, before, original);
    if discarded != {} {
      current := Scan(g, before, w.files);
    } else {
      assert w.files == original;
    }
    MatchesExactly(g, before, w.files, current.value);
    var modified := set p | p in before && p in current.value && current.value[p] != before[p];
    var deleted := set p | p in before && p !in current.value;
    NothingDiffers(before, current.value, modified, deleted);
    r := if modified == {} && deleted == {} then Ok(()) else Err(Changed);
  }

  lemma NothingDiffers(before: Snapshot, scan: Snapshot, modified: set<Path>, deleted: set<Path>)
    requires modified == set p | p in before && p in scan && scan[p] != before[p]
    requires deleted == set p | p in before && p !in scan
    ensures modified == {} && deleted == {} <==> forall p :: p in before ==> p in scan && scan[p] == before[p]
  {
    assert forall p :: p in before && p in scan && scan[p] != before[p] ==> p in modified;
    assert forall p :: p in before && p !in scan ==> p in deleted;
  }

  method Discard(w: Workspace, discarded: set<Path>)
    modifies w
    ensures w.files == old(w.files) - discarded
  {
    var left := discarded;
    while left != {}
      invariant left <= discarded
      invariant w.files == old(w.files) - (discarded - left)
      decreases |left|
    {
      var p :| p in left;
      w.files := w.files - {p};
      left := left - {p};
    }
  }

  lemma AddedIsScanned(g: Guard, before: Snapshot, files: Files, scan: Snapshot)
    requires IsScan(g, before, files, scan)
    ensures scan.Keys - before.Keys == Added(before, files)
    ensures Matches(g, before, files) ==> Added(before, files) == {}
  {
  }

  lemma ScannableWithout(g: Guard, before: Snapshot, files: Files)
    requires Scannable(g, before, files)
    ensures Scannable(g, before, files - Added(before, files)) && Added(before, files - Added(before, files)) == {}
  {
    hide Digests, IsWatched;
    var rest := files - Added(before, files);
    forall p | p in rest && Selected(before, p) ensures exists d :: Digests(g, p, rest[p], d) {
      var d :| Digests(g, p, files[p], d);
      assert Digests(g, p, rest[p], d);
    }
  }

  lemma MatchingIsScannable(g: Guard, before: Snapshot, files: Files)
    ensures Matches(g, before, files) ==> Scannable(g, before, files)
  {
  }

  /** Comparing a scan with the snapshot path by path. */
  lemma MatchesExactly(g: Guard, before: Snapshot, files: Files, scan: Snapshot)
    requires IsScan(g, before, files, scan) && Added(before, files) == {}
    ensures Matches(g, before, files) <==> forall p :: p in before ==> p in scan && scan[p] == before[p]
  {
    hide Digests, IsWatched;
    if Matches(g, before, files) {
      forall p | p in before ensures p in scan && scan[p] == before[p] {
        OneDigest(g, p, files[p], scan[p], before[p]);
      }
    }
    assert forall p :: p in scan ==> p in before || p in Added(before, files);
  }

  /** A second verification finds nothing more to delete, and has the same verdict as the first. */
  method VerifyTwice(g: Guard, before: Snapshot, w: Workspace)
    returns (first: Result<(), Refusal>, second: Result<(), Refusal>)
    modifies w
    ensures first.Ok? <==> second.Ok?
    ensures w.files == if Scannable(g, before, old(w.files)) then old(w.files) - Added(before, old(w.files))
                       else old(w.files)
  {
    hide Digests, IsWatched, Scannable, IsScan, Added, Matches;
    ghost var original := w.files;
    first := Verify(g, before, w, true);
    if Scannable(g, before, original) {
      ScannableWithout(g, before, original);
      assert w.files - {} == w.files;
    }
    second := Verify(g, before, w, true);
  }

  // ---- What a match means, file by file ----

  /** Against the files the snapshot was taken of: a byte-protected file matches exactly when its text is unchanged;
      a file with editable symbols exactly when its kept statements are unchanged and its editable definitions pass
      the policy, or, where it never was Python, when its text is unchanged. */
  lemma MatchMeansUnchanged(g: Guard, before: Snapshot, original: Files, files: Files, p: Path)
    requires p in before && p in original && p in files && Digests(g, p, original[p], before[p])
    ensures Digests(g, p, files[p], before[p]) <==>
              if p !in g.scopes || g.parse(original[p]).None? then files[p] == original[p]
              else
                var edit, names := g.scopes[p], InitialNames(g, p);
                g.parse(files[p]).Some? &&
                var was, now := g.parse(original[p]).value, g.parse(files[p]).value;
                Kept(now, edit, names) == Kept(was, edit, names) && Policy(now, edit, names)
  {
  }

  /** The dumps of the kept statements of a file. */
  function KeptDumps(g: Guard, p: Path, text: string): seq<string>
    requires p in g.scopes && g.parse(text).Some?
  {
    Dumps(Kept(g.parse(text).value, g.scopes[p], InitialNames(g, p)))
  }

  /** In terms of dumps: a protected statement with another dump never matches, whatever else is edited; and as far
      as a dump tells its statement, equal dumps and the policy are enough. */
  lemma MatchMeansSameDumps(g: Guard, before: Snapshot, original: Files, files: Files, p: Path)
    requires p in before && p in original && p in files && Digests(g, p, original[p], before[p])
    requires p in g.scopes && g.parse(original[p]).Some? && g.parse(files[p]).Some?
    ensures KeptDumps(g, p, files[p]) != KeptDumps(g, p, original[p]) ==> !Matches(g, before, files)
    ensures DumpsTell(g.parse(original[p]).value, g.parse(files[p]).value) ==>
              (Digests(g, p, files[p], before[p])
               <==> KeptDumps(g, p, files[p]) == KeptDumps(g, p, original[p])
                    && Policy(g.parse(files[p]).value, g.scopes[p], InitialNames(g, p)))
  {
    hide Kept, Policy, Dumps, DumpsTell;
    MatchMeansUnchanged(g, before, original, files, p);
    KeptByDumps(g.parse(original[p]).value, g.parse(files[p]).value, g.scopes[p], InitialNames(g, p));
  }

  // ---- A constant in a file with an editable symbol ----

  const TEST_FILE: Path := ["test_add.py"]
  const STRICT := "def add(x): return x\nTOLERANCE = 0.001\n"
  const LOOSE := "def add(x): return x\nTOLERANCE = 1000.0\n"

  const RETURN := "Return(value=Name(id='x', ctx=Load()))"

  const ADD := Define(Function("add", false, [], {"x"}, [], [], [Return(Some(Name("x")), RETURN)]),
                      "FunctionDef(name='add', args=arguments(posonlyargs=[], args=[arg(arg='x')], kwonlyargs=[], "
                      + "kw_defaults=[], defaults=[]), body=[" + RETURN + "], decorator_list=[], type_params=[])")

  function Tolerance(constant: string): Stmt {
    Assign([Name("TOLERANCE")], Other(Literal, []),
           "Assign(targets=[Name(id='TOLERANCE', ctx=Store())], value=Constant(value=" + constant + "))")
  }

  function ParseTolerance(text: string): Option<Module> {
    if text == STRICT then Some([ADD, Tolerance("0.001")])
    else if text == LOOSE then Some([ADD, Tolerance("1000.0")])
    else None
  }

  const NAMES := {"add", "TOLERANCE"}

  const ADD_ONLY := Guard(map[TEST_FILE := Edit({"add"}, true, {})], map[TEST_FILE := NAMES],
                          ParseTolerance)

  lemma ToleranceIsKept(constant: string)
    ensures var tree, edit := [ADD, Tolerance(constant)], ADD_ONLY.scopes[TEST_FILE];
            Policy(tree, edit, NAMES) && Kept(tree, edit, NAMES) == [Tolerance(constant)]
  {
    var tree, edit := [ADD, Tolerance(constant)], ADD_ONLY.scopes[TEST_FILE];
    assert tree[..1] == [ADD];
    assert Kept([ADD], edit, NAMES) == [] by { assert [ADD][..0] == []; }
    assert Accepts(ContextOf(tree, edit, NAMES), ADD.d, false, false);
  }

  lemma ToleranceDigest(text: string, d: Digest)
    requires text in {STRICT, LOOSE}
    ensures Digests(ADD_ONLY, TEST_FILE, text, d)
            <==> d == Statements([Tolerance(if text == STRICT then "0.001" else "1000.0")])
  {
    hide Kept, Policy, ADD, Tolerance;
    ToleranceIsKept("0.001");
    ToleranceIsKept("1000.0");
  }

  /** Two texts that differ only in a constant outside the editable symbol: the verification tells them apart. */
  method VerifyTolerance(edited: bool) returns (r: Result<(), Refusal>)
    ensures r.Ok? <==> !edited
  {
    hide Digests, ADD, ADD_ONLY, IsWatched, Kept, Policy;
    var before: Snapshot := map[TEST_FILE := Statements([Tolerance("0.001")])];
    var text := if edited then LOOSE else STRICT;
    var w := new Workspace(map[TEST_FILE := text]);
    ToleranceDigest(text, before[TEST_FILE]);
    r := Verify(ADD_ONLY, before, w, true);
  }

  /** A verified file with editable symbols: what its editable definitions do on import is approved, exactly when
      no callee starts from a name with a second meaning. */
  lemma VerifiedFileIsSound(g: Guard, before: Snapshot, original: Files, files: Files, p: Path, k: nat)
    requires p in before && p in original && Digests(g, p, original[p], before[p]) && Matches(g, before, files)
    requires p in g.scopes && g.parse(original[p]).Some?
    requires InitialNames(g, p) == TopLevelNames(g.parse(original[p]).value)
    ensures p in files && g.parse(files[p]).Some?
    ensures var now, names := g.parse(files[p]).value, InitialNames(g, p);
            var m := ContextOf(now, g.scopes[p], names);
            k < |now| && IsEditable(g.scopes[p], names, now[k]) ==>
              (AllDone(m, {}, now[k].d) <==> HygienicDefinition(m, now[k].d))
  {
    hide Policy, Kept, AllDone, HygienicDefinition, ContextOf, TopLevelNames, IsEditable, Digests;
    MatchMeansUnchanged(g, before, original, files, p);
    UnchangedDigestIsSound(g.parse(original[p]).value, g.parse(files[p]).value, g.scopes[p], k);
  }
}
