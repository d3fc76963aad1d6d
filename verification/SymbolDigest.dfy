/** The digest of a file of which some symbols may be edited: _v2_symbol_digest of src/harness_guard.py. The program
    hashes the dump of the statements that are kept. Hashes are taken to be injective, so the digest is the sequence
    of those statements, each with its dump. */
module SymbolDigest {
  import opened Wrappers
  import opened PythonSyntax
  import opened HarnessPolicy
  import opened ConfigFactories

  type Module = seq<Stmt>

  datatype Edit = Edit(symbols: set<string>, newHelpers: bool, entrypoints: set<string>)

  function Bindings(tree: Module): (b: map<string, string>)
    ensures forall n :: n in b ==> exists k :: 0 <= k < |tree| && tree[k].Import? && n in PairNames(tree[k].pairs)
  {
    if tree == [] then map[]
    else
      var s := tree[|tree| - 1];
      var before := Bindings(tree[..|tree| - 1]);
      if s.Import? then BindAll(before, s.pairs) else before
  }

  function PairNames(pairs: seq<(string, string)>): set<string> {
    set k | 0 <= k < |pairs| :: pairs[k].0
  }

  function BindAll(b: map<string, string>, pairs: seq<(string, string)>): (c: map<string, string>)
    ensures forall n :: n in c <==> n in b || n in PairNames(pairs)
  {
    if pairs == [] then b
    else
      var n := |pairs| - 1;
      assert forall x :: x in PairNames(pairs) <==> x in PairNames(pairs[..n]) || x == pairs[n].0;
      BindAll(b, pairs[..n])[pairs[n].0 := pairs[n].1]
  }

  function DefinedNames(tree: Module): set<string> {
    set k | 0 <= k < |tree| && tree[k].Define? :: tree[k].d.name
  }

  /** The plain functions by name; a later definition replaces an earlier one. */
  function Functions(tree: Module): (f: map<string, Definition>)
    ensures forall n :: n in f ==> f[n].Function? && f[n].name == n && n in DefinedNames(tree)
  {
    if tree == [] then map[]
    else
      var k := |tree| - 1;
      var before := Functions(tree[..k]);
      assert DefinedNames(tree[..k]) <= DefinedNames(tree);
      if tree[k].Define? && tree[k].d.Function? && !tree[k].d.coroutine then before[tree[k].d.name := tree[k].d]
      else before
  }

  predicate Editable(edit: Edit, initial: set<string>, name: string) {
    name in edit.symbols || (edit.newHelpers && name !in initial)
  }

  /** The functions of the original file that the task did not open for editing. */
  function ProtectedFunctions(tree: Module, edit: Edit, initial: set<string>): set<string> {
    Functions(tree).Keys * initial - edit.symbols
  }

  /** The context in which the bodies of editable factories are judged. */
  function FactoryContext(tree: Module, edit: Edit, initial: set<string>): Context {
    Context(Bindings(tree), initial, DefinedNames(tree), ProtectedFunctions(tree, edit, initial))
  }

  function EditableFactories(tree: Module, edit: Edit, initial: set<string>): set<string> {
    set n | n in Functions(tree).Keys * initial * edit.symbols - edit.entrypoints && Admitted(tree, edit, initial, n)
  }

  function ContextOf(tree: Module, edit: Edit, initial: set<string>): Context {
    FactoryContext(tree, edit, initial).(factories := ProtectedFunctions(tree, edit, initial)
                                                      + EditableFactories(tree, edit, initial))
  }

  predicate IsEditable(edit: Edit, initial: set<string>, s: Stmt) {
    s.Define? && Editable(edit, initial, s.d.name)
  }

  predicate Allowed(tree: Module, edit: Edit, initial: set<string>, s: Stmt) {
    IsEditable(edit, initial, s) ==> Accepts(ContextOf(tree, edit, initial), s.d, s.d.name !in initial, false)
  }

  predicate DefinedOnce(tree: Module, name: string) {
    forall j, k :: 0 <= j < k < |tree| && tree[j].Define? && tree[k].Define? && tree[j].d.name == name ==>
      tree[k].d.name != name
  }

  /** Editable names are defined once, and every editable definition is accepted. */
  ghost predicate Policy(tree: Module, edit: Edit, initial: set<string>) {
    && (forall n :: n in DefinedNames(tree) && Editable(edit, initial, n) ==> DefinedOnce(tree, n))
    && forall k :: 0 <= k < |tree| ==> Allowed(tree, edit, initial, tree[k])
  }

  function Kept(tree: Module, edit: Edit, initial: set<string>): (kept: Module)
    ensures forall s :: s in kept <==> s in tree && !IsEditable(edit, initial, s)
  {
    if tree == [] then []
    else
      var k := |tree| - 1;
      assert forall s :: s in tree <==> s in tree[..k] || s == tree[k];
      Kept(tree[..k], edit, initial) + if IsEditable(edit, initial, tree[k]) then [] else [tree[k]]
  }

  function Dumps(tree: Module): (d: seq<string>)
    ensures |d| == |tree|
  {
    seq(|tree|, k requires 0 <= k < |tree| => tree[k].dump)
  }

  predicate Defines(s: Stmt, names: set<string>) {
    s.Define? && s.d.name in names
  }

  /** The dumps of the statements that define none of these names, in order. */
  function Around(tree: Module, names: set<string>): seq<string> {
    if tree == [] then []
    else
      var s := tree[|tree| - 1];
      Around(tree[..|tree| - 1], names) + if Defines(s, names) then [] else [s.dump]
  }

  /** The definitions of names that the original file did not have, where such may be added. */
  function Additions(tree: Module, edit: Edit, initial: set<string>): set<string> {
    if edit.newHelpers then DefinedNames(tree) - initial else {}
  }

  /** With the names of the original known, the kept statements are those that define neither symbols nor helpers. */
  lemma {:induction false} KeptIsAround(tree: Module, edit: Edit, initial: set<string>, names: set<string>)
    requires forall k :: 0 <= k < |tree| && tree[k].Define? ==>
               (tree[k].d.name in names <==>
                  tree[k].d.name in edit.symbols || (edit.newHelpers && tree[k].d.name !in initial))
    ensures Dumps(Kept(tree, edit, initial)) == Around(tree, names)
  {
    if tree != [] {
      KeptIsAround(tree[..|tree| - 1], edit, initial, names);
    }
  }

  lemma DigestIsAround(tree: Module, edit: Edit, initial: set<string>)
    ensures Dumps(Kept(tree, edit, initial)) == Around(tree, edit.symbols + Additions(tree, edit, initial))
  {
    hide Kept, Around, Dumps;
    KeptIsAround(tree, edit, initial, edit.symbols + Additions(tree, edit, initial));
  }

  datatype Refused = DefinedTwice | PolicyBroken

  /** The statements kept are those that define neither an editable symbol nor a name that may be added. */
  method Digest(tree: Module, edit: Edit, initial: set<string>) returns (r: Result<Module, Refused>)
    ensures r.Ok? <==> Policy(tree, edit, initial)
    ensures r.Ok? ==> r.value == Kept(tree, edit, initial)
    ensures r.Ok? ==> Dumps(r.value) == Around(tree, edit.symbols + Additions(tree, edit, initial))
  {
    DigestIsAround(tree, edit, initial);
    hide Dumps, Around;
    hide Allowed, Kept, Bindings, DefinedOnce, Editable, DefinedNames, ProtectedFunctions, EditableFactories;
    var names := DefinedNames(tree);
    var once := EachOnce(tree, edit, initial, names);
    if !once {
      return Err(DefinedTwice);
    }
    var factories := Factories(tree, edit, initial);
    ContextParts(tree, edit, initial);
    r := KeepOrRefuse(tree, edit, initial, Context(Bindings(tree), initial, names, factories));
  }

  method EachOnce(tree: Module, edit: Edit, initial: set<string>, names: set<string>) returns (ok: bool)
    ensures ok <==> forall n :: n in names && Editable(edit, initial, n) ==> DefinedOnce(tree, n)
  {
    hide DefinedOnce, Editable;
    var left := names;
    while left != {}
      invariant left <= names
      invariant forall n :: n in names - left && Editable(edit, initial, n) ==> DefinedOnce(tree, n)
      decreases |left|
    {
      var n :| n in left;
      if Editable(edit, initial, n) && !DefinedOnce(tree, n) {
        return false;
      }
      left := left - {n};
    }
    return true;
  }

  /** The loop over the statements: editable definitions are judged, everything else is kept. */
  method KeepOrRefuse(tree: Module, edit: Edit, initial: set<string>, ctx: Context) returns (r: Result<Module, Refused>)
    requires ctx == ContextOf(tree, edit, initial)
    ensures r.Ok? <==> forall k :: 0 <= k < |tree| ==> Allowed(tree, edit, initial, tree[k])
    ensures r.Ok? ==> r.value == Kept(tree, edit, initial)
  {
    hide Accepts, ContextOf, Editable, Allowed, IsEditable;
    var kept: Module, k := [], 0;
    while k < |tree|
      invariant 0 <= k <= |tree|
      invariant kept == Kept(tree[..k], edit, initial)
      invariant forall j :: 0 <= j < k ==> Allowed(tree, edit, initial, tree[j])
    {
      var node := tree[k];
      assert tree[..k + 1][..k] == tree[..k];
      AllowedIs(tree, edit, initial, node);
      if node.Define? && Editable(edit, initial, node.d.name) {
        if !Accepts(ctx, node.d, node.d.name !in initial, false) {
          return Err(PolicyBroken);
        }
      } else {
        kept := kept + [node];
      }
      k := k + 1;
    }
    assert tree[..k] == tree;
    return Ok(kept);
  }

  lemma ContextParts(tree: Module, edit: Edit, initial: set<string>)
    ensures ContextOf(tree, edit, initial)
            == Context(Bindings(tree), initial, DefinedNames(tree),
                       ProtectedFunctions(tree, edit, initial) + EditableFactories(tree, edit, initial))
  {
  }

  lemma AllowedIs(tree: Module, edit: Edit, initial: set<string>, s: Stmt)
    ensures IsEditable(edit, initial, s) <==> s.Define? && Editable(edit, initial, s.d.name)
    ensures Allowed(tree, edit, initial, s) <==>
              (IsEditable(edit, initial, s) ==>
                 Accepts(ContextOf(tree, edit, initial), s.d, s.d.name !in initial, false))
  {
  }

  predicate Admitted(tree: Module, edit: Edit, initial: set<string>, n: string) {
    n in Functions(tree) && FactoryAllowed(FactoryContext(tree, edit, initial), Functions(tree)[n])
  }

  /** The loop that admits editable factories one by one. */
  method Factories(tree: Module, edit: Edit, initial: set<string>) returns (factories: set<string>)
    ensures factories == ProtectedFunctions(tree, edit, initial) + EditableFactories(tree, edit, initial)
  {
    hide Admitted, ProtectedFunctions, Functions;
    var candidates := Functions(tree).Keys * initial * edit.symbols - edit.entrypoints;
    var admitted := Admit(tree, edit, initial, candidates);
    assert admitted == EditableFactories(tree, edit, initial);
    factories := ProtectedFunctions(tree, edit, initial) + admitted;
  }

  method Admit(tree: Module, edit: Edit, initial: set<string>, candidates: set<string>) returns (admitted: set<string>)
    ensures forall n :: n in admitted <==> n in candidates && Admitted(tree, edit, initial, n)
  {
    hide Admitted;
    var left := candidates;
    admitted := {};
    while left != {}
      invariant left <= candidates
      invariant forall n :: n in admitted <==> n in candidates - left && Admitted(tree, edit, initial, n)
      decreases |left|
    {
      var n :| n in left;
      if Admitted(tree, edit, initial, n) {
        admitted := admitted + {n};
      }
      left := left - {n};
    }
  }

  // ---- Comparing by dumps ----

  /** A dump tells its statement, as it does for two files that Python parses. */
  ghost predicate DumpsTell(a: Module, b: Module) {
    forall s, t :: s in a && t in b && s.dump == t.dump ==> s == t
  }

  lemma SameDumps(a: Module, b: Module, p: Module, q: Module)
    requires DumpsTell(a, b) && Dumps(p) == Dumps(q)
    requires (forall s :: s in p ==> s in a) && forall s :: s in q ==> s in b
    ensures p == q
  {
    assert |p| == |Dumps(p)| == |q|;
    forall k | 0 <= k < |p| ensures p[k] == q[k] {
      assert Dumps(p)[k] == p[k].dump && Dumps(q)[k] == q[k].dump;
      assert p[k] in a && q[k] in b;
    }
  }

  /** Comparing the kept statements is comparing their dumps, constants and operators included. */
  lemma KeptByDumps(original: Module, current: Module, edit: Edit, initial: set<string>)
    ensures var was, now := Kept(original, edit, initial), Kept(current, edit, initial);
            && (now == was ==> Dumps(now) == Dumps(was))
            && (DumpsTell(original, current) ==> (now == was <==> Dumps(now) == Dumps(was)))
  {
    hide IsEditable, Dumps;
    var was, now := Kept(original, edit, initial), Kept(current, edit, initial);
    if DumpsTell(original, current) && Dumps(now) == Dumps(was) {
      SameDumps(original, current, was, now);
    }
  }

  // ---- What an unchanged digest guarantees ----

  function NamesIn(e: Expr): set<string> {
    match e
    case Name(id) => {id}
    case Attribute(v, _) => NamesIn(v)
    case Call(f, args) => NamesIn(f) + set k, n | 0 <= k < |args| && n in NamesIn(args[k]) :: n
    case Lambda(defaults, body) => NamesIn(body) + set k, n | 0 <= k < |defaults| && n in NamesIn(defaults[k]) :: n
    case Comp(targets, first, parts) =>
      targets + NamesIn(first) + set k, n | 0 <= k < |parts| && n in NamesIn(parts[k]) :: n
    case Other(kind, parts) =>
      (if kind.Walrus? then {kind.target} else {}) + set k, n | 0 <= k < |parts| && n in NamesIn(parts[k]) :: n
  }

  function NamesOf(s: Stmt): set<string> {
    match s
    case Define(d, _) => {d.name}
    case Import(pairs, unresolved, _) => PairNames(pairs) + unresolved
    case Assign(targets, _, _) => set k, n | 0 <= k < |targets| && n in NamesIn(targets[k]) :: n
    case AnnAssign(target, _, _, _) => NamesIn(target)
    case _ => {}
  }

  /** The names of a file as it was before any editing. */
  function TopLevelNames(tree: Module): set<string> {
    set k, n | 0 <= k < |tree| && n in NamesOf(tree[k]) :: n
  }

  /** While the kept statements are unchanged, nothing is imported under a new name. */
  lemma ImportsAreInitial(original: Module, current: Module, edit: Edit)
    requires Kept(current, edit, TopLevelNames(original)) == Kept(original, edit, TopLevelNames(original))
    ensures Bindings(current).Keys <= TopLevelNames(original)
  {
    var initial := TopLevelNames(original);
    forall n | n in Bindings(current) ensures n in initial {
      var k :| 0 <= k < |current| && current[k].Import? && n in PairNames(current[k].pairs);
      assert current[k] in Kept(current, edit, initial);
      assert current[k] in original;
      var j :| 0 <= j < |original| && original[j] == current[k];
      assert n in NamesOf(original[j]);
    }
  }

  lemma ContextIsSettled(original: Module, current: Module, edit: Edit)
    requires Kept(current, edit, TopLevelNames(original)) == Kept(original, edit, TopLevelNames(original))
    ensures Settled(ContextOf(current, edit, TopLevelNames(original)))
    ensures Settled(FactoryContext(current, edit, TopLevelNames(original)))
  {
    hide Kept, TopLevelNames, FactoryAllowed, Bindings;
    ImportsAreInitial(original, current, edit);
  }

  lemma CoversItself(m: Context)
    requires Settled(m)
    ensures Covers(m, m, {})
  {
  }

  /** A file whose kept statements are those of the original and whose editable definitions pass the policy: what
      those definitions do on import, and what their configuration factories call, is all approved, exactly when
      no callee starts from a name with a second meaning. */
  lemma UnchangedDigestIsSound(original: Module, current: Module, edit: Edit, k: nat)
    requires var initial := TopLevelNames(original);
             Policy(current, edit, initial) && Kept(current, edit, initial) == Kept(original, edit, initial)
    ensures var m := ContextOf(current, edit, TopLevelNames(original));
            k < |current| && IsEditable(edit, TopLevelNames(original), current[k]) ==>
              (AllDone(m, {}, current[k].d) <==> HygienicDefinition(m, current[k].d))
  {
    hide Kept, TopLevelNames, Accepts, AllDone, HygienicDefinition, ContextOf, Settled, Covers, DefinedOnce, IsEditable;
    var m := ContextOf(current, edit, TopLevelNames(original));
    ContextIsSettled(original, current, edit);
    CoversItself(m);
    if k < |current| && IsEditable(edit, TopLevelNames(original), current[k]) {
      AllowedIs(current, edit, TopLevelNames(original), current[k]);
      DefinitionSound(m, m, {}, current[k].d, current[k].d.name !in TopLevelNames(original), false);
    }
  }

  lemma EditableFactoriesAreSound(original: Module, current: Module, edit: Edit, name: string)
    requires var initial := TopLevelNames(original);
             && Kept(current, edit, initial) == Kept(original, edit, initial)
             && name in EditableFactories(current, edit, initial)
    ensures var m := FactoryContext(current, edit, TopLevelNames(original));
            name in Functions(current) &&
            var d := Functions(current)[name];
            (forall k :: 0 <= k < |d.body| ==> Quiet(m, RunLocals(d), d.body[k]))
            <==> forall k :: 0 <= k < |d.body| ==> Clear(m, d.body[k])
  {
    hide Kept, TopLevelNames, FactoryAllowed, FactoryContext, Settled, Quiet, Clear, RunLocals;
    ContextIsSettled(original, current, edit);
    FactorySound(FactoryContext(current, edit, TopLevelNames(original)), Functions(current)[name]);
  }
}
