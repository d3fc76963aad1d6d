/** What a matching file and an accepted bundle have kept, statement by statement: the statements around the symbols
    that may be edited, as src/harness_guard.py and agents/forge/bundles.py compare them. */
module ProtectedStatements {
  import opened Wrappers
  import opened EditScopes
  import opened PythonSyntax
  import opened SymbolDigest
  import opened HarnessGuard
  import opened BundleSymbols
  import opened BundleInstall
  import opened HarnessPolicy

  /** The statement gives the name a meaning: it defines it, imports it, or assigns to it. */
  predicate Binds(s: Stmt, name: string) {
    match s
    case Define(d, _) => d.name == name
    case Import(pairs, unresolved, _) => name in unresolved || exists k :: 0 <= k < |pairs| && pairs[k].0 == name
    case Assign(targets, _, _) => Name(name) in targets
    case AnnAssign(target, _, _, _) => target == Name(name)
    case _ => false
  }

  predicate BoundIn(tree: Module, name: string) {
    exists k :: 0 <= k < |tree| && Binds(tree[k], name)
  }

  /** Everything the original holds around the symbols stands in the current file, in the same order; beside it and
      the symbols there are only definitions of names that the original does not bind. */
  ghost predicate KeepsAround(was: Module, now: Module, symbols: set<string>, newHelpers: bool) {
    exists helpers: set<string> ::
      && (forall name :: name in helpers ==> newHelpers && !BoundIn(was, name))
      && Around(now, symbols + helpers) == Around(was, symbols)
  }

  /** A match leaves everything around the editable symbols as it was. */
  lemma MatchKeepsAround(g: Guard, before: Snapshot, original: Files, files: Files, p: Path)
    requires p in before && p in original && Digests(g, p, original[p], before[p])
    requires HarnessGuard.Matches(g, before, files)
    requires p in g.scopes && g.parse(original[p]).Some?
    requires InitialNames(g, p) == TopLevelNames(g.parse(original[p]).value)
    ensures p in files && g.parse(files[p]).Some?
    ensures KeepsAround(g.parse(original[p]).value, g.parse(files[p]).value, g.scopes[p].symbols,
                        g.scopes[p].newHelpers)
  {
    hide Kept, Policy, TopLevelNames, Around, Dumps, BoundIn;
    MatchMeansUnchanged(g, before, original, files, p);
    KeptKeepsAround(g.parse(original[p]).value, g.parse(files[p]).value, g.scopes[p]);
  }

  lemma KeptKeepsAround(was: Module, now: Module, edit: Edit)
    requires Kept(now, edit, TopLevelNames(was)) == Kept(was, edit, TopLevelNames(was))
    ensures KeepsAround(was, now, edit.symbols, edit.newHelpers)
  {
    hide Kept, TopLevelNames, Around, Dumps;
    var initial := TopLevelNames(was);
    var helpers := Additions(now, edit, TopLevelNames(was));
    BoundNamesAreInitial(was);
    KeptIsAround(now, edit, initial, edit.symbols + helpers);
    KeptIsAround(was, edit, initial, edit.symbols);
    forall name | name in helpers ensures !BoundIn(was, name) {
    }
  }

  /** A file keeps its digest exactly when what stands around the symbols is unchanged and the editable definitions
      pass the policy, as far as a dump tells its statement. */
  lemma MatchIsAround(g: Guard, before: Snapshot, original: Files, files: Files, p: Path)
    requires p in before && p in original && p in files && Digests(g, p, original[p], before[p])
    requires p in g.scopes && g.parse(original[p]).Some? && g.parse(files[p]).Some?
    requires InitialNames(g, p) == TopLevelNames(g.parse(original[p]).value)
    ensures var was, now, edit := g.parse(original[p]).value, g.parse(files[p]).value, g.scopes[p];
            DumpsTell(was, now) ==>
              (Digests(g, p, files[p], before[p])
               <==> Around(now, edit.symbols + Additions(now, edit, TopLevelNames(was))) == Around(was, edit.symbols)
                    && Policy(now, edit, InitialNames(g, p)))
  {
    hide Kept, Policy, TopLevelNames, Around, Dumps, DumpsTell;
    var was, now, edit := g.parse(original[p]).value, g.parse(files[p]).value, g.scopes[p];
    MatchMeansSameDumps(g, before, original, files, p);
    BoundNamesAreInitial(was);
    KeptIsAround(now, edit, TopLevelNames(was), edit.symbols + Additions(now, edit, TopLevelNames(was)));
    KeptIsAround(was, edit, TopLevelNames(was), edit.symbols);
  }

  lemma BoundNamesAreInitial(tree: Module)
    ensures forall name :: BoundIn(tree, name) ==> name in TopLevelNames(tree)
    ensures forall k :: 0 <= k < |tree| && tree[k].Define? ==> tree[k].d.name in TopLevelNames(tree)
  {
    forall k, name | 0 <= k < |tree| && Binds(tree[k], name) ensures name in NamesOf(tree[k]) {
      BoundIsNamed(tree[k], name);
    }
    assert forall k :: 0 <= k < |tree| && tree[k].Define? ==> Binds(tree[k], tree[k].d.name);
  }

  lemma BoundIsNamed(s: Stmt, name: string)
    requires Binds(s, name)
    ensures name in NamesOf(s)
  {
    match s
    case Assign(targets, _, _) =>
      var k :| 0 <= k < |targets| && targets[k] == Name(name);
      assert name in NamesIn(targets[k]);
    case _ =>
  }

  /** No definition that a matching file adds has a name that test runners call by themselves. */
  lemma MatchAddsNoTest(g: Guard, before: Snapshot, original: Files, files: Files, p: Path, k: nat)
    requires p in before && p in original && Digests(g, p, original[p], before[p])
    requires HarnessGuard.Matches(g, before, files)
    requires p in g.scopes && g.parse(original[p]).Some?
    requires InitialNames(g, p) == TopLevelNames(g.parse(original[p]).value)
    ensures p in files && g.parse(files[p]).Some?
    ensures var was, now := g.parse(original[p]).value, g.parse(files[p]).value;
            k < |now| && now[k].Define? && now[k].d.name !in TopLevelNames(was)
            && (g.scopes[p].newHelpers || now[k].d.name in g.scopes[p].symbols) ==>
              var name := now[k].d.name;
              && !("test" <= name) && !("Test" <= name) && !("pytest_" <= name)
              && name !in {"setup_module", "teardown_module", "setup_function", "teardown_function", "__getattr__"}
  {
    hide Kept, TopLevelNames, Accepts, ContextOf, DefinedOnce;
    MatchMeansUnchanged(g, before, original, files, p);
    var now := g.parse(files[p]).value;
    if k < |now| && now[k].Define? {
      assert Allowed(now, g.scopes[p], InitialNames(g, p), now[k]);
      AcceptedName(ContextOf(now, g.scopes[p], InitialNames(g, p)), now[k].d);
    }
  }

  /** A matching file defines no symbol twice, and no helper either. */
  lemma MatchDefinesOnce(g: Guard, before: Snapshot, original: Files, files: Files, p: Path, j: nat, k: nat)
    requires p in before && p in original && Digests(g, p, original[p], before[p])
    requires HarnessGuard.Matches(g, before, files)
    requires p in g.scopes && g.parse(original[p]).Some?
    requires InitialNames(g, p) == TopLevelNames(g.parse(original[p]).value)
    ensures p in files && g.parse(files[p]).Some?
    ensures var was, now := g.parse(original[p]).value, g.parse(files[p]).value;
            j < k < |now| && now[j].Define? && now[k].Define?
            && (now[k].d.name in g.scopes[p].symbols
                || (g.scopes[p].newHelpers && now[k].d.name !in TopLevelNames(was))) ==>
              now[j].d.name != now[k].d.name
  {
    hide Kept, TopLevelNames, Accepts, ContextOf, Allowed;
    MatchMeansUnchanged(g, before, original, files, p);
    var now := g.parse(files[p]).value;
    assert k < |now| && now[k].Define? ==> now[k].d.name in DefinedNames(now);
  }

  /** What an editable decorator may call for its configuration: plain functions of the original file, which are
      protected, or else no entry point and checked themselves. */
  lemma FactoriesAreKnown(tree: Module, edit: Edit, initial: set<string>, name: string)
    requires name in ContextOf(tree, edit, initial).factories
    ensures name in initial
    ensures exists k :: 0 <= k < |tree| && tree[k].Define? && tree[k].d.Function? && !tree[k].d.coroutine
                        && tree[k].d.name == name
    ensures name in edit.symbols ==>
              name !in edit.entrypoints && Admitted(tree, edit, initial, name) && Functions(tree)[name].decorators == []
  {
    hide Admitted;
    FunctionIsThere(tree, name);
    AdmittedIsPlain(tree, edit, initial, name);
  }

  lemma AdmittedIsPlain(tree: Module, edit: Edit, initial: set<string>, name: string)
    ensures Admitted(tree, edit, initial, name) ==>
              name in Functions(tree) && Functions(tree)[name].decorators == []
  {
    hide Functions;
  }

  lemma {:induction false} FunctionIsThere(tree: Module, name: string)
    requires name in Functions(tree)
    ensures exists k :: 0 <= k < |tree| && tree[k].Define? && tree[k].d.Function? && !tree[k].d.coroutine
                        && tree[k].d.name == name
  {
    var n := |tree| - 1;
    if name in Functions(tree[..n]) {
      FunctionIsThere(tree[..n], name);
      var k :| 0 <= k < n && tree[..n][k].Define? && tree[..n][k].d.Function? && !tree[..n][k].d.coroutine
               && tree[..n][k].d.name == name;
      assert tree[k] == tree[..n][k];
    }
  }

  lemma AcceptedName(ctx: Context, d: Definition)
    ensures Accepts(ctx, d, true, false) ==> NameAllowed(d.name, false)
  {
  }

  // ---- What decorators look at ----

  /** An expression is part of another. */
  predicate PartOf(part: Expr, e: Expr) {
    Anywhere(x => x == part, e)
  }

  lemma {:induction false} FoundAnywhere(f: Expr -> bool, part: Expr, e: Expr)
    requires PartOf(part, e) && f(part)
    ensures Anywhere(f, e)
    decreases e
  {
    if e != part {
      match e
      case Name(_) =>
      case Attribute(v, _) => FoundAnywhere(f, part, v);
      case Call(g, args) =>
        if PartOf(part, g) { FoundAnywhere(f, part, g); } else { FoundInParts(f, part, e, args); }
      case Lambda(defaults, body) =>
        if PartOf(part, body) { FoundAnywhere(f, part, body); } else { FoundInParts(f, part, e, defaults); }
      case Comp(_, first, parts) =>
        if PartOf(part, first) { FoundAnywhere(f, part, first); } else { FoundInParts(f, part, e, parts); }
      case Other(_, parts) => FoundInParts(f, part, e, parts);
    }
  }

  lemma {:induction false} FoundInParts(f: Expr -> bool, part: Expr, whole: Expr, parts: seq<Expr>)
    requires f(part) && (forall k :: 0 <= k < |parts| ==> parts[k] < whole)
    requires exists k :: 0 <= k < |parts| && PartOf(part, parts[k])
    ensures exists k :: 0 <= k < |parts| && Anywhere(f, parts[k])
    decreases whole, 0
  {
    var k :| 0 <= k < |parts| && PartOf(part, parts[k]);
    FoundAnywhere(f, part, parts[k]);
  }

  lemma {:induction false} FirstPartOf(package: string, rest: string)
    requires forall k :: 0 <= k < |package| ==> package[k] != '.'
    requires rest == "" || rest[0] == '.'
    ensures FirstPart(package + rest) == package
  {
    if package == "" {
      assert package + rest == rest;
    } else {
      assert (package + rest)[1..] == package[1..] + rest;
      FirstPartOf(package[1..], rest);
    }
  }

  /** No part of an allowed decorator is a name that leads into a test package. */
  lemma DecoratorsReadNoTests(ctx: Context, method_: bool, decorator: Expr, part: Expr, package: string, rest: string)
    requires DecoratorAllowed(ctx, method_, decorator) && PartOf(part, decorator)
    requires package in {"pytest", "unittest", "pluggy"} && (rest == "" || rest[0] == '.')
    ensures Qualified(part, ctx.bindings) != Some(package + rest)
  {
    hide DecoratorAllowed, PartOf, Qualified, FirstPart, Anywhere;
    NoneReadsTests(ctx, method_, decorator);
    FirstPartOf(package, rest);
    if ReadsTests(ctx.bindings, part) {
      FoundAnywhere(e => ReadsTests(ctx.bindings, e), part, decorator);
    }
  }

  /** An allowed decorator comes from the compiler, or, on a method, is one of three builtins. */
  lemma DecoratorsCompile(ctx: Context, method_: bool, decorator: Expr)
    requires DecoratorAllowed(ctx, method_, decorator)
    ensures var target := if decorator.Call? then decorator.func else decorator;
            || Qualified(target, ctx.bindings)
               in {Some("triton.jit"), Some("triton.autotune"), Some("triton.heuristics")}
            || (method_ && decorator in {Name("staticmethod"), Name("classmethod"), Name("property")})
  {
    hide Anywhere, AllCalls, Qualified;
  }

  /** A name that is imported stands for what its last import says. */
  lemma {:induction false} LastImportCounts(tree: Module, k: nat, j: nat)
    requires k < |tree| && tree[k].Import? && j < |tree[k].pairs|
    requires forall i :: j < i < |tree[k].pairs| ==> tree[k].pairs[i].0 != tree[k].pairs[j].0
    requires forall l :: k < l < |tree| && tree[l].Import? ==> tree[k].pairs[j].0 !in PairNames(tree[l].pairs)
    ensures tree[k].pairs[j].0 in Bindings(tree) && Bindings(tree)[tree[k].pairs[j].0] == tree[k].pairs[j].1
    decreases |tree|
  {
    hide Bindings, BindAll, PairNames;
    var n := |tree| - 1;
    BindingsStep(tree);
    if k == n {
      LastPairCounts(Bindings(tree[..n]), tree[k].pairs, j);
    } else {
      LastImportCounts(tree[..n], k, j);
      if tree[n].Import? {
        OtherPairs(Bindings(tree[..n]), tree[n].pairs, tree[k].pairs[j].0);
      }
    }
  }

  lemma BindingsStep(tree: Module)
    requires tree != []
    ensures var n := |tree| - 1;
            Bindings(tree)
            == if tree[n].Import? then BindAll(Bindings(tree[..n]), tree[n].pairs) else Bindings(tree[..n])
  {
  }

  lemma {:induction false} LastPairCounts(b: map<string, string>, pairs: seq<(string, string)>, j: nat)
    requires j < |pairs| && forall i :: j < i < |pairs| ==> pairs[i].0 != pairs[j].0
    ensures pairs[j].0 in BindAll(b, pairs) && BindAll(b, pairs)[pairs[j].0] == pairs[j].1
    decreases |pairs|
  {
    if j < |pairs| - 1 {
      LastPairCounts(b, pairs[..|pairs| - 1], j);
    }
  }

  lemma {:induction false} OtherPairs(b: map<string, string>, pairs: seq<(string, string)>, name: string)
    requires name in b && name !in PairNames(pairs)
    ensures name in BindAll(b, pairs) && BindAll(b, pairs)[name] == b[name]
  {
    if pairs != [] {
      var n := |pairs| - 1;
      assert pairs[n].0 in PairNames(pairs) && PairNames(pairs[..n]) <= PairNames(pairs);
      OtherPairs(b, pairs[..n], name);
    }
  }

  lemma NoneReadsTests(ctx: Context, method_: bool, decorator: Expr)
    requires DecoratorAllowed(ctx, method_, decorator)
    ensures !Anywhere(e => ReadsTests(ctx.bindings, e), decorator)
  {
    hide AllCalls, CallAllowed, Qualified, ReadsTests;
  }

  // ---- The whole workspace ----

  /** A file that a test runner picks up, by its name or by a directory above it. */
  predicate IsTestFile(p: Path) {
    p != [] && (p[|p| - 1] == "conftest.py" || HarnessGuard.EndsWith(p[|p| - 1], "_test.py")
                || exists k :: 0 <= k < |p| - 1 && (p[k] == "test" || p[k] == "tests"))
  }

  /** After a match every protected file without editable symbols has the text it had, and outside the directories of
      the runtime there is no test file that the snapshot did not have. */
  lemma MatchedWorkspace(g: Guard, before: Snapshot, original: Files, files: Files, p: Path)
    requires HarnessGuard.Matches(g, before, files)
    requires forall q :: q in before ==> q in original && Digests(g, q, original[q], before[q])
    ensures p in before && p !in g.scopes ==> p in files && files[p] == original[p]
    ensures p in files && IsTestFile(p) && !HasParentIn(p, RUNTIME_DIRS) && FileName(p) !in OUTPUT_NAMES ==> p in before
  {
    hide Kept, Policy;
    if p in before {
      MatchMeansUnchanged(g, before, original, files, p);
    }
    if IsTestFile(p) {
      TestsAreProtected(p);
    }
  }

  lemma TestsAreProtected(p: Path)
    requires IsTestFile(p)
    ensures IsProtected(p)
  {
    if HarnessGuard.EndsWith(p[|p| - 1], "_test.py") {
      assert "_test.py" in HARNESS_SUFFIXES;
    }
  }

  // ---- Bundles ----

  /** As Around, with imports left out too. */
  function AroundImports(tree: Module, names: set<string>): seq<string> {
    if tree == [] then []
    else
      var s := tree[|tree| - 1];
      AroundImports(tree[..|tree| - 1], names) + if s.Import? || Defines(s, names) then [] else [s.dump]
  }

  lemma {:induction false} ProtectedIsAround(tree: Module, e: SymbolEdit, had: set<string>, names: set<string>)
    requires forall k :: 0 <= k < |tree| && tree[k].Define? ==>
               (tree[k].d.name in names <==> tree[k].d.name in e.symbols || (e.newHelpers && tree[k].d.name !in had))
    ensures Dumps(Protected(e, had, tree)) == AroundImports(tree, names)
  {
    if tree != [] {
      ProtectedIsAround(tree[..|tree| - 1], e, had, names);
    }
  }

  /** A candidate file is accepted exactly when it is Python and, beside imports, the declared symbols and, where they
      are allowed, definitions of names the original did not define, none of them a test, it holds what the original
      holds, in the same order. */
  lemma AcceptedBundleFile(parse: Parser, e: SymbolEdit, path: Path, before: string, after: string)
    requires IsPythonFile(path) && parse(before).Some? && parse(after).Some?
    ensures var was, now := parse(before).value, parse(after).value;
            var helpers := if e.newHelpers then DefinedNames(now) - DefinedNames(was) - e.symbols else {};
            SymbolsKept(parse, e, path, before, after) <==>
              && AroundImports(now, e.symbols + helpers) == AroundImports(was, e.symbols)
              && forall name :: name in helpers ==> !("test_" <= name)
  {
    hide Protected, AroundImports, Dumps;
    var was, now := parse(before).value, parse(after).value;
    var helpers := if e.newHelpers then DefinedNames(now) - DefinedNames(was) - e.symbols else {};
    ProtectedIsAround(was, e, DefinedNames(was), e.symbols);
    ProtectedIsAround(now, e, DefinedNames(was), e.symbols + helpers);
    assert AddsTest(e, DefinedNames(was), now) <==> exists name :: name in helpers && "test_" <= name by {
      if name :| name in helpers && "test_" <= name {
        var k :| 0 <= k < |now| && now[k].Define? && now[k].d.name == name;
        assert NewHelper(e, DefinedNames(was), now[k]);
      }
    }
  }

  /** After a faithful installation every declared file with symbols is Python and, against the reference, holds what
      stands around the symbols there. */
  lemma InstalledFileKeepsAround(b: Bundle, s: Disk, d: Disk, e: Disk, reference: Disk, k: nat)
    requires Ready(b, s, d, reference) && Faithful(b, s, d, e)
    requires k < |b.scopes| && b.scopes[k].kind == Symbols
    ensures var p := b.scopes[k].path;
            && p in e.files && p in reference.files && IsPythonFile(p)
            && b.parse(reference.files[p]).Some? && b.parse(e.files[p]).Some?
            && var was, now := b.parse(reference.files[p]).value, b.parse(e.files[p]).value;
               var edit := EditAt(b, p);
               var helpers := if edit.newHelpers then DefinedNames(now) - DefinedNames(was) - edit.symbols else {};
               && AroundImports(now, edit.symbols + helpers) == AroundImports(was, edit.symbols)
               && forall name :: name in helpers ==> !("test_" <= name)
  {
    hide Ready, Faithful, AroundImports, DefinedNames, Protected, AddsTest;
    InstalledKeepsSymbols(b, s, d, e, reference, k);
    var p := b.scopes[k].path;
    AcceptedBundleFile(b.parse, EditAt(b, p), p, reference.files[p], e.files[p]);
  }

  /** What collection demands: no file where a tree is declared, and of a complete bundle every other declared file
      and at least one file in all. */
  lemma FitsExactly(b: Bundle, d: Disk, required: bool)
    ensures Fits(b, d, required) <==>
              && (forall s :: s in b.scopes && s.kind == Tree ==> s.path !in d.files)
              && (required ==>
                    && (forall s :: s in b.scopes && s.kind != Tree ==> s.path in d.files)
                    && exists p :: p in d.files && Chosen(b, p))
  {
    hide Chosen;
    forall s | s in b.scopes ensures exists k :: 0 <= k < |b.scopes| && b.scopes[k] == s {
    }
  }
}
