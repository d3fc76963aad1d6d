/** The statements around declared symbols that a candidate must keep: _check_symbols of agents/forge/bundles.py. */
module BundleSymbols {
  import opened Wrappers
  import opened EditScopes
  import opened PythonSyntax
  import opened SymbolDigest

  datatype SymbolEdit = SymbolEdit(symbols: set<string>, newHelpers: bool)

  type Parser = string -> Option<Module>

  predicate IsTest(name: string) {
    "test_" <= name
  }

  /** A definition of the candidate that the original did not have, where such are allowed. */
  predicate NewHelper(e: SymbolEdit, had: set<string>, s: Stmt) {
    s.Define? && e.newHelpers && s.d.name !in e.symbols && s.d.name !in had
  }

  /** The statements that may differ: imports, declared symbols, and new helpers. */
  predicate MayDiffer(e: SymbolEdit, had: set<string>, s: Stmt) {
    s.Import? || (s.Define? && s.d.name in e.symbols) || NewHelper(e, had, s)
  }

  /** The protected statements of a file, in order; had holds the names the original defines. */
  function Protected(e: SymbolEdit, had: set<string>, tree: Module): (kept: Module)
    ensures forall s :: s in kept <==> s in tree && !MayDiffer(e, had, s)
  {
    if tree == [] then []
    else
      var k := |tree| - 1;
      assert forall s :: s in tree <==> s in tree[..k] || s == tree[k];
      Protected(e, had, tree[..k]) + if MayDiffer(e, had, tree[k]) then [] else [tree[k]]
  }

  predicate AddsTest(e: SymbolEdit, had: set<string>, tree: Module) {
    exists k :: 0 <= k < |tree| && NewHelper(e, had, tree[k]) && IsTest(tree[k].d.name)
  }

  /** No definition of the original is a new helper, so its protected statements are all but imports and symbols. */
  lemma OriginalHasNoHelpers(e: SymbolEdit, tree: Module, s: Stmt)
    requires s in tree
    ensures !NewHelper(e, DefinedNames(tree), s)
  {
    var k :| 0 <= k < |tree| && tree[k] == s;
  }

  /** The candidate keeps the dump of every protected statement, adds none, and adds no test among its helpers. */
  ghost predicate SymbolsKept(parse: Parser, e: SymbolEdit, path: Path, before: string, after: string) {
    && IsPythonFile(path) && parse(before).Some? && parse(after).Some?
    && var had := DefinedNames(parse(before).value);
       && !AddsTest(e, had, parse(after).value)
       && Dumps(Protected(e, had, parse(before).value)) == Dumps(Protected(e, had, parse(after).value))
  }

  /** As far as a dump tells its statement, the candidate keeps the protected statements themselves. */
  lemma KeptDumpsKeepStatements(parse: Parser, e: SymbolEdit, path: Path, before: string, after: string)
    requires SymbolsKept(parse, e, path, before, after) && DumpsTell(parse(before).value, parse(after).value)
    ensures var had := DefinedNames(parse(before).value);
            Protected(e, had, parse(before).value) == Protected(e, had, parse(after).value)
  {
    hide MayDiffer, AddsTest, DefinedNames;
    var had := DefinedNames(parse(before).value);
    SameDumps(parse(before).value, parse(after).value, Protected(e, had, parse(before).value),
              Protected(e, had, parse(after).value));
  }

  lemma NothingProtected(e: SymbolEdit, had: set<string>)
    ensures Protected(e, had, []) == []
  {
  }

  lemma ProtectedStep(e: SymbolEdit, had: set<string>, tree: Module, n: nat)
    requires n < |tree|
    ensures Protected(e, had, tree[..n + 1])
            == Protected(e, had, tree[..n]) + if MayDiffer(e, had, tree[n]) then [] else [tree[n]]
  {
    hide MayDiffer;
    assert tree[..n + 1][..n] == tree[..n];
  }

  /** The loop over the statements of one file; edited is the candidate, whose helpers may be new. */
  method ProtectedNodes(e: SymbolEdit, had: set<string>, tree: Module, edited: bool)
    returns (r: Option<seq<string>>)
    requires !edited ==> had == DefinedNames(tree)
    ensures r.Some? <==> !(edited && AddsTest(e, had, tree))
    ensures r.Some? ==> r.value == Dumps(Protected(e, had, tree))
  {
    hide DefinedNames, Protected, IsTest;
    assert tree[..0] == [] && Protected(e, had, []) == [] by { NothingProtected(e, had); }
    var nodes: seq<string>, n := [], 0;
    while n < |tree|
      invariant 0 <= n <= |tree|
      invariant nodes == Dumps(Protected(e, had, tree[..n]))
      invariant edited ==> forall k :: 0 <= k < n ==> !(NewHelper(e, had, tree[k]) && IsTest(tree[k].d.name))
    {
      var node := tree[n];
      ProtectedStep(e, had, tree, n);
      if !edited {
        OriginalHasNoHelpers(e, tree, node);
      }
      if node.Import? {
      } else if node.Define? && node.d.name in e.symbols {
      } else if node.Define? && edited && e.newHelpers && node.d.name !in had {
        if IsTest(node.d.name) {
          return None;
        }
      } else {
        nodes := nodes + [node.dump];
      }
      n := n + 1;
    }
    assert tree[..n] == tree;
    return Some(nodes);
  }

  method CheckSymbols(parse: Parser, e: SymbolEdit, path: Path, before: string, after: string) returns (ok: bool)
    ensures ok <==> SymbolsKept(parse, e, path, before, after)
  {
    hide Protected, DefinedNames;
    if !IsPythonFile(path) || parse(before).None? || parse(after).None? {
      return false;
    }
    var had := DefinedNames(parse(before).value);
    var was := ProtectedNodes(e, had, parse(before).value, false);
    var now := ProtectedNodes(e, had, parse(after).value, true);
    return now.Some? && was == now;
  }
}
