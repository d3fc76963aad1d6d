/** Editable declarations: EditScope and the overlap check of src/task_spec.py. A path is the sequence of
    its components, none of them empty. */
module EditScopes {
  type Path = seq<string>

  datatype Kind = File | Symbols | Tree

  datatype Scope = Scope(path: Path, kind: Kind) {
    predicate Contains(p: Path) {
      p == path || (kind == Tree && path < p)
    }
  }

  /** The last component has the suffix .py, and something before it. */
  predicate IsPythonFile(p: Path) {
    p != [] && var name := p[|p| - 1]; |name| > 3 && name[|name| - 3..] == ".py"
  }

  predicate Overlap(a: Scope, b: Scope) {
    a.Contains(b.path) || b.Contains(a.path)
  }

  ghost predicate Disjoint(scopes: seq<Scope>) {
    forall i, j :: 0 <= i < j < |scopes| ==> !Overlap(scopes[i], scopes[j])
  }

  /** The paths declared by some scope. */
  ghost predicate Declared(scopes: seq<Scope>, p: Path) {
    exists s :: s in scopes && s.Contains(p)
  }

  /** Accepts a list of declarations exactly when no two of them overlap. */
  method CheckOverlaps(declared: seq<Scope>) returns (ok: bool)
    ensures ok <==> Disjoint(declared)
  {
    var n := 0;
    while n < |declared|
      invariant 0 <= n <= |declared|
      invariant Disjoint(declared[..n])
    {
      var k := 0;
      while k < n
        invariant 0 <= k <= n
        invariant forall j :: 0 <= j < k ==> !Overlap(declared[j], declared[n])
      {
        if Overlap(declared[k], declared[n]) {
          return false;
        }
        k := k + 1;
      }
      n := n + 1;
    }
    assert declared[..n] == declared;
    return true;
  }

  /** Two scopes overlap exactly when they share a path, so with disjoint declarations every path belongs to
      at most one scope. */
  lemma OverlapMeansSharedPath(a: Scope, b: Scope)
    ensures Overlap(a, b) <==> exists p :: a.Contains(p) && b.Contains(p)
  {
  }

  lemma AtMostOneScope(scopes: seq<Scope>, p: Path, i: nat, j: nat)
    requires Disjoint(scopes) && i < |scopes| && j < |scopes|
    requires scopes[i].Contains(p) && scopes[j].Contains(p)
    ensures i == j
  {
  }
}
