/** The ignore rules that expose declared candidate paths to Git: allow_candidate_paths in
    agents/forge/bundles.py, under the pattern format of gitignore(5). */
module IgnoreRules {
  import opened EditScopes

  // ---- One path component against one pattern component ----

  const LINE_BREAK := '\n'

  predicate Literal(name: string) {
    forall k :: 0 <= k < |name| ==> name[k] !in {'*', '?', '[', LINE_BREAK}
  }

  /** A name at the end of a line that is its own pattern: no wildcard, and no blank that is trimmed. */
  predicate Plain(name: string) {
    Literal(name) && (name != "" ==> name[|name| - 1] != ' ')
  }

  /** Whether a character is among the members of a bracket expression, with ranges. */
  predicate InClass(members: string, c: char) {
    if members == "" then false
    else if |members| >= 3 && members[1] == '-' then
      members[0] <= c <= members[2] || InClass(members[3..], c)
    else members[0] == c || InClass(members[1..], c)
  }

  function CloseAt(p: string, i: nat): (k: nat)
    ensures k <= |p| || k == i
    ensures k < |p| ==> i <= k
    decreases |p| - i
  {
    if i >= |p| then |p|
    else if p[i] == ']' then i
    else CloseAt(p, i + 1)
  }

  predicate Glob(p: string, n: string)
    decreases |p|, |n|
  {
    if p == "" then n == ""
    else if p[0] == '*' then Glob(p[1..], n) || (n != "" && Glob(p, n[1..]))
    else if n == "" then false
    else if p[0] == '?' then Glob(p[1..], n[1..])
    else if p[0] == '[' then
      var negated := |p| > 1 && (p[1] == '!' || p[1] == '^');
      var first := if negated then 2 else 1;
      var close := CloseAt(p, first + 1);
      close < |p| && (InClass(p[first..close], n[0]) != negated) && Glob(p[close + 1..], n[1..])
    else p[0] == n[0] && Glob(p[1..], n[1..])
  }

  lemma {:induction false} LiteralIsExact(p: string, n: string)
    requires Literal(p)
    ensures Glob(p, n) <==> p == n
  {
    if p != "" && n != "" {
      LiteralIsExact(p[1..], n[1..]);
      assert p == [p[0]] + p[1..] && n == [n[0]] + n[1..];
    }
  }

  // ---- Patterns ----

  datatype Pattern =
    | Exact(path: Path)       // /a/b
    | Directory(path: Path)   // /a/b/
    | Children(path: Path)    // /a/b/*
    | Inside(path: Path)      // /a/b/**
    | AnyDirectory(name: string)  // name/
    | AnyEnding(suffix: string)   // *suffix

  datatype Rule = Rule(negated: bool, pattern: Pattern)

  ghost predicate LiteralPath(p: Path) {
    p != [] && forall k :: 0 <= k < |p| ==> Literal(p[k])
  }

  /** Only the path of a single file ends its line; in all other rules something follows it. */
  ghost predicate PlainScope(s: Scope) {
    LiteralPath(s.path) && (s.kind != Tree ==> Plain(s.path[|s.path| - 1]))
  }

  predicate GlobPath(p: Path, q: Path) {
    |p| == |q| && forall k :: 0 <= k < |p| ==> Glob(p[k], q[k])
  }

  /** Blanks at the end of a line are not part of the pattern. */
  function Trimmed(name: string): string {
    if name != "" && name[|name| - 1] == ' ' then Trimmed(name[..|name| - 1]) else name
  }

  function TrimmedPath(p: Path): Path {
    if p == [] then [] else p[..|p| - 1] + [Trimmed(p[|p| - 1])]
  }

  predicate EndsWith(name: string, suffix: string) {
    |suffix| <= |name| && name[|name| - |suffix|..] == suffix
  }

  predicate Matches(pattern: Pattern, q: Path, isDir: bool)
    requires q != []
  {
    match pattern
    case Exact(p) => GlobPath(TrimmedPath(p), q)
    case Directory(p) => isDir && GlobPath(p, q)
    case Children(p) => GlobPath(p, q[..|q| - 1])
    case Inside(p) => |p| < |q| && GlobPath(p, q[..|p|])
    case AnyDirectory(name) => isDir && q[|q| - 1] == name
    case AnyEnding(suffix) => EndsWith(q[|q| - 1], suffix)
  }

  lemma PathIsLiteral(p: Path, q: Path)
    requires LiteralPath(p)
    ensures GlobPath(p, q) <==> p == q
    ensures Plain(p[|p| - 1]) ==> TrimmedPath(p) == p
  {
    forall k | 0 <= k < |p| && |p| == |q| ensures Glob(p[k], q[k]) <==> p[k] == q[k] {
      LiteralIsExact(p[k], q[k]);
    }
  }

  // ---- What a list of rules decides ----

  datatype Decision = Silent | Shown | Hidden

  /** The last rule that matches decides. */
  function Verdict(rules: seq<Rule>, q: Path, isDir: bool): Decision
    requires q != []
  {
    if rules == [] then Silent
    else
      var r := rules[|rules| - 1];
      if Matches(r.pattern, q, isDir) then (if r.negated then Shown else Hidden)
      else Verdict(rules[..|rules| - 1], q, isDir)
  }

  lemma VerdictSnoc(rules: seq<Rule>, r: Rule, q: Path, isDir: bool)
    requires q != []
    ensures Verdict(rules + [r], q, isDir)
            == if Matches(r.pattern, q, isDir) then (if r.negated then Shown else Hidden)
               else Verdict(rules, q, isDir)
  {
  }

  /** What the rules already in the file decide; any file, hence any function. */
  type Existing = (Path, bool) -> Decision

  function Decide(existing: Existing, rules: seq<Rule>, q: Path, isDir: bool): Decision
    requires q != []
  {
    var v := Verdict(rules, q, isDir);
    if v == Silent then existing(q, isDir) else v
  }

  /** Whether Git sees the file at p: no directory on the way down, nor the file itself, is excluded. */
  ghost predicate Visible(existing: Existing, rules: seq<Rule>, p: Path) {
    forall k :: 0 < k <= |p| ==> Decide(existing, rules, p[..k], k < |p|) != Hidden
  }

  // ---- What the declarations mean ----

  function Parent(q: Path): Path
    requires q != []
  {
    q[..|q| - 1]
  }

  /** A directory on the way to a declared path, or a declared tree. */
  ghost predicate Opened(scopes: seq<Scope>, d: Path) {
    d != [] && exists s :: s in scopes && (d < s.path || (s.kind == Tree && d == s.path))
  }

  ghost predicate DeclaredFile(scopes: seq<Scope>, q: Path) {
    exists s :: s in scopes && s.kind != Tree && q == s.path
  }

  ghost predicate InsideTree(scopes: seq<Scope>, q: Path) {
    exists s :: s in scopes && s.kind == Tree && s.path < q
  }

  predicate Cache(q: Path, isDir: bool)
    requires q != []
  {
    var name := q[|q| - 1];
    (isDir && (name == "__pycache__" || name == ".pytest_cache")) || EndsWith(name, ".pyc")
  }

  /** A file that is a cache, or lies in one. */
  ghost predicate Cached(p: Path) {
    exists k :: 0 < k <= |p| && Cache(p[..k], k < |p|)
  }

  /** The decision for one entry, from the opened directories and the declarations alone. */
  ghost function Meaning(open: set<Path>, scopes: seq<Scope>, q: Path, isDir: bool): Decision
    requires q != []
  {
    if isDir && q in open then Shown
    else if DeclaredFile(scopes, q) || InsideTree(scopes, q) then Shown
    else if Parent(q) in open then Hidden
    else Silent
  }

  ghost predicate Means(rules: seq<Rule>, open: set<Path>, scopes: seq<Scope>) {
    forall q: Path, isDir: bool :: q != [] ==>
      Verdict(rules, q, isDir) == Meaning(open, scopes, q, isDir)
  }

  /** Opened directories are closed under parents, and everything declared lies below one or at the top. */
  ghost predicate Closed(open: set<Path>, scopes: seq<Scope>) {
    && (forall d :: d in open ==> d != [] && (|d| > 1 ==> Parent(d) in open))
    && (forall s :: s in scopes ==> s.path != [] && (|s.path| > 1 ==> Parent(s.path) in open))
    && (forall s :: s in scopes && s.kind == Tree ==> s.path in open)
  }

  // ---- Emitting rules ----

  /** Opening a new directory: it is shown, its children are hidden, nothing else changes. */
  lemma OpenDirectory(rules: seq<Rule>, open: set<Path>, scopes: seq<Scope>, d: Path)
    requires Means(rules, open, scopes) && Closed(open, scopes)
    requires LiteralPath(d) && d !in open && (|d| > 1 ==> Parent(d) in open)
    requires forall s :: s in scopes && s.kind == Tree ==> !(s.path <= d)
    ensures Means(rules + [Rule(true, Directory(d)), Rule(false, Children(d))], open + {d}, scopes)
    ensures Closed(open + {d}, scopes)
  {
    var shown := rules + [Rule(true, Directory(d))];
    forall q: Path, isDir: bool | q != []
      ensures Verdict(shown + [Rule(false, Children(d))], q, isDir) == Meaning(open + {d}, scopes, q, isDir)
    {
      VerdictSnoc(rules, Rule(true, Directory(d)), q, isDir);
      VerdictSnoc(shown, Rule(false, Children(d)), q, isDir);
      PathIsLiteral(d, q);
      PathIsLiteral(d, Parent(q));
      if Parent(q) == d {
        NothingBelowUnopened(open, scopes, d, q);
      }
    }
    assert shown + [Rule(false, Children(d))] == rules + [Rule(true, Directory(d)), Rule(false, Children(d))];
  }

  /** Below a directory that is not open, nothing is open or declared. */
  lemma NothingBelowUnopened(open: set<Path>, scopes: seq<Scope>, d: Path, q: Path)
    requires Closed(open, scopes) && d != [] && d !in open
    requires forall s :: s in scopes && s.kind == Tree ==> !(s.path <= d)
    requires q != [] && Parent(q) == d
    ensures q !in open && !DeclaredFile(scopes, q) && !InsideTree(scopes, q)
  {
  }

  /** The closing rule of a declaration shows the declared file, or everything in the declared tree. */
  lemma CloseScope(rules: seq<Rule>, open: set<Path>, scopes: seq<Scope>, s: Scope)
    requires Means(rules, open, scopes) && PlainScope(s)
    ensures Means(rules + [Rule(true, if s.kind == Tree then Inside(s.path) else Exact(s.path))],
                  open, scopes + [s])
  {
    var r := Rule(true, if s.kind == Tree then Inside(s.path) else Exact(s.path));
    forall q: Path, isDir: bool | q != []
      ensures Verdict(rules + [r], q, isDir) == Meaning(open, scopes + [s], q, isDir)
    {
      VerdictSnoc(rules, r, q, isDir);
      PathIsLiteral(s.path, q);
      if |s.path| < |q| {
        PathIsLiteral(s.path, q[..|s.path|]);
      }
      Snoc(scopes, s, q);
    }
  }

  lemma Snoc(scopes: seq<Scope>, s: Scope, q: Path)
    ensures DeclaredFile(scopes + [s], q) <==> DeclaredFile(scopes, q) || (s.kind != Tree && q == s.path)
    ensures InsideTree(scopes + [s], q) <==> InsideTree(scopes, q) || (s.kind == Tree && s.path < q)
    ensures Opened(scopes + [s], q) <==>
            Opened(scopes, q) || (q != [] && (q < s.path || (s.kind == Tree && q == s.path)))
  {
  }

  const CACHE_RULES := [Rule(false, AnyDirectory("__pycache__")), Rule(false, AnyEnding(".pyc")),
                        Rule(false, AnyDirectory(".pytest_cache"))]

  lemma CachesLast(rules: seq<Rule>, q: Path, isDir: bool)
    requires q != []
    ensures Verdict(rules + CACHE_RULES, q, isDir)
            == if Cache(q, isDir) then Hidden else Verdict(rules, q, isDir)
  {
    var r1 := rules + [CACHE_RULES[0]];
    var r2 := r1 + [CACHE_RULES[1]];
    assert r2 + [CACHE_RULES[2]] == rules + CACHE_RULES;
    VerdictSnoc(rules, CACHE_RULES[0], q, isDir);
    VerdictSnoc(r1, CACHE_RULES[1], q, isDir);
    VerdictSnoc(r2, CACHE_RULES[2], q, isDir);
  }

  function Rooted(prefix: Path, s: Scope): Scope {
    Scope(prefix + s.path, s.kind)
  }

  function AllRooted(prefix: Path, scopes: seq<Scope>): seq<Scope> {
    seq(|scopes|, i requires 0 <= i < |scopes| => Rooted(prefix, scopes[i]))
  }

  /** The decision the appended rules are to make for one entry. */
  ghost function Intended(scopes: seq<Scope>, q: Path, isDir: bool): Decision
    requires q != []
  {
    if Cache(q, isDir) then Hidden
    else if (isDir && Opened(scopes, q)) || DeclaredFile(scopes, q) || InsideTree(scopes, q) then Shown
    else if Opened(scopes, Parent(q)) then Hidden
    else Silent
  }

  lemma NoTreeAbove(scopes: seq<Scope>, n: nat, d: Path)
    requires Disjoint(scopes) && n < |scopes| && d <= scopes[n].path
    ensures forall s :: s in scopes[..n] && s.kind == Tree ==> !(s.path <= d)
  {
  }

  ghost predicate AncestorsAdded(before: set<Path>, after: set<Path>, path: Path, count: nat) {
    forall d :: d in after <==> d in before || (0 < |d| <= count && d <= path)
  }

  ghost predicate OpensExactly(open: set<Path>, scopes: seq<Scope>) {
    forall d :: d in open <==> Opened(scopes, d)
  }

  datatype Emission = Emission(lines: seq<Rule>, open: set<Path>)

  /** The rules that reopen the first `count` ancestors of a path, those already open left out. */
  function Opening(path: Path, count: nat, open: set<Path>): Emission
    requires count <= |path|
  {
    if count == 0 then Emission([], open)
    else
      var before := Opening(path, count - 1, open);
      var d := path[..count];
      if d in before.open then before
      else Emission(before.lines + [Rule(true, Directory(d)), Rule(false, Children(d))], before.open + {d})
  }

  /** How many leading parts of its path a declaration opens: a tree opens its own path too. */
  function Depth(s: Scope): nat {
    if s.kind == Tree || s.path == [] then |s.path| else |s.path| - 1
  }

  function Closing(s: Scope): Rule {
    Rule(true, if s.kind == Tree then Inside(s.path) else Exact(s.path))
  }

  function Emitted(scopes: seq<Scope>): Emission {
    if scopes == [] then Emission([], {})
    else
      var before := Emitted(scopes[..|scopes| - 1]);
      var s := scopes[|scopes| - 1];
      var opening := Opening(s.path, Depth(s), before.open);
      Emission(before.lines + opening.lines + [Closing(s)], opening.open)
  }

  /** The lines appended to the ignore file for declarations below a prefix. */
  function Appended(prefix: Path, scopes: seq<Scope>): seq<Rule> {
    Emitted(AllRooted(prefix, scopes)).lines + CACHE_RULES
  }

  method AllowCandidatePaths(prefix: Path, scopes: seq<Scope>) returns (lines: seq<Rule>)
    ensures lines == Appended(prefix, scopes)
  {
    ghost var rooted := AllRooted(prefix, scopes);
    lines := [];
    var directories: set<Path> := {};
    var n := 0;
    while n < |scopes|
      invariant 0 <= n <= |scopes|
      invariant Emitted(rooted[..n]) == Emission(lines, directories)
    {
      var path := prefix + scopes[n].path;
      var tree := scopes[n].kind == Tree;
      assert rooted[..n + 1][..n] == rooted[..n];
      var count := if tree || path == [] then |path| else |path| - 1;
      lines, directories := OpenAncestors(path, count, lines, directories);
      lines := lines + [Rule(true, if tree then Inside(path) else Exact(path))];
      n := n + 1;
    }
    assert rooted[..n] == rooted;
    lines := lines + CACHE_RULES;
  }

  /** The inner loop: every ancestor that is not open yet is opened, and its other children stay hidden. */
  method OpenAncestors(path: Path, count: nat, before: seq<Rule>, open: set<Path>)
    returns (lines: seq<Rule>, directories: set<Path>)
    requires count <= |path|
    ensures lines == before + Opening(path, count, open).lines && directories == Opening(path, count, open).open
  {
    lines, directories := before, open;
    var k := 1;
    while k <= count
      invariant 1 <= k <= count + 1
      invariant lines == before + Opening(path, k - 1, open).lines
      invariant directories == Opening(path, k - 1, open).open
    {
      var parent := path[..k];
      if parent !in directories {
        directories := directories + {parent};
        lines := lines + [Rule(true, Directory(parent)), Rule(false, Children(parent))];
      }
      k := k + 1;
    }
  }

  // ---- What the emitted rules mean ----

  lemma {:induction false} OpeningMeans(rules: seq<Rule>, path: Path, count: nat, open: set<Path>, scopes: seq<Scope>)
    requires LiteralPath(path) && count <= |path|
    requires Means(rules, open, scopes) && Closed(open, scopes)
    requires forall s :: s in scopes && s.kind == Tree ==> !(s.path <= path)
    ensures var e := Opening(path, count, open);
            && Means(rules + e.lines, e.open, scopes) && Closed(e.open, scopes)
            && AncestorsAdded(open, e.open, path, count)
  {
    hide Means, Closed, AncestorsAdded;
    if count == 0 {
      assert rules + [] == rules;
      NoAncestors(open, path);
    } else {
      OpeningMeans(rules, path, count - 1, open, scopes);
      var before := Opening(path, count - 1, open);
      var d := path[..count];
      AncestorStep(open, before.open, path, count);
      if d !in before.open {
        assert forall s :: s in scopes && s.path <= d ==> s.path <= path;
        OpenDirectory(rules + before.lines, before.open, scopes, d);
        assert rules + before.lines + [Rule(true, Directory(d)), Rule(false, Children(d))]
               == rules + (before.lines + [Rule(true, Directory(d)), Rule(false, Children(d))]);
      }
    }
  }

  lemma NoAncestors(open: set<Path>, path: Path)
    ensures AncestorsAdded(open, open, path, 0)
  {
  }

  lemma AncestorStep(open: set<Path>, before: set<Path>, path: Path, count: nat)
    requires 0 < count <= |path| && AncestorsAdded(open, before, path, count - 1)
    ensures count > 1 ==> Parent(path[..count]) in before
    ensures path[..count] in before ==> AncestorsAdded(open, before, path, count)
    ensures AncestorsAdded(open, before + {path[..count]}, path, count)
  {
    assert forall x :: x == path[..count] <==> |x| == count && x <= path;
    assert count > 1 ==> Parent(path[..count]) == path[..count - 1] <= path;
  }

  lemma NothingYet()
    ensures Means([], {}, []) && Closed({}, []) && OpensExactly({}, [])
  {
  }

  lemma NowOpened(before: set<Path>, after: set<Path>, scopes: seq<Scope>, s: Scope)
    requires OpensExactly(before, scopes) && Closed(after, scopes) && s.path != []
    requires AncestorsAdded(before, after, s.path, Depth(s))
    ensures OpensExactly(after, scopes + [s]) && Closed(after, scopes + [s])
  {
  }

  lemma {:induction false} EmittedMeans(scopes: seq<Scope>)
    requires Disjoint(scopes) && forall s :: s in scopes ==> PlainScope(s)
    ensures var e := Emitted(scopes);
            Means(e.lines, e.open, scopes) && Closed(e.open, scopes) && OpensExactly(e.open, scopes)
  {
    hide Means, Closed, OpensExactly, AncestorsAdded, Opening;
    if scopes == [] {
      NothingYet();
    } else {
      var n := |scopes| - 1;
      var init, s := scopes[..n], scopes[n];
      assert scopes == init + [s] && s in scopes;
      EmittedMeans(init);
      NoTreeAbove(scopes, n, s.path);
      var before := Emitted(init);
      OpeningMeans(before.lines, s.path, Depth(s), before.open, init);
      var opening := Opening(s.path, Depth(s), before.open);
      CloseScope(before.lines + opening.lines, opening.open, init, s);
      NowOpened(before.open, opening.open, init, s);
    }
  }

  lemma WithCaches(rules: seq<Rule>, open: set<Path>, scopes: seq<Scope>)
    requires Means(rules, open, scopes) && OpensExactly(open, scopes)
    ensures forall q: Path, isDir: bool :: q != [] ==>
              Verdict(rules + CACHE_RULES, q, isDir) == Intended(scopes, q, isDir)
  {
    forall q: Path, isDir: bool | q != []
      ensures Verdict(rules + CACHE_RULES, q, isDir) == Intended(scopes, q, isDir)
    {
      CachesLast(rules, q, isDir);
    }
  }

  ghost predicate Follows(rules: seq<Rule>, scopes: seq<Scope>) {
    forall q: Path, isDir: bool :: q != [] ==> Verdict(rules, q, isDir) == Intended(scopes, q, isDir)
  }

  /** Every entry is decided by the declarations alone, or left to the existing rules. */
  lemma RulesMeanTheDeclarations(prefix: Path, scopes: seq<Scope>)
    requires Disjoint(AllRooted(prefix, scopes))
    requires forall s :: s in AllRooted(prefix, scopes) ==> PlainScope(s)
    ensures Follows(Appended(prefix, scopes), AllRooted(prefix, scopes))
  {
    hide Means, OpensExactly, Emitted;
    var rooted := AllRooted(prefix, scopes);
    EmittedMeans(rooted);
    WithCaches(Emitted(rooted).lines, Emitted(rooted).open, rooted);
  }

  // ---- What Git sees ----

  /** A declared file, or any file in a declared tree, is seen exactly when it is not a cache. */
  lemma DeclaredIsVisible(existing: Existing, rules: seq<Rule>, scopes: seq<Scope>, p: Path)
    requires Follows(rules, scopes)
    requires DeclaredFile(scopes, p) || InsideTree(scopes, p)
    ensures Visible(existing, rules, p) <==> !Cached(p)
  {
  }

  /** The number of leading parts of p that form the deepest opened directory above it. */
  ghost function OpenDepth(scopes: seq<Scope>, p: Path, n: nat): (k: nat)
    requires n <= |p|
    ensures k <= n && (k > 0 ==> Opened(scopes, p[..k]))
    ensures forall j :: k < j <= n ==> !Opened(scopes, p[..j])
  {
    if n == 0 || Opened(scopes, p[..n]) then n else OpenDepth(scopes, p, n - 1)
  }

  /** Whether an undeclared file is seen, in every case. Below an opened directory it is hidden, except where a
      declared file is used as a directory; everywhere else the existing rules decide as before. */
  lemma UndeclaredVisibility(existing: Existing, rules: seq<Rule>, scopes: seq<Scope>, p: Path)
    requires Follows(rules, scopes) && p != []
    requires !DeclaredFile(scopes, p) && !InsideTree(scopes, p)
    ensures var k := OpenDepth(scopes, p, |p| - 1);
            Visible(existing, rules, p) <==>
              && !Cached(p)
              && (k == 0 || DeclaredFile(scopes, p[..k + 1]))
              && (forall j :: k < j <= |p| && !DeclaredFile(scopes, p[..j]) ==>
                    existing(p[..j], j < |p|) != Hidden)
  {
    hide Verdict, OpenDepth;
    var k := OpenDepth(scopes, p, |p| - 1);
    assert p[..|p|] == p;
    forall j: nat | 0 < j <= |p|
      ensures Decide(existing, rules, p[..j], j < |p|) ==
        if Cache(p[..j], j < |p|) then Hidden
        else if j <= k || DeclaredFile(scopes, p[..j]) then Shown
        else if j == k + 1 && k > 0 then Hidden
        else existing(p[..j], j < |p|)
    {
      UndeclaredEntry(scopes, p, j);
    }
  }

  /** The appended rules' decision for one entry on the way to an undeclared file. */
  lemma UndeclaredEntry(scopes: seq<Scope>, p: Path, j: nat)
    requires 0 < j <= |p| && !DeclaredFile(scopes, p) && !InsideTree(scopes, p)
    ensures var k := OpenDepth(scopes, p, |p| - 1);
            Intended(scopes, p[..j], j < |p|) ==
              if Cache(p[..j], j < |p|) then Hidden
              else if j <= k || DeclaredFile(scopes, p[..j]) then Shown
              else if j == k + 1 && k > 0 then Hidden
              else Silent
  {
    hide OpenDepth;
    var q := p[..j];
    assert Parent(q) == p[..j - 1];
    assert !InsideTree(scopes, q) by {
      assert forall s :: s in scopes && s.path < q ==> s.path < p;
    }
    var k := OpenDepth(scopes, p, |p| - 1);
    if 0 < j <= k {
      AncestorsAreOpened(scopes, p[..k], j);
      assert p[..k][..j] == q;
    }
  }

  lemma AncestorsAreOpened(scopes: seq<Scope>, d: Path, j: nat)
    requires Opened(scopes, d) && 0 < j <= |d|
    ensures Opened(scopes, d[..j])
  {
  }

  /** The exception is real: with the file d/x declared and d/x a directory, the undeclared d/x/y is seen. */
  lemma DeclaredFileUsedAsDirectory()
    ensures var scopes := [Scope(["d", "x"], File)];
            Visible((q, isDir) => Silent, Appended([], scopes), ["d", "x", "y"])
  {
    var scopes := [Scope(["d", "x"], File)];
    var p := ["d", "x", "y"];
    RootedAtTop(scopes[0]);
    RulesMeanTheDeclarations([], scopes);
    assert p[..1] == ["d"] && p[..2] == ["d", "x"] && p[..3] == p;
    assert scopes[0] in scopes;
    forall k: nat | 0 < k <= 3
      ensures Decide((q, isDir) => Silent, Appended([], scopes), p[..k], k < 3) != Hidden
    {
    }
  }

  lemma RootedAtTop(s: Scope)
    ensures AllRooted([], [s]) == [s]
  {
    assert [] + s.path == s.path;
  }

  // ---- Declarations below a prefix ----

  lemma RootedContains(prefix: Path, s: Scope, p: Path)
    ensures Rooted(prefix, s).Contains(prefix + p) <==> s.Contains(p)
    ensures Rooted(prefix, s).path == prefix + p <==> s.path == p
    ensures Rooted(prefix, s).kind == s.kind
    ensures Rooted(prefix, s).path < prefix + p <==> s.path < p
  {
    assert forall q: Path :: prefix + q == prefix + p <==> q == p by {
      forall q: Path | prefix + q == prefix + p ensures q == p {
        assert q == (prefix + q)[|prefix|..] && p == (prefix + p)[|prefix|..];
      }
    }
    if s.path < p {
      assert prefix + p == prefix + s.path + p[|s.path|..];
    }
    if prefix + s.path < prefix + p {
      assert s.path == (prefix + s.path)[|prefix|..] && p == (prefix + p)[|prefix|..];
      assert (prefix + p)[..|prefix| + |s.path|] == prefix + s.path;
      assert p[..|s.path|] == s.path;
    }
  }

  lemma RootedIs(prefix: Path, scopes: seq<Scope>)
    ensures forall r :: r in AllRooted(prefix, scopes) <==> exists s :: s in scopes && r == Rooted(prefix, s)
  {
    var rooted := AllRooted(prefix, scopes);
    forall s | s in scopes ensures Rooted(prefix, s) in rooted {
      var k :| 0 <= k < |scopes| && scopes[k] == s;
      assert rooted[k] == Rooted(prefix, s);
    }
  }

  /** Declarations that do not overlap do not overlap below a prefix. */
  lemma RootedDisjoint(prefix: Path, scopes: seq<Scope>)
    requires Disjoint(scopes)
    ensures Disjoint(AllRooted(prefix, scopes))
  {
    hide Rooted;
    var rooted := AllRooted(prefix, scopes);
    forall i, j | 0 <= i < j < |rooted| ensures !Overlap(rooted[i], rooted[j]) {
      RootedContains(prefix, scopes[i], scopes[j].path);
      RootedContains(prefix, scopes[j], scopes[i].path);
      RootedPath(prefix, scopes[i]);
      RootedPath(prefix, scopes[j]);
      assert !Overlap(scopes[i], scopes[j]);
    }
  }

  lemma RootedPath(prefix: Path, s: Scope)
    ensures Rooted(prefix, s).path == prefix + s.path
  {
  }

  /** No directory on the way is a cache, and no name on it, the file's included, ends in .pyc. */
  predicate FreeOfCaches(p: Path) {
    && (forall k :: 0 <= k < |p| ==> !EndsWith(p[k], ".pyc"))
    && forall k :: 0 <= k < |p| - 1 ==> p[k] != "__pycache__" && p[k] != ".pytest_cache"
  }

  lemma CachedMeans(p: Path)
    ensures Cached(p) <==> !FreeOfCaches(p)
  {
    assert forall k :: 0 < k <= |p| ==> p[..k][|p[..k]| - 1] == p[k - 1];
    if !FreeOfCaches(p) {
      if k :| 0 <= k < |p| && EndsWith(p[k], ".pyc") {
        assert Cache(p[..k + 1], k + 1 < |p|);
      } else {
        var k :| 0 <= k < |p| - 1 && !(p[k] != "__pycache__" && p[k] != ".pytest_cache");
        assert Cache(p[..k + 1], k + 1 < |p|);
      }
    }
  }

  /** A file that a declaration names or that lies in a declared tree: with plain paths, whatever rules are already
      there, Git sees it below the prefix exactly when no cache is on the way. */
  lemma CandidateIsSeen(existing: Existing, prefix: Path, scopes: seq<Scope>, s: Scope, p: Path)
    requires Disjoint(scopes) && forall r :: r in scopes ==> PlainScope(Rooted(prefix, r))
    requires s in scopes && (if s.kind == Tree then s.path < p else s.path == p)
    ensures Visible(existing, Appended(prefix, scopes), prefix + p) <==> FreeOfCaches(prefix + p)
  {
    hide Visible, Cached, FreeOfCaches, Follows, Appended, Rooted, PlainScope;
    var rooted := AllRooted(prefix, scopes);
    RootedDisjoint(prefix, scopes);
    RootedIs(prefix, scopes);
    RulesMeanTheDeclarations(prefix, scopes);
    RootedContains(prefix, s, p);
    assert Rooted(prefix, s) in rooted;
    DeclaredIsVisible(existing, Appended(prefix, scopes), rooted, prefix + p);
    CachedMeans(prefix + p);
  }

  /** A file beside a declared one, or beside a directory on the way to it, that no declaration contains, is hidden
      below the prefix, whatever rules are already there. */
  lemma NeighbourIsHidden(existing: Existing, prefix: Path, scopes: seq<Scope>, s: Scope, k: nat, name: string)
    requires Disjoint(scopes) && forall r :: r in scopes ==> PlainScope(Rooted(prefix, r))
    requires s in scopes && k < |s.path| && prefix + s.path[..k] != []
    requires forall r :: r in scopes ==> !r.Contains(s.path[..k] + [name])
    ensures !Visible(existing, Appended(prefix, scopes), prefix + (s.path[..k] + [name]))
  {
    hide Follows, Appended, Rooted, PlainScope, Cache, Verdict;
    var rooted := AllRooted(prefix, scopes);
    RootedDisjoint(prefix, scopes);
    RootedIs(prefix, scopes);
    RulesMeanTheDeclarations(prefix, scopes);
    var p := s.path[..k] + [name];
    var q := prefix + p;
    forall r | r in rooted ensures !r.Contains(q) {
      var t :| t in scopes && r == Rooted(prefix, t);
      RootedContains(prefix, t, p);
    }
    NeighbourIntended(rooted, Rooted(prefix, s), q) by {
      assert Parent(q) == prefix + s.path[..k];
      RootedPath(prefix, s);
      assert prefix + s.path == prefix + s.path[..k] + s.path[k..];
    }
    FollowsAt(Appended(prefix, scopes), rooted, q);
    assert q[..|q|] == q;
    assert Decide(existing, Appended(prefix, scopes), q[..|q|], |q| < |q|) == Hidden;
  }

  lemma NeighbourIntended(scopes: seq<Scope>, s: Scope, q: Path)
    requires s in scopes && q != [] && Parent(q) != [] && Parent(q) < s.path
    requires forall r :: r in scopes ==> !r.Contains(q)
    ensures Intended(scopes, q, false) == Hidden
  {
    assert Opened(scopes, Parent(q));
    assert !DeclaredFile(scopes, q) && !InsideTree(scopes, q) by {
      assert forall r :: r in scopes ==> !r.Contains(q);
    }
  }

  lemma FollowsAt(rules: seq<Rule>, scopes: seq<Scope>, q: Path)
    requires Follows(rules, scopes) && q != []
    ensures Verdict(rules, q, false) == Intended(scopes, q, false)
  {
  }
}
