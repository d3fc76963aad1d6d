/** Which declared names mean themselves in an ignore file: the exact condition on the path of a declaration for
    the rules of agents/forge/bundles.py to mean it. */
module IgnoreNames {
  import opened EditScopes
  import opened IgnoreRules

  // ---- A pattern that is no literal never matches its own text alone ----

  /** other is n with one of its characters replaced, or with one more; the new character is an x or a z. */
  ghost predicate Differs(n: string, other: string, at: nat) {
    && at < |other| && other[at] in {'x', 'z'} && other != n
    && ((at <= |n| && other == n[..at] + [other[at]] + n[at..])
        || (at < |n| && other == n[..at] + [other[at]] + n[at + 1..]))
  }

  lemma DiffersAfter(c: char, n: string, other: string, at: nat)
    requires Differs(n, other, at)
    ensures Differs([c] + n, [c] + other, at + 1)
  {
    assert ([c] + n)[..at + 1] == [c] + n[..at];
    assert at <= |n| ==> ([c] + n)[at + 1..] == n[at..];
    assert at < |n| ==> ([c] + n)[at + 2..] == n[at + 1..];
  }

  function NewChar(c: char): (d: char)
    ensures d in {'x', 'z'} && d != c
  {
    if c == 'x' then 'z' else 'x'
  }

  /** The pattern after the part that matches one character. */
  function After(p: string): string
    requires p != ""
  {
    if p[0] == '[' then
      var first := if |p| > 1 && (p[1] == '!' || p[1] == '^') then 2 else 1;
      var close := CloseAt(p, first + 1);
      if close < |p| then p[close + 1..] else ""
    else p[1..]
  }

  lemma AfterOne(p: string, n: string, m: string)
    requires p != "" && p[0] != '*' && Glob(p, n)
    ensures n != "" && Glob(After(p), n[1..])
    ensures Glob(After(p), m) ==> Glob(p, [n[0]] + m) && (p[0] == '?' ==> Glob(p, [NewChar(n[0])] + m))
  {
    assert ([n[0]] + m)[1..] == m && ([NewChar(n[0])] + m)[1..] == m;
  }

  lemma AfterIsShorter(p: string, n: string)
    requires p != "" && p[0] != '*' && Glob(p, n) && LINE_BREAK !in p
    ensures |After(p)| < |p| && (p[0] == '[' ==> |After(p)| + 3 <= |p|)
    ensures LINE_BREAK !in After(p)
  {
  }

  /** Whatever such a pattern matches, it matches something else too, or it is longer than what it matches. */
  lemma {:induction false} NeverAlone(p: string, n: string) returns (other: string, at: nat)
    requires Glob(p, n) && !Literal(p) && LINE_BREAK !in p
    ensures |n| < |p| || (Glob(p, other) && Differs(n, other, at))
    decreases |p|
  {
    hide After, Differs;
    other, at := "", 0;
    if p[0] == '*' {
      other := ['x'] + n;
      StarTakesMore(p, n);
    } else {
      hide Glob;
      var rest := After(p);
      AfterIsShorter(p, n);
      AfterOne(p, n, n[1..]);
      if p[0] == '?' {
        other := [NewChar(n[0])] + n[1..];
        Replaced(n);
      } else if Literal(rest) {
        LiteralIsExact(rest, n[1..]);
        LiteralHead(p);
      } else {
        var more, k := NeverAlone(rest, n[1..]);
        AfterOne(p, n, more);
        if |n[1..]| >= |rest| {
          other, at := [n[0]] + more, k + 1;
          DiffersAfter(n[0], n[1..], more, k);
          assert n == [n[0]] + n[1..];
        }
      }
    }
  }

  lemma StarTakesMore(p: string, n: string)
    requires p != "" && p[0] == '*' && Glob(p, n)
    ensures Glob(p, ['x'] + n) && Differs(n, ['x'] + n, 0)
  {
    var other := ['x'] + n;
    assert other[1..] == n && n[..0] + ['x'] + n[0..] == other;
  }

  lemma Replaced(n: string)
    requires n != ""
    ensures Differs(n, [NewChar(n[0])] + n[1..], 0)
  {
  }

  /** A pattern whose rest is literal but that is none itself begins with a mark. */
  lemma LiteralHead(p: string)
    requires p != "" && !Literal(p) && Literal(After(p)) && LINE_BREAK !in p
    ensures p[0] in {'*', '?', '['}
  {
    assert p[0] != '[' ==> forall k :: 0 < k < |p| ==> p[k] == p[1..][k - 1];
    assert p[0] in p;
  }

  /** The names that the closing rules hide. */
  predicate CacheName(n: string) {
    n == "__pycache__" || n == ".pytest_cache" || EndsWith(n, ".pyc")
  }

  predicate IsNew(c: char) {
    c == 'x' || c == 'z'
  }

  /** The new character occurs in none of the names that are hidden. */
  lemma NewIsNowhere()
    ensures forall k :: 0 <= k < |"__pycache__"| ==> !IsNew("__pycache__"[k])
    ensures forall k :: 0 <= k < |".pytest_cache"| ==> !IsNew(".pytest_cache"[k])
    ensures forall k :: 0 <= k < 4 ==> !IsNew(".pyc"[k])
  {
  }

  lemma SameEnding(n: string, other: string, at: nat)
    requires Differs(n, other, at) && EndsWith(other, ".pyc")
    ensures EndsWith(n, ".pyc")
  {
    NewIsNowhere();
    var m := |other|;
    var end := other[m - 4..];
    assert end == ".pyc";
    assert m - 4 <= at ==> IsNew(end[at - (m - 4)]);
    assert other[m - 4..] == n[|n| - 4..];
  }

  lemma DiffersIsNoCache(n: string, other: string, at: nat)
    requires Differs(n, other, at) && !CacheName(n)
    ensures !CacheName(other)
  {
    hide EndsWith;
    NewIsNowhere();
    assert IsNew(other[at]);
    if EndsWith(other, ".pyc") {
      SameEnding(n, other, at);
    }
  }

  /** A pattern that matches its own name, or a longer one, and no other name than that is a literal. */
  lemma NothingElse(pattern: string, name: string) returns (other: string)
    requires |pattern| <= |name| && LINE_BREAK !in pattern && !CacheName(name)
    requires !Literal(pattern) && Glob(pattern, name)
    ensures other != name && Glob(pattern, other) && !CacheName(other)
  {
    var at;
    other, at := NeverAlone(pattern, name);
    DiffersIsNoCache(name, other, at);
  }

  lemma {:induction false} TrimmedIsShorter(name: string)
    ensures |Trimmed(name)| <= |name| && (forall c :: c in Trimmed(name) ==> c in name)
    ensures Trimmed(name) == name <==> (name != "" ==> name[|name| - 1] != ' ')
    ensures Literal(name) ==> Literal(Trimmed(name))
  {
    if name != "" && name[|name| - 1] == ' ' {
      TrimmedIsShorter(name[..|name| - 1]);
    }
  }

  ghost predicate MatchesOnly(pattern: string, name: string) {
    forall n: string :: Glob(pattern, n) <==> n == name
  }

  /** At the end of a line, a name without a line break means itself exactly when it is plain. */
  lemma NameMeansItself(name: string)
    requires LINE_BREAK !in name
    ensures MatchesOnly(Trimmed(name), name) <==> Plain(name)
  {
    hide Glob, Trimmed;
    TrimmedIsShorter(name);
    if Plain(name) {
      forall n: string ensures Glob(Trimmed(name), n) <==> n == name {
        LiteralIsExact(name, n);
      }
    } else if Literal(Trimmed(name)) {
      LiteralIsExact(Trimmed(name), name);
    } else if Glob(Trimmed(name), name) {
      var other, at := NeverAlone(Trimmed(name), name);
    }
  }

  // ---- One declaration ----

  /** Opening one more directory decides about it and about its children. */
  lemma OpeningStep(p: Path, count: nat, q: Path, isDir: bool)
    requires 0 < count <= |p| && q != []
    ensures Verdict(Opening(p, count, {}).lines, q, isDir)
            == if |q| == count + 1 && GlobPath(p[..count], Parent(q)) then Hidden
               else if isDir && |q| == count && GlobPath(p[..count], q) then Shown
               else Verdict(Opening(p, count - 1, {}).lines, q, isDir)
  {
    hide GlobPath, Verdict;
    OpenedSoFar(p, count - 1);
    var before, d := Opening(p, count - 1, {}), p[..count];
    var shown := before.lines + [Rule(true, Directory(d))];
    assert d !in before.open;
    assert Opening(p, count, {}).lines == shown + [Rule(false, Children(d))];
    VerdictSnoc(shown, Rule(false, Children(d)), q, isDir);
    VerdictSnoc(before.lines, Rule(true, Directory(d)), q, isDir);
    GlobLength(d, q);
    GlobLength(d, Parent(q));
  }

  /** What the rules that open the ancestors of one path decide. */
  lemma {:induction false} OpeningVerdict(p: Path, count: nat, q: Path, isDir: bool)
    requires count <= |p| && q != []
    ensures Verdict(Opening(p, count, {}).lines, q, isDir)
            == if isDir && |q| <= count && GlobPath(p[..|q|], q) then Shown
               else if 1 < |q| <= count + 1 && GlobPath(p[..|q| - 1], Parent(q)) then Hidden else Silent
  {
    if count == 0 {
      assert Opening(p, 0, {}).lines == [];
    } else {
      hide GlobPath, Verdict, Opening;
      OpeningVerdict(p, count - 1, q, isDir);
      OpeningStep(p, count, q, isDir);
    }
  }

  lemma GlobLength(p: Path, q: Path)
    ensures GlobPath(p, q) ==> |p| == |q|
  {
  }

  lemma {:induction false} OpenedSoFar(p: Path, count: nat)
    requires count <= |p|
    ensures forall d :: d in Opening(p, count, {}).open ==> 0 < |d| <= count
  {
    if count > 0 {
      OpenedSoFar(p, count - 1);
    }
  }

  function RulesOf(s: Scope): seq<Rule> {
    Appended([], [s])
  }

  /** The rules of one declaration, for an entry that is no cache. */
  lemma RulesOfOne(s: Scope, q: Path, isDir: bool)
    requires s.path != [] && q != [] && !Cache(q, isDir)
    ensures Verdict(RulesOf(s), q, isDir)
            == if Matches(Closing(s).pattern, q, isDir) then Shown
               else Verdict(Opening(s.path, Depth(s), {}).lines, q, isDir)
  {
    hide Matches, Verdict, Opening;
    RootedAtTop(s);
    assert [s][..0] == [] && Emitted([]) == Emission([], {});
    var lines := Opening(s.path, Depth(s), {}).lines;
    assert Emitted([s]).lines == [] + lines + [Closing(s)] == lines + [Closing(s)];
    CachesLast(lines + [Closing(s)], q, isDir);
    VerdictSnoc(lines, Closing(s), q, isDir);
  }

  predicate Ordinary(name: string) {
    name != "" && LINE_BREAK !in name && !CacheName(name)
  }

  lemma OrdinaryIsNoCache(q: Path, isDir: bool)
    requires q != [] && !CacheName(q[|q| - 1])
    ensures !Cache(q, isDir)
  {
  }

  /** With a pattern among the directories of a declaration, some directory is decided against it. */
  lemma DirectoryMisread(s: Scope, j: nat) returns (q: Path)
    requires j < Depth(s) && s.path != [] && !Literal(s.path[j])
    requires forall k :: 0 <= k < |s.path| ==> Ordinary(s.path[k])
    requires forall k :: 0 <= k < j ==> Literal(s.path[k])
    ensures q != [] && Verdict(RulesOf(s), q, true) != Intended([s], q, true)
  {
    hide Verdict, Appended, Opening, Glob, CacheName;
    var p, name := s.path, s.path[j];
    q := p[..j + 1];
    if Glob(name, name) {
      var other := NothingElse(name, name);
      q := p[..j] + [other];
      MatchesAt(p, j, other);
      assert q[j] != p[j];
    } else {
      MatchesAt(p, j, name);
      assert q == p[..j] + [name];
    }
    OrdinaryIsNoCache(q, true);
    RulesOfOne(s, q, true);
    OpeningVerdict(p, Depth(s), q, true);
    NotClosing(s, q);
  }

  /** The first j components match themselves, so the last one decides. */
  lemma MatchesAt(p: Path, j: nat, name: string)
    requires j < |p| && forall k :: 0 <= k < j ==> Literal(p[k])
    ensures GlobPath(p[..j + 1], p[..j] + [name]) <==> Glob(p[j], name)
  {
    forall k | 0 <= k < j ensures Glob(p[k], p[k]) {
      LiteralIsExact(p[k], p[k]);
    }
  }

  lemma NotClosing(s: Scope, q: Path)
    requires 0 < |q| <= Depth(s)
    ensures !Matches(Closing(s).pattern, q, true)
  {
  }

  /** With a name that is not plain at the end, some file is decided against the declaration. */
  lemma FileMisread(s: Scope) returns (q: Path)
    requires s.kind != Tree && s.path != [] && !Plain(s.path[|s.path| - 1])
    requires forall k :: 0 <= k < |s.path| ==> Ordinary(s.path[k])
    requires forall k :: 0 <= k < |s.path| - 1 ==> Literal(s.path[k])
    ensures q != [] && Verdict(RulesOf(s), q, false) != Intended([s], q, false)
  {
    hide Verdict, Appended, Opening, Glob, Trimmed, CacheName;
    var n := |s.path| - 1;
    var name := s.path[n];
    TrimmedIsShorter(name);
    q := s.path;
    assert s.path == s.path[..n] + [name] && s in [s];
    if Glob(Trimmed(name), name) {
      if Literal(Trimmed(name)) {
        LiteralIsExact(Trimmed(name), name);
      }
      var other := NothingElse(Trimmed(name), name);
      q := s.path[..n] + [other];
      assert q[n] != s.path[n];
      ExactAt(s, other);
    } else {
      ExactAt(s, name);
    }
    OrdinaryIsNoCache(q, false);
    RulesOfOne(s, q, false);
    OpeningVerdict(s.path, Depth(s), q, false);
  }

  lemma ExactAt(s: Scope, name: string)
    requires s.kind != Tree && s.path != [] && forall k :: 0 <= k < |s.path| - 1 ==> Literal(s.path[k])
    ensures var n := |s.path| - 1;
            Matches(Closing(s).pattern, s.path[..n] + [name], false) <==> Glob(Trimmed(s.path[n]), name)
  {
    hide Glob, Trimmed;
    var n := |s.path| - 1;
    var trimmed := TrimmedPath(s.path);
    assert |trimmed| == n + 1 && trimmed[n] == Trimmed(s.path[n]);
    forall k | 0 <= k < n ensures trimmed[k] == s.path[k] && Literal(trimmed[k]) {
    }
    MatchesAt(trimmed, n, name);
    assert trimmed[..n + 1] == trimmed && trimmed[..n] == s.path[..n];
  }

  lemma {:induction false} FirstPattern(p: Path, j: nat) returns (first: nat)
    requires j < |p| && !Literal(p[j])
    ensures first <= j && !Literal(p[first]) && forall k :: 0 <= k < first ==> Literal(p[k])
  {
    hide Literal;
    first := j;
    if k: nat :| k < j && !Literal(p[k]) {
      first := FirstPattern(p, k);
    }
  }

  /** With plain directories, only the end of a single file's path can be at fault. */
  lemma FaultAtEnd(s: Scope)
    requires s.path != [] && !PlainScope(s) && forall k :: 0 <= k < Depth(s) ==> Literal(s.path[k])
    ensures s.kind != Tree && !Plain(s.path[|s.path| - 1])
  {
  }

  /** The rules of one declaration mean it exactly when its path is plain, for all ordinary names. */
  lemma OneDeclarationIsMeant(s: Scope)
    requires s.path != [] && forall k :: 0 <= k < |s.path| ==> Ordinary(s.path[k])
    ensures Follows(RulesOf(s), [s]) <==> PlainScope(s)
  {
    hide Verdict, Intended, Appended, Literal, Ordinary;
    var p := s.path;
    RootedAtTop(s);
    if PlainScope(s) {
      RulesMeanTheDeclarations([], [s]);
    } else if j: nat :| j < Depth(s) && !Literal(p[j]) {
      var first := FirstPattern(p, j);
      var q := DirectoryMisread(s, first);
    } else {
      FaultAtEnd(s);
      var q := FileMisread(s);
    }
  }

  // ---- Two names that do not mean themselves ----

  /** What the rules of a single declared file decide about a name beside it. */
  lemma BesideOneFile(name: string, other: string)
    requires !Cache(["d", other], false)
    ensures Verdict(RulesOf(Scope(["d", name], File)), ["d", other], false)
            == if Glob(Trimmed(name), other) then Shown else Hidden
  {
    hide Verdict, Appended, Opening, Glob, Trimmed;
    var s, q := Scope(["d", name], File), ["d", other];
    assert s.path[..1] + [other] == q && Literal(s.path[0]);
    ExactAt(s, other);
    RulesOfOne(s, q, false);
    OpeningVerdict(s.path, 1, q, false);
    assert s.path[..1] == ["d"] == Parent(q);
    LiteralIsExact("d", "d");
  }

  /** Names that are patterns are outside the promise: a declared a?c also shows the undeclared abc, and a
      declared [x] is itself hidden. */
  lemma NamesReadAsPatterns()
    ensures Verdict(RulesOf(Scope(["d", "a?c"], File)), ["d", "abc"], false) == Shown
    ensures Verdict(RulesOf(Scope(["d", "[x]"], File)), ["d", "[x]"], false) == Hidden
  {
    BesideOneFile("a?c", "abc");
    BesideOneFile("[x]", "[x]");
    assert Glob("", "") && "?c"[1..] == "c" && "a?c"[1..] == "?c" && "abc"[1..] == "bc" && "bc"[1..] == "c";
    assert Glob("c", "c") && Glob("?c", "bc") && Glob("a?c", "abc");
    assert CloseAt("[x]", 2) == 2 && "[x]"[1..2] == "x";
    assert !InClass("x", '[') by { assert "x"[1..] == ""; }
    assert !Glob("[x]", "[x]");
  }
}
