/** Collecting and installing candidate bundles: candidate_files and install_candidate of agents/forge/bundles.py.
    A directory tree holds regular files and directories; symbolic links are left out. */
module BundleInstall {
  import opened Wrappers
  import opened EditScopes
  import opened BundleSymbols

  /** What a directory tree holds; the root is the empty path. */
  datatype Disk = Disk(files: map<Path, string>, dirs: set<Path>)

  function Parent(p: Path): Path
    requires p != []
  {
    p[..|p| - 1]
  }

  ghost predicate WellFormed(d: Disk) {
    && [] in d.dirs && d.files.Keys !! d.dirs
    && (forall p :: p in d.files ==> p != [] && Parent(p) in d.dirs)
    && (forall p :: p in d.dirs && p != [] ==> Parent(p) in d.dirs)
  }

  const TRANSIENT: set<string> := {".git", "__pycache__", ".pytest_cache", "forge_experiments", ".forge_rewrite"}

  predicate IsTransient(p: Path) {
    exists k :: 0 <= k < |p| && p[k] in TRANSIENT
  }

  /** The declarations, what each of them with symbols lets differ, the protected paths, and Python's parser. */
  datatype Bundle = Bundle(scopes: seq<Scope>, edits: map<Path, SymbolEdit>, protected: set<Path>, parse: Parser)

  /** The paths that one declaration leads to. */
  predicate Reaches(s: Scope, p: Path) {
    if s.kind == Tree then s.path < p else p == s.path
  }

  predicate ChosenBy(b: Bundle, s: Scope, p: Path) {
    Reaches(s, p) && !IsTransient(p) && (p !in b.protected || s.kind == Symbols)
  }

  /** The paths whose files belong to the bundle. */
  predicate Chosen(b: Bundle, p: Path) {
    exists k :: 0 <= k < |b.scopes| && ChosenBy(b, b.scopes[k], p)
  }

  /** Everything chosen is declared, and none of it is protected unless its own statements are. */
  lemma ChosenIsDeclared(b: Bundle, p: Path)
    requires Chosen(b, p)
    ensures Declared(b.scopes, p)
    ensures p in b.protected ==> exists s :: s in b.scopes && s.kind == Symbols && s.path == p
  {
    var k :| 0 <= k < |b.scopes| && ChosenBy(b, b.scopes[k], p);
    assert b.scopes[k] in b.scopes && b.scopes[k].Contains(p);
  }

  /** Which paths belong to the bundle: those that a declaration contains, a tree's own path left out, that lie in no
      transient directory, and that are protected at most where the declaration is about symbols. */
  lemma ChosenExactly(b: Bundle, p: Path)
    ensures Chosen(b, p) <==>
              && (forall k :: 0 <= k < |p| ==>
                    p[k] !in {".git", "__pycache__", ".pytest_cache", "forge_experiments", ".forge_rewrite"})
              && exists s :: s in b.scopes && s.Contains(p) && (s.kind == Tree ==> s.path != p)
                             && (p in b.protected ==> s.kind == Symbols)
  {
    if Chosen(b, p) {
      var k :| 0 <= k < |b.scopes| && ChosenBy(b, b.scopes[k], p);
      assert b.scopes[k] in b.scopes;
    }
    if s :| s in b.scopes && s.Contains(p) && (s.kind == Tree ==> s.path != p)
            && (p in b.protected ==> s.kind == Symbols)
    {
      var k :| 0 <= k < |b.scopes| && b.scopes[k] == s;
      assert IsTransient(p) || ChosenBy(b, b.scopes[k], p);
    }
  }

  /** What every declaration demands of a tree before its files are collected. */
  predicate ScopeFits(s: Scope, d: Disk, required: bool) {
    if s.kind == Tree then s.path !in d.files else required ==> s.path in d.files
  }

  ghost predicate Fits(b: Bundle, d: Disk, required: bool) {
    && (forall k :: 0 <= k < |b.scopes| ==> ScopeFits(b.scopes[k], d, required))
    && (required ==> exists p :: p in d.files && Chosen(b, p))
  }

  // ---- Directory trees ----

  class FileTree {
    var files: map<Path, string>
    var dirs: set<Path>

    function State(): Disk
      reads this
    {
      Disk(files, dirs)
    }

    constructor (files: map<Path, string>, dirs: set<Path>)
      ensures this.files == files && this.dirs == dirs
    {
      this.files, this.dirs := files, dirs;
    }

    /** Everything below a directory. */
    function Below(path: Path): set<Path>
      reads this
    {
      set p | p in files.Keys + dirs && path < p
    }
  }

  predicate ChosenUpTo(b: Bundle, n: nat, p: Path) {
    exists k :: 0 <= k < |b.scopes| && k < n && ChosenBy(b, b.scopes[k], p)
  }

  lemma ChosenStep(b: Bundle, n: nat, p: Path)
    requires n < |b.scopes|
    ensures ChosenUpTo(b, n + 1, p) <==> ChosenUpTo(b, n, p) || ChosenBy(b, b.scopes[n], p)
  {
  }

  lemma ChosenEnds(b: Bundle, p: Path)
    ensures !ChosenUpTo(b, 0, p)
    ensures ChosenUpTo(b, |b.scopes|, p) <==> Chosen(b, p)
  {
  }

  method CandidateFiles(b: Bundle, root: FileTree, required: bool) returns (r: Option<set<Path>>)
    ensures r.Some? <==> Fits(b, root.State(), required)
    ensures r.Some? ==> forall p :: p in r.value <==> p in root.files && Chosen(b, p)
  {
    hide ChosenBy, ChosenUpTo, Chosen, ScopeFits;
    var found: set<Path> := {};
    forall p ensures !ChosenUpTo(b, 0, p) && (ChosenUpTo(b, |b.scopes|, p) <==> Chosen(b, p)) {
      ChosenEnds(b, p);
    }
    var n := 0;
    while n < |b.scopes|
      invariant 0 <= n <= |b.scopes|
      invariant forall k :: 0 <= k < n ==> ScopeFits(b.scopes[k], root.State(), required)
      invariant forall p :: p in found <==> p in root.files && ChosenUpTo(b, n, p)
    {
      var s := b.scopes[n];
      if !ScopeFits(s, root.State(), required) {
        return None;
      }
      var more := Entries(b, s, root);
      forall p ensures ChosenUpTo(b, n + 1, p) <==> ChosenUpTo(b, n, p) || ChosenBy(b, s, p) {
        ChosenStep(b, n, p);
      }
      found := found + more;
      n := n + 1;
    }
    if required && found == {} {
      return None;
    }
    assert found != {} ==> exists p :: p in found;
    return Some(found);
  }

  /** The inner loop: the files that one declaration contributes. */
  method Entries(b: Bundle, s: Scope, root: FileTree) returns (found: set<Path>)
    ensures forall p :: p in found <==> p in root.files && ChosenBy(b, s, p)
  {
    var entries := if s.kind == Tree then root.Below(s.path) else {s.path};
    var left := entries;
    found := {};
    while left != {}
      invariant left <= entries
      invariant forall p :: p in found <==> p in root.files && ChosenBy(b, s, p) && p in entries - left
      decreases |left|
    {
      var e :| e in left;
      if !IsTransient(e) && !(e in b.protected && s.kind != Symbols) && e in root.files {
        found := found + {e};
      }
      left := left - {e};
    }
  }

  // ---- install_candidate ----

  /** The bundle's files are the source's, and every other file is what it was. */
  ghost predicate Faithful(b: Bundle, source: Disk, before: Disk, after: Disk) {
    forall p :: if Chosen(b, p) then SameFile(source, after, p) else SameFile(before, after, p)
  }

  ghost predicate SameFile(a: Disk, b: Disk, p: Path) {
    (p in a.files <==> p in b.files) && (p in a.files && p in b.files ==> a.files[p] == b.files[p])
  }

  ghost predicate Prefix(q: Path, p: Path) {
    q < p && q != []
  }

  /** Nothing in the destination stands where a file of the bundle has to go: no directory at its place, and no
      file that stays on the way to it. */
  ghost predicate Clear(b: Bundle, source: Disk, destination: Disk) {
    forall p :: p in source.files && Chosen(b, p) ==>
      p !in destination.dirs && forall q :: Prefix(q, p) && q in destination.files ==> Chosen(b, q)
  }

  datatype Failure = SourceUnfit | SymbolsChanged | DestinationUnfit | FileInTheWay | DirectoryInTheWay

  method RemoveStale(b: Bundle, destination: FileTree, stale: set<Path>, files: set<Path>)
    requires WellFormed(destination.State()) && stale <= destination.files.Keys
    modifies destination`files
    ensures WellFormed(destination.State())
    ensures destination.files == old(destination.files) - (stale - files)
  {
    var left := stale;
    while left != {}
      invariant left <= stale
      invariant WellFormed(destination.State())
      invariant destination.files == old(destination.files) - ((stale - left) - files)
      decreases |left|
    {
      var p :| p in left;
      if p !in files {
        destination.files := destination.files - {p};
      }
      left := left - {p};
    }
  }

  predicate Above(q: Path, p: Path) {
    q < p
  }

  function Ancestors(p: Path): (a: set<Path>)
    ensures forall q :: q in a <==> Above(q, p)
  {
    assert forall q :: Above(q, p) ==> q == p[..|q|];
    set k | 0 <= k < |p| :: p[..k]
  }

  lemma {:induction false} AncestorsAreDirs(d: Disk, p: Path)
    requires WellFormed(d) && (p in d.files || p in d.dirs)
    ensures Ancestors(p) <= d.dirs
  {
    if p != [] {
      AncestorsAreDirs(d, Parent(p));
      assert forall q :: Above(q, p) ==> q == Parent(p) || Above(q, Parent(p));
    }
  }

  /** mkdir with parents: it fails when a file stands on the way. */
  method MakeParents(destination: FileTree, p: Path) returns (ok: bool)
    requires WellFormed(destination.State()) && p != []
    modifies destination`dirs
    ensures ok <==> Ancestors(p) !! destination.files.Keys
    ensures destination.dirs == if ok then old(destination.dirs) + Ancestors(p) else old(destination.dirs)
    ensures WellFormed(destination.State())
  {
    ok := Ancestors(p) !! destination.files.Keys;
    if ok {
      destination.dirs := destination.dirs + Ancestors(p);
      assert forall q :: q in Ancestors(p) && q != [] ==> Above(Parent(q), p);
      assert Above(Parent(p), p);
    }
  }

  /** copy2 onto a directory copies into it. */
  method CopyOne(content: string, destination: FileTree, p: Path) returns (ok: bool)
    requires WellFormed(destination.State()) && p != [] && Parent(p) in destination.dirs
    modifies destination`files
    ensures WellFormed(destination.State())
    ensures p !in destination.dirs ==> ok && destination.files == old(destination.files)[p := content]
    ensures p in destination.dirs && ok ==> destination.files == old(destination.files)[p + [p[|p| - 1]] := content]
    ensures old(destination.files).Keys <= destination.files.Keys
  {
    var target := if p in destination.dirs then p + [p[|p| - 1]] else p;
    ok := target !in destination.dirs;
    if ok {
      assert Parent(p + [p[|p| - 1]]) == p;
      destination.files := destination.files[target := content];
    }
  }

  /** What the copying loop does to a destination in which no file of the bundle meets a directory. */
  ghost predicate Copied(source: Disk, before: Disk, now: Disk, done: set<Path>) {
    && (forall p :: p in now.files <==> p in before.files || (p in done && p in source.files))
    && (forall p :: p in now.files ==>
          now.files[p] == if p in done && p in source.files then source.files[p]
                          else if p in before.files then before.files[p] else now.files[p])
    && (forall p :: p in now.dirs ==> p in before.dirs || p in source.dirs)
  }

  /** No file of the bundle meets a directory. */
  ghost predicate NoDirectoryMet(files: set<Path>, d: Disk) {
    files !! d.dirs
  }

  /** Nothing in the destination stands on the way to a file of the bundle. */
  ghost predicate WaysOpen(files: set<Path>, d: Disk) {
    forall p :: p in files ==> Ancestors(p) !! d.files.Keys
  }

  lemma CopiedStep(source: Disk, before: Disk, now: Disk, done: set<Path>, p: Path)
    requires WellFormed(source) && Copied(source, before, now, done) && p in source.files
    ensures Copied(source, before, Disk(now.files[p := source.files[p]], now.dirs + Ancestors(p)), done + {p})
  {
    AncestorsAreDirs(source, p);
  }

  /** Copying a tree onto itself. */
  lemma CopiedOnItself(source: Disk, done: set<Path>)
    ensures Copied(source, source, source, done)
  {
  }

  lemma NothingInTheWay(source: Disk, before: Disk, now: Disk, done: set<Path>, p: Path)
    requires WellFormed(source) && Copied(source, before, now, done) && p in source.files
    ensures Ancestors(p) !! before.files.Keys ==> Ancestors(p) !! now.files.Keys
    ensures p !in before.dirs ==> p !in now.dirs
  {
    AncestorsAreDirs(source, p);
  }

  lemma WaysStep(done: set<Path>, p: Path, before: Disk, now: Disk)
    requires WaysOpen(done, before) && Ancestors(p) !! now.files.Keys && before.files.Keys <= now.files.Keys
    ensures WaysOpen(done + {p}, before)
  {
  }

  lemma SourceParents(source: Disk, p: Path)
    requires WellFormed(source) && p in source.files
    ensures p != [] && Ancestors(p) <= source.dirs && Parent(p) in Ancestors(p)
  {
    AncestorsAreDirs(source, p);
    assert Above(Parent(p), p);
  }

  /** The state after one file, whether it was copied, was already there, or could not be reached. */
  lemma CopiedNext(source: Disk, before: Disk, now: Disk, next: Disk, done: set<Path>, p: Path, same: bool, ok: bool)
    requires WellFormed(source) && Copied(source, before, now, done) && p in source.files
    requires same ==> now == source && before == source && next == source
    requires !ok ==> next == now
    requires ok && !same ==> next == Disk(now.files[p := source.files[p]], now.dirs + Ancestors(p))
    ensures Copied(source, before, next, if ok then done + {p} else done)
  {
    hide Copied;
    CopiedStep(source, before, now, done, p);
    CopiedOnItself(source, if ok then done + {p} else done);
  }

  method CopyNext(source: FileTree, destination: FileTree, p: Path) returns (r: Result<(), Failure>)
    requires WellFormed(source.State()) && WellFormed(destination.State()) && p in source.files
    modifies destination
    ensures WellFormed(destination.State()) && old(destination.dirs) <= destination.dirs
    ensures old(destination.files).Keys <= destination.files.Keys
    ensures source == destination ==> destination.State() == old(destination.State())
    ensures r.Ok? ==> Ancestors(p) !! old(destination.files).Keys
    ensures p !in old(destination.dirs) ==> (r.Ok? <==> Ancestors(p) !! old(destination.files).Keys)
    ensures p !in old(destination.dirs) && r.Err? ==> destination.State() == old(destination.State())
    ensures p !in old(destination.dirs) && r.Ok? && source != destination ==>
              destination.State() == Disk(old(destination.files)[p := source.files[p]],
                                          old(destination.dirs) + Ancestors(p))
  {
    hide WellFormed;
    SourceParents(source.State(), p);
    var made := MakeParents(destination, p);
    if !made {
      return Err(FileInTheWay);
    }
    if source != destination {
      var ok := CopyOne(source.files[p], destination, p);
      if !ok {
        return Err(DirectoryInTheWay);
      }
    }
    return Ok(());
  }

  method CopyFiles(source: FileTree, destination: FileTree, files: set<Path>) returns (r: Result<(), Failure>)
    requires WellFormed(source.State()) && WellFormed(destination.State()) && files <= source.files.Keys
    modifies destination
    ensures WellFormed(destination.State()) && old(destination.dirs) <= destination.dirs
    ensures r.Ok? ==> WaysOpen(files, old(destination.State()))
    ensures NoDirectoryMet(files, old(destination.State())) ==>
              && (r.Ok? <==> WaysOpen(files, old(destination.State())))
              && exists done: set<Path> :: done <= files && (r.Ok? ==> done == files)
                   && Copied(old(source.State()), old(destination.State()), destination.State(), done)
  {
    hide Copied, WaysOpen, WellFormed;
    ghost var s, before := source.State(), destination.State();
    NothingCopied(s, before);
    var left := files;
    assert files - left == {};
    while left != {}
      invariant left <= files
      invariant WellFormed(destination.State()) && before.dirs <= destination.dirs
      invariant before.files.Keys <= destination.files.Keys
      invariant source != destination ==> source.State() == s
      invariant source == destination ==> destination.State() == s
      invariant WaysOpen(files - left, before)
      invariant NoDirectoryMet(files, before) ==> Copied(s, before, destination.State(), files - left)
      decreases |left|
    {
      var p :| p in left;
      ghost var now := destination.State();
      r := CopyNext(source, destination, p);
      if NoDirectoryMet(files, before) {
        NothingInTheWay(s, before, now, files - left, p);
        CopiedNext(s, before, now, destination.State(), files - left, p, source == destination, r.Ok?);
      }
      WaysOfOne(files, p, before);
      if r.Err? {
        return;
      }
      WaysStep(files - left, p, before, now);
      assert files - (left - {p}) == files - left + {p};
      left := left - {p};
    }
    assert files - left == files;
    return Ok(());
  }

  lemma NothingCopied(s: Disk, before: Disk)
    ensures Copied(s, before, before, {}) && WaysOpen({}, before)
  {
  }

  lemma WaysOfOne(files: set<Path>, p: Path, d: Disk)
    requires p in files
    ensures WaysOpen(files, d) ==> Ancestors(p) !! d.files.Keys
  {
  }

  // ---- The whole installation ----

  function AfterRemoval(d: Disk, stale: set<Path>, files: set<Path>): Disk {
    Disk(d.files - (stale - files), d.dirs)
  }

  ghost predicate Collected(b: Bundle, d: Disk, files: set<Path>) {
    forall p :: p in files <==> p in d.files && Chosen(b, p)
  }

  lemma ClearMeans(b: Bundle, s: Disk, d: Disk, files: set<Path>, stale: set<Path>)
    requires WellFormed(s) && WellFormed(d) && Collected(b, s, files) && Collected(b, d, stale)
    ensures Clear(b, s, d) <==>
              NoDirectoryMet(files, d) && WaysOpen(files, AfterRemoval(d, stale, files))
  {
    hide Chosen;
    var rest := AfterRemoval(d, stale, files);
    forall p, q | p in files && q in Ancestors(p) ensures q in rest.files <==> q in d.files && !Chosen(b, q) {
      AncestorsAreDirs(s, p);
    }
    assert forall p, q :: Prefix(q, p) <==> q in Ancestors(p) && q != [];
  }

  lemma CopiedIsFaithful(b: Bundle, s: Disk, d: Disk, e: Disk, files: set<Path>, stale: set<Path>)
    requires Collected(b, s, files) && Collected(b, d, stale)
    requires Copied(s, AfterRemoval(d, stale, files), e, files)
    ensures Faithful(b, s, d, e)
  {
  }

  lemma OthersStay(b: Bundle, s: Disk, d: Disk, e: Disk, files: set<Path>, stale: set<Path>)
    requires Collected(b, s, files) && Collected(b, d, stale)
    requires exists done: set<Path> :: done <= files && Copied(s, AfterRemoval(d, stale, files), e, done)
    ensures forall p :: !Chosen(b, p) ==> SameFile(d, e, p)
  {
  }

  lemma DirectoryIsNoFile(b: Bundle, s: Disk, d: Disk, e: Disk, files: set<Path>)
    requires Collected(b, s, files) && WellFormed(e) && d.dirs <= e.dirs && Faithful(b, s, d, e)
    ensures NoDirectoryMet(files, d)
  {
  }

  function EditAt(b: Bundle, p: Path): SymbolEdit {
    if p in b.edits then b.edits[p] else SymbolEdit({}, false)
  }

  /** The file with declared symbols keeps the statements of the reference around them. */
  ghost predicate KeepsSymbols(b: Bundle, files: map<Path, string>, reference: map<Path, string>, p: Path) {
    p in reference && p in files && SymbolsKept(b.parse, EditAt(b, p), p, reference[p], files[p])
  }

  /** Everything that is checked before the destination is touched. */
  ghost predicate Ready(b: Bundle, s: Disk, d: Disk, reference: Disk) {
    && Fits(b, s, true) && Fits(b, d, false)
    && forall k :: 0 <= k < |b.scopes| && b.scopes[k].kind == Symbols ==>
         Chosen(b, b.scopes[k].path) && KeepsSymbols(b, s.files, reference.files, b.scopes[k].path)
  }

  /** After a faithful installation the destination keeps the statements around declared symbols, too. */
  lemma InstalledKeepsSymbols(b: Bundle, s: Disk, d: Disk, e: Disk, reference: Disk, k: nat)
    requires Ready(b, s, d, reference) && Faithful(b, s, d, e)
    requires k < |b.scopes| && b.scopes[k].kind == Symbols
    ensures KeepsSymbols(b, e.files, reference.files, b.scopes[k].path)
  {
    hide Chosen, SymbolsKept, Fits;
    assert SameFile(s, e, b.scopes[k].path);
  }

  /** The destination ends with exactly the source's bundle, and nothing else changed, exactly when everything
      checked beforehand holds and nothing stands where a file has to go. What is refused beforehand changes
      nothing; and unless a file of the bundle meets a directory, files outside the bundle stay as they are
      even when the copying breaks off. */
  method InstallCandidate(b: Bundle, source: FileTree, destination: FileTree, reference: FileTree)
    returns (r: Result<set<Path>, Failure>)
    requires WellFormed(source.State()) && WellFormed(destination.State())
    modifies destination
    ensures WellFormed(destination.State())
    ensures r.Ok? ==> Collected(b, old(source.State()), r.value)
    ensures r.Ok? && Faithful(b, old(source.State()), old(destination.State()), destination.State())
            <==> Ready(b, old(source.State()), old(destination.State()), old(reference.State()))
                 && Clear(b, old(source.State()), old(destination.State()))
    ensures !Ready(b, old(source.State()), old(destination.State()), old(reference.State())) ==>
              r.Err? && destination.State() == old(destination.State())
    ensures (forall p :: p in old(source.files) && Chosen(b, p) ==> p !in old(destination.dirs)) ==>
              forall p :: !Chosen(b, p) ==> SameFile(old(destination.State()), destination.State(), p)
  {
    hide WellFormed, Fits, Chosen, Faithful, Clear, WaysOpen, SameFile, Copied, KeepsSymbols;
    ghost var s, d := source.State(), destination.State();
    NothingChanges(b, d);
    var collected := CandidateFiles(b, source, true);
    if collected.None? {
      return Err(SourceUnfit);
    }
    var files := collected.value;
    var kept := CheckAllSymbols(b, source, files, reference);
    if !kept {
      return Err(SymbolsChanged);
    }
    collected := CandidateFiles(b, destination, false);
    if collected.None? {
      return Err(DestinationUnfit);
    }
    var stale := collected.value;
    RemoveStale(b, destination, stale, files);
    ClearMeans(b, s, d, files, stale);
    assert source == destination ==> stale == files;
    assert source.State() == s;
    var done := CopyFiles(source, destination, files);
    InstallEnds(b, s, d, destination.State(), files, stale, done.Ok?);
    r := if done.Ok? then Ok(files) else Err(done.error);
  }

  lemma NothingChanges(b: Bundle, d: Disk)
    ensures forall p :: SameFile(d, d, p)
  {
  }

  /** Every declaration with symbols is checked before anything is changed. */
  method CheckAllSymbols(b: Bundle, source: FileTree, files: set<Path>, reference: FileTree) returns (ok: bool)
    requires Fits(b, source.State(), true) && Collected(b, source.State(), files)
    ensures ok <==> forall k :: 0 <= k < |b.scopes| && b.scopes[k].kind == Symbols ==>
                      Chosen(b, b.scopes[k].path)
                      && KeepsSymbols(b, source.files, reference.files, b.scopes[k].path)
  {
    hide Fits, Chosen, SymbolsKept;
    var n := 0;
    while n < |b.scopes|
      invariant 0 <= n <= |b.scopes|
      invariant forall k :: 0 <= k < n && b.scopes[k].kind == Symbols ==>
                  Chosen(b, b.scopes[k].path) && KeepsSymbols(b, source.files, reference.files, b.scopes[k].path)
    {
      var p := b.scopes[n].path;
      if b.scopes[n].kind == Symbols {
        if p !in reference.files || p !in files {
          return false;
        }
        var same := CheckSymbols(b.parse, EditAt(b, p), p, reference.files[p], source.files[p]);
        if !same {
          return false;
        }
      }
      n := n + 1;
    }
    return true;
  }

  lemma InstallEnds(b: Bundle, s: Disk, d: Disk, e: Disk, files: set<Path>, stale: set<Path>, ok: bool)
    requires WellFormed(s) && WellFormed(d) && WellFormed(e) && d.dirs <= e.dirs
    requires Collected(b, s, files) && Collected(b, d, stale)
    requires var rest := AfterRemoval(d, stale, files);
             && (ok ==> WaysOpen(files, rest))
             && (NoDirectoryMet(files, rest) ==>
                   && (ok <==> WaysOpen(files, rest))
                   && exists done: set<Path> :: done <= files && (ok ==> done == files) && Copied(s, rest, e, done))
    ensures ok && Faithful(b, s, d, e) <==> Clear(b, s, d)
    ensures NoDirectoryMet(files, d) ==> forall p :: !Chosen(b, p) ==> SameFile(d, e, p)
  {
    hide WellFormed, Chosen, Faithful, Clear, WaysOpen, SameFile, Copied;
    ClearMeans(b, s, d, files, stale);
    if NoDirectoryMet(files, d) {
      OthersStay(b, s, d, e, files, stale);
      if ok {
        CopiedIsFaithful(b, s, d, e, files, stale);
      }
    } else if Faithful(b, s, d, e) {
      DirectoryIsNoFile(b, s, d, e, files);
    }
  }

  // ---- Both obstacles occur ----

  function OneFile(path: Path, parse: Parser): Bundle {
    Bundle([Scope(path, File)], map[], {}, parse)
  }

  lemma OneFileChosen(path: Path, parse: Parser)
    requires !IsTransient(path)
    ensures forall p :: Chosen(OneFile(path, parse), p) <==> p == path
  {
    var b := OneFile(path, parse);
    assert ChosenBy(b, b.scopes[0], path);
  }

  /** The destination has a directory where the declared file has to go: everything is checked, and the way is not
      clear. */
  lemma DirectoryInPlace(parse: Parser)
    ensures var p := ["k.py"];
            var b, s, d := OneFile(p, parse), Disk(map[p := "new"], {[]}), Disk(map[], {[], p});
            WellFormed(s) && WellFormed(d) && Ready(b, s, d, d) && !Clear(b, s, d)
  {
    var p := ["k.py"];
    var b, s, d := OneFile(p, parse), Disk(map[p := "new"], {[]}), Disk(map[], {[], p});
    OneFileChosen(p, parse);
    assert p in s.files && Chosen(b, p) && p in d.dirs;
  }

  /** The destination has an undeclared file where the declared one needs a directory. */
  lemma FileOnTheWay(parse: Parser)
    ensures var p, q := ["lib", "k.py"], ["lib"];
            var b, s, d := OneFile(p, parse), Disk(map[p := "new"], {[], q}), Disk(map[q := "old"], {[]});
            WellFormed(s) && WellFormed(d) && Ready(b, s, d, d) && !Clear(b, s, d)
  {
    var p, q := ["lib", "k.py"], ["lib"];
    var b, s, d := OneFile(p, parse), Disk(map[p := "new"], {[], q}), Disk(map[q := "old"], {[]});
    OneFileChosen(p, parse);
    assert p in s.files && Chosen(b, p);
    assert Prefix(q, p) && q in d.files && !Chosen(b, q);
    assert Parent(p) == q;
  }

  /** Run on the first of them, the installation goes wrong. */
  method InstallOntoDirectory(parse: Parser) returns (r: Result<set<Path>, Failure>, destination: FileTree)
    ensures fresh(destination)
    ensures var p := ["k.py"];
            !(r.Ok? && Faithful(OneFile(p, parse), Disk(map[p := "new"], {[]}), Disk(map[], {[], p}),
                                destination.State()))
  {
    hide WellFormed, Ready, Clear, Faithful;
    DirectoryInPlace(parse);
    var source := new FileTree(map[["k.py"] := "new"], {[]});
    destination := new FileTree(map[], {[], ["k.py"]});
    r := InstallCandidate(OneFile(["k.py"], parse), source, destination, destination);
  }
}
