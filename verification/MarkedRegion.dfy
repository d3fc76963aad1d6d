/** The generated helper region of a task runner: src/perf_helper_materialization.py and the restoring
    step of agents/quality_loop/filesystem.py. Texts are strings; a region starts at the first occurrence of
    the first start marker present and ends with the first end marker of the whole text. The laws hold for
    every set of markers whose first character occurs nowhere else in them. */
module MarkedRegion {
  import opened Wrappers

  /** The start markers in the order they are looked for, the first of them being the one written back. */
  datatype Markers = Markers(starts: seq<string>, end: string)

  const OPEN := "# >>> "
  const KIND := "AKA-GENERATED: shared "
  const HELPERS := "CUDA-graph benchmark helpers "
  const SOURCE := "tools/perf/vllm_cuda_graph_block.py"
  const COMMAND := " then run `make sync-perf-helpers` >>>"
  const MARK_START := OPEN + (KIND + HELPERS + "- edit src/" + SOURCE + COMMAND)
  const OLD_MARK_START := OPEN + (KIND + HELPERS + "- edit " + SOURCE + COMMAND)
  const LEGACY_MARK_START := OPEN + (KIND + HELPERS + "\U{2014} edit " + SOURCE + COMMAND)
  const MARK_END := "# <<< AKA-GENERATED <<<"
  const AKA := Markers([MARK_START, OLD_MARK_START, LEGACY_MARK_START], MARK_END)

  // ---- Substring search ----

  predicate At(s: string, p: string, i: nat) {
    i + |p| <= |s| && s[i..i + |p|] == p
  }

  predicate NoneBefore(s: string, p: string, cut: nat) {
    forall j: nat :: j < cut ==> !At(s, p, j)
  }

  /** The least position of p in s that is not before i, as str.index finds it. */
  function Find(s: string, p: string, i: nat): (r: Option<nat>)
    ensures r.Some? ==> i <= r.value && At(s, p, r.value) && forall j: nat :: i <= j < r.value ==> !At(s, p, j)
    ensures r.None? ==> forall j: nat :: i <= j ==> !At(s, p, j)
    decreases |s| - i
  {
    if i + |p| > |s| then None
    else if At(s, p, i) then Some(i)
    else Find(s, p, i + 1)
  }

  predicate Occurs(p: string, s: string) {
    Find(s, p, 0).Some?
  }

  function Index(s: string, p: string): (i: nat)
    requires Occurs(p, s)
    ensures At(s, p, i) && NoneBefore(s, p, i) && i + |p| <= |s|
  {
    Find(s, p, 0).value
  }

  lemma IndexIs(s: string, p: string, i: nat)
    requires At(s, p, i) && NoneBefore(s, p, i)
    ensures Occurs(p, s) && Index(s, p) == i
  {
  }

  /** One differing character rules an occurrence out. */
  lemma Differs(s: string, p: string, i: nat, k: nat)
    requires k < |p| && (i + k < |s| ==> s[i + k] != p[k])
    ensures !At(s, p, i)
  {
  }

  lemma SameWindow(s: string, t: string, shift: int, p: string, i: nat)
    requires 0 <= i + shift && i + |p| <= |s| && i + shift + |p| <= |t|
    requires s[i..i + |p|] == t[i + shift..i + shift + |p|]
    ensures At(s, p, i) <==> At(t, p, i + shift)
  {
  }

  // ---- The replacement ----

  /** The first of the start markers that the text contains. */
  function FirstPresent(starts: seq<string>, s: string): (m: Option<string>)
    ensures m.None? <==> forall k :: k in starts ==> !Occurs(k, s)
    ensures m.Some? ==> m.value in starts && Occurs(m.value, s) && (Occurs(starts[0], s) ==> m.value == starts[0])
  {
    if starts == [] then None
    else if Occurs(starts[0], s) then Some(starts[0])
    else FirstPresent(starts[1..], s)
  }

  predicate Complete(mk: Markers, s: string) {
    FirstPresent(mk.starts, s).Some? && Occurs(mk.end, s)
  }

  function StartAt(mk: Markers, s: string): nat
    requires Complete(mk, s)
  {
    Index(s, FirstPresent(mk.starts, s).value)
  }

  function Rebuilt(mk: Markers, pre: string, block: string, post: string): string
    requires mk.starts != []
  {
    pre + mk.starts[0] + "\n" + block + mk.end + post
  }

  function ReplaceMarkedRegion(mk: Markers, current: string, block: string): (r: Option<string>)
  {
    if !Complete(mk, current) then None
    else Some(Rebuilt(mk, current[..StartAt(mk, current)], block, current[Index(current, mk.end) + |mk.end|..]))
  }

  /** What a caller can check before the call: the first end marker comes after the chosen start marker. */
  predicate EndFollowsStart(mk: Markers, s: string)
    requires Complete(mk, s)
  {
    StartAt(mk, s) < Index(s, mk.end)
  }

  // ---- Markers have no border: their first character occurs nowhere else in them ----

  predicate Hashless(s: string) {
    forall k :: 0 <= k < |s| ==> s[k] != '#'
  }

  predicate HeadIsUnique(m: string) {
    |m| > 2 && m[0] == '#' && Hashless(m[1..])
  }

  ghost predicate BorderFree(mk: Markers) {
    && mk.starts != []
    && HeadIsUnique(mk.end)
    && forall m :: m in mk.starts ==> HeadIsUnique(m) && m[2] != mk.end[2]
  }

  lemma HashlessHelpers() ensures Hashless(KIND) && Hashless(HELPERS) {}

  lemma HashlessSource() ensures Hashless(SOURCE) {}

  lemma HashlessCommand() ensures Hashless(COMMAND) {}

  lemma OpenHead() ensures HeadIsUnique(OPEN) && OPEN[2] == '>' {}

  lemma EndHead() ensures HeadIsUnique(MARK_END) && MARK_END[2] == '<' {}

  lemma StartHead(g: string, kind: string, helpers: string, edit: string, source: string, command: string)
    requires HeadIsUnique(g) && Hashless(kind) && Hashless(helpers)
    requires Hashless(edit) && Hashless(source) && Hashless(command)
    ensures HeadIsUnique(g + (kind + helpers + edit + source + command))
    ensures (g + (kind + helpers + edit + source + command))[2] == g[2]
  {
  }

  lemma AkaIsBorderFree()
    ensures BorderFree(AKA)
  {
    HashlessHelpers(); HashlessSource(); HashlessCommand(); OpenHead(); EndHead();
    StartHead(OPEN, KIND, HELPERS, "- edit src/", SOURCE, COMMAND);
    StartHead(OPEN, KIND, HELPERS, "- edit ", SOURCE, COMMAND);
    StartHead(OPEN, KIND, HELPERS, "\U{2014} edit ", SOURCE, COMMAND);
  }

  /** A border-free marker cannot begin just before a place that holds a '#'. */
  lemma NotAcrossHash(s: string, m: string, j: nat, h: nat)
    requires HeadIsUnique(m) && j < h < j + |m|
    requires h < |s| ==> s[h] == '#'
    ensures !At(s, m, j)
  {
  }

  /** A border-free marker appended to a text without it is found exactly where it was appended. */
  lemma FirstIsAppended(x: string, m: string, rest: string)
    requires HeadIsUnique(m) && NoneBefore(x, m, |x|)
    ensures Occurs(m, x + m + rest) && Index(x + m + rest, m) == |x|
  {
    var s := x + m + rest;
    assert s[|x|..|x| + |m|] == m;
    assert s[|x|] == '#';
    forall j: nat | j < |x| ensures !At(s, m, j) {
      if j + |m| <= |x| {
        assert s[j..j + |m|] == x[j..j + |m|];
        SameWindow(s, x, 0, m, j);
      } else {
        NotAcrossHash(s, m, j, |x|);
      }
    }
    IndexIs(s, m, |x|);
  }

  /** Text before the first occurrence of a marker does not contain that marker. */
  lemma PrefixHasNone(s: string, m: string, cut: nat)
    requires cut <= |s| && NoneBefore(s, m, cut)
    ensures NoneBefore(s[..cut], m, cut)
  {
    forall j: nat | j < cut ensures !At(s[..cut], m, j) {
      if j + |m| <= cut {
        assert s[..cut][j..j + |m|] == s[j..j + |m|];
        SameWindow(s, s[..cut], 0, m, j);
      }
    }
  }

  /** No end marker begins in pre + start + newline + block, when pre and the block have none. */
  lemma NoEndBeforeTheEnd(pre: string, start: string, end: string, block: string)
    requires HeadIsUnique(start) && HeadIsUnique(end) && start[2] != end[2]
    requires NoneBefore(pre, end, |pre|) && !Occurs(end, block)
    ensures var x := pre + start + "\n" + block; NoneBefore(x, end, |x|)
  {
    var x := pre + start + "\n" + block;
    var b := |pre| + |start| + 1;
    assert x[b..] == block;
    assert x[|pre|] == start[0];
    forall j: nat | j < |x| ensures !At(x, end, j) {
      if j < |pre| {
        if j + |end| <= |pre| {
          assert x[j..j + |end|] == pre[j..j + |end|];
          SameWindow(x, pre, 0, end, j);
        } else {
          NotAcrossHash(x, end, j, |pre|);
        }
      } else if j == |pre| {
        Differs(x, end, j, 2);
      } else if j < b {
        assert x[j] == if j < b - 1 then start[1..][j - |pre| - 1] else '\n';
        Differs(x, end, j, 0);
      } else if j + |end| <= |x| {
        assert x[j..j + |end|] == block[j - b..j - b + |end|];
        SameWindow(x, block, -b, end, j);
      }
    }
  }

  /** The region of a replaced text starts where the region of the original started. */
  lemma StartAfterReplacing(mk: Markers, t: string, a: string)
    requires BorderFree(mk) && Complete(mk, t)
    ensures var r := ReplaceMarkedRegion(mk, t, a).value;
            && FirstPresent(mk.starts, r) == Some(mk.starts[0])
            && Index(r, mk.starts[0]) == StartAt(mk, t)
  {
    var i := StartAt(mk, t);
    var r := ReplaceMarkedRegion(mk, t, a).value;
    var post := t[Index(t, mk.end) + |mk.end|..];
    if FirstPresent(mk.starts, t).value != mk.starts[0] {
      assert !Occurs(mk.starts[0], t);
    }
    assert NoneBefore(t, mk.starts[0], i);
    PrefixHasNone(t, mk.starts[0], i);
    FirstIsAppended(t[..i], mk.starts[0], "\n" + a + mk.end + post);
    assert t[..i] + mk.starts[0] + ("\n" + a + mk.end + post) == r;
  }

  /** With the end marker first, the whole end marker lies before the start marker. */
  lemma EndLiesBeforeStart(mk: Markers, t: string)
    requires BorderFree(mk) && Complete(mk, t)
    ensures EndFollowsStart(mk, t) || Index(t, mk.end) + |mk.end| <= StartAt(mk, t)
  {
    var start := FirstPresent(mk.starts, t).value;
    var i, e := StartAt(mk, t), Index(t, mk.end);
    assert t[i] == t[i..i + |start|][0];
    assert t[i + 2] == t[i..i + |start|][2];
    Differs(t, mk.end, i, 2);
    if e < i < e + |mk.end| {
      NotAcrossHash(t, mk.end, e, i);
    }
  }

  /** Where the two ends of the region of a rebuilt text are, what is outside them is known. */
  lemma Outside(mk: Markers, pre: string, a: string, post: string)
    requires mk.starts != []
    ensures var r := Rebuilt(mk, pre, a, post);
            && r[..|pre|] == pre
            && r[|pre| + |mk.starts[0]| + 1 + |a| + |mk.end|..] == post
            && |r| == |pre| + |mk.starts[0]| + 1 + |a| + |mk.end| + |post|
  {
  }

  /** A prefix without a change keeps its first end marker. */
  lemma EndUnmoved(t: string, r: string, end: string, cut: nat)
    requires Occurs(end, t) && Index(t, end) + |end| <= cut <= |t| && cut <= |r| && r[..cut] == t[..cut]
    ensures Occurs(end, r) && Index(r, end) == Index(t, end)
  {
    var e := Index(t, end);
    forall j: nat | j <= e ensures At(r, end, j) <==> At(t, end, j) {
      assert r[j..j + |end|] == r[..cut][j..j + |end|] == t[j..j + |end|];
    }
    IndexIs(r, end, e);
  }

  lemma EndKept(mk: Markers, t: string, i: nat, a: string, post: string)
    requires mk.starts != [] && Occurs(mk.end, t) && Index(t, mk.end) + |mk.end| <= i <= |t|
    ensures var r := Rebuilt(mk, t[..i], a, post);
            Occurs(mk.end, r) && Index(r, mk.end) == Index(t, mk.end)
  {
    Outside(mk, t[..i], a, post);
    EndUnmoved(t, Rebuilt(mk, t[..i], a, post), mk.end, i);
  }

  /** The end marker of a new region comes right after its block. */
  lemma EndAppended(mk: Markers, t: string, i: nat, a: string, post: string)
    requires BorderFree(mk) && !Occurs(mk.end, a)
    requires i <= |t| && NoneBefore(t, mk.end, i)
    ensures var r := Rebuilt(mk, t[..i], a, post);
            Occurs(mk.end, r) && Index(r, mk.end) == i + |mk.starts[0]| + 1 + |a|
  {
    PrefixHasNone(t, mk.end, i);
    NoEndBeforeTheEnd(t[..i], mk.starts[0], mk.end, a);
    FirstIsAppended(t[..i] + mk.starts[0] + "\n" + a, mk.end, post);
  }

  // ---- The laws ----

  /** The replacement, on the text itself: with the end after the start, what lies between the first of the present
      start markers and the first end marker is exchanged, and everything else stays. */
  lemma ReplacedRegion(mk: Markers, t: string, block: string)
    returns (pre: string, start: string, inside: string, post: string)
    requires BorderFree(mk) && Complete(mk, t) && EndFollowsStart(mk, t)
    ensures t == pre + start + inside + mk.end + post && start in mk.starts
    ensures NoneBefore(t, start, |pre|) && NoneBefore(t, mk.end, |pre + start + inside|)
    ensures exists k :: 0 <= k < |mk.starts| && mk.starts[k] == start
                        && forall j :: 0 <= j < k ==> !Occurs(mk.starts[j], t)
    ensures ReplaceMarkedRegion(mk, t, block) == Some(pre + mk.starts[0] + "\n" + block + mk.end + post)
  {
    hide Find, BorderFree, NoneBefore;
    start := FirstPresent(mk.starts, t).value;
    var i, e := StartAt(mk, t), Index(t, mk.end);
    EndClearsStart(mk, t);
    pre, inside, post := t[..i], t[i + |start|..e], t[e + |mk.end|..];
    FiveParts(t, i, i + |start|, e, e + |mk.end|);
    FirstOfPresent(mk.starts, t);
  }

  lemma FiveParts(t: string, a: nat, b: nat, c: nat, d: nat)
    requires a <= b <= c <= d <= |t|
    ensures t == t[..a] + t[a..b] + t[b..c] + t[c..d] + t[d..]
  {
  }

  /** The end marker does not begin inside the start marker. */
  lemma EndClearsStart(mk: Markers, t: string)
    requires BorderFree(mk) && Complete(mk, t) && EndFollowsStart(mk, t)
    ensures StartAt(mk, t) + |FirstPresent(mk.starts, t).value| <= Index(t, mk.end)
  {
    hide Find;
    var start, i, e := FirstPresent(mk.starts, t).value, StartAt(mk, t), Index(t, mk.end);
    assert t[e] == t[e..e + |mk.end|][0] == '#';
    assert forall k :: i < k < i + |start| ==> t[k] == t[i..i + |start|][k - i] == start[1..][k - i - 1];
  }

  lemma {:induction false} FirstOfPresent(starts: seq<string>, s: string)
    requires FirstPresent(starts, s).Some?
    ensures exists k :: 0 <= k < |starts| && starts[k] == FirstPresent(starts, s).value
                        && forall j :: 0 <= j < k ==> !Occurs(starts[j], s)
  {
    hide Find;
    if !Occurs(starts[0], s) {
      FirstOfPresent(starts[1..], s);
      var k :| 0 <= k < |starts[1..]| && starts[1..][k] == FirstPresent(starts, s).value
               && forall j :: 0 <= j < k ==> !Occurs(starts[1..][j], s);
      assert starts[k + 1] == FirstPresent(starts, s).value;
      forall j | 0 <= j < k + 1 ensures !Occurs(starts[j], s) {
        assert j > 0 ==> starts[j] == starts[1..][j - 1];
      }
    }
  }

  /** The second replacement, once the place of the end marker in the first one's result is known. */
  lemma SecondReplacement(mk: Markers, t: string, a: string, b: string)
    requires BorderFree(mk) && Complete(mk, t) && !Occurs(mk.end, a)
    requires Occurs(mk.end, ReplaceMarkedRegion(mk, t, a).value)
    ensures var r := ReplaceMarkedRegion(mk, t, a).value;
            && Complete(mk, r)
            && ReplaceMarkedRegion(mk, r, b)
               == Some(Rebuilt(mk, t[..StartAt(mk, t)], b, r[Index(r, mk.end) + |mk.end|..]))
  {
    hide Find;
    hide At;
    StartAfterReplacing(mk, t, a);
    Outside(mk, t[..StartAt(mk, t)], a, t[Index(t, mk.end) + |mk.end|..]);
  }

  /** Put/put: the second block wins, exactly when the first end marker follows the chosen start marker. */
  lemma PutPut(mk: Markers, t: string, a: string, b: string)
    requires BorderFree(mk) && Complete(mk, t) && !Occurs(mk.end, a)
    ensures var r := ReplaceMarkedRegion(mk, t, a).value;
            && Complete(mk, r)
            && (ReplaceMarkedRegion(mk, r, b) == ReplaceMarkedRegion(mk, t, b) <==> EndFollowsStart(mk, t))
  {
    hide Find;
    hide At;
    var i, e := StartAt(mk, t), Index(t, mk.end);
    var pre, post := t[..i], t[e + |mk.end|..];
    var r := Rebuilt(mk, pre, a, post);
    Outside(mk, pre, a, post);
    if EndFollowsStart(mk, t) {
      EndAppended(mk, t, i, a, post);
      SecondReplacement(mk, t, a, b);
    } else {
      EndLiesBeforeStart(mk, t);
      EndKept(mk, t, i, a, post);
      SecondReplacement(mk, t, a, b);
      Outside(mk, pre, b, r[e + |mk.end|..]);
      Outside(mk, pre, b, post);
    }
  }

  datatype Written = Untouched | Rewritten(text: string) | BadMarkers

  predicate HasMarker(mk: Markers, s: string) {
    FirstPresent(mk.starts, s).Some? || Occurs(mk.end, s)
  }

  /** One runner file, materialized with the canonical block or restored to the stub block. */
  function Put(mk: Markers, current: string, block: string): (w: Written)
  {
    if !HasMarker(mk, current) then Untouched
    else match ReplaceMarkedRegion(mk, current, block)
         case None => BadMarkers
         case Some(text) => Rewritten(text)
  }

  /** A text that already carries the stub has its end marker after its start marker. */
  lemma CarriesBlock(mk: Markers, t: string, stub: string)
    requires BorderFree(mk) && ReplaceMarkedRegion(mk, t, stub) == Some(t)
    ensures EndFollowsStart(mk, t)
  {
  }

  /** Materializing the canonical helpers twice is materializing them once, and restoring the stub gives back
      the committed text. A committed text is one the stub is already written into. */
  lemma MaterializeThenRestore(committed: string, canonical: string, stub: string)
    requires Put(AKA, committed, stub) == Rewritten(committed)
    requires !Occurs(MARK_END, canonical)
    ensures Put(AKA, committed, canonical).Rewritten?
    ensures var run := Put(AKA, committed, canonical).text;
            && Put(AKA, run, canonical) == Rewritten(run)
            && Put(AKA, run, stub) == Rewritten(committed)
  {
    AkaIsBorderFree();
    CarriesBlock(AKA, committed, stub);
    PutPut(AKA, committed, canonical, canonical);
    PutPut(AKA, committed, canonical, stub);
  }

  /** With the end marker first, every further materialization makes the runner longer. */
  lemma MisorderedMarkersGrow(mk: Markers, t: string, a: string)
    requires BorderFree(mk) && Complete(mk, t)
    ensures !EndFollowsStart(mk, t) ==> |ReplaceMarkedRegion(mk, t, a).value| > |t|
  {
  }

  /** Such a text: the end marker and then the start marker. Every block makes it longer, and the second of two
      blocks does not win. */
  lemma MisorderedText(a: string, b: string)
    requires !Occurs(MARK_END, a)
    ensures var t := MARK_END + MARK_START;
            && Complete(AKA, t) && !EndFollowsStart(AKA, t)
            && var r := ReplaceMarkedRegion(AKA, t, a).value;
               |r| > |t| && Complete(AKA, r) && ReplaceMarkedRegion(AKA, r, b) != ReplaceMarkedRegion(AKA, t, b)
  {
    hide Find, MARK_START, MARK_END;
    var t := MARK_END + MARK_START;
    assert At(t, MARK_END, 0) && At(t, MARK_START, |MARK_END|);
    assert AKA.starts[0] == MARK_START;
    AkaIsBorderFree();
    IndexIs(t, MARK_END, 0);
    PutPut(AKA, t, a, b);
    MisorderedMarkersGrow(AKA, t, a);
  }
}
