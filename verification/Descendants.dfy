/** The processes below one process: _descendants of agents/forge/process_tree.py. What /proc showed is a list of
    readings in any order; a reading is None when its file vanished or could not be parsed. */
module Descendants {
  import opened Wrappers

  type Pid = int

  datatype Stat = Stat(pid: Pid, parent: Pid)

  predicate ChildOf(stats: seq<Option<Stat>>, child: Pid, parent: Pid) {
    Some(Stat(child, parent)) in stats
  }

  /** A way down from one process to another, one child at a time. */
  ghost predicate Chain(stats: seq<Option<Stat>>, path: seq<Pid>) {
    forall k :: 0 <= k < |path| - 1 ==> ChildOf(stats, path[k + 1], path[k])
  }

  /** Below by one child edge or more. */
  ghost predicate Below(stats: seq<Option<Stat>>, parent: Pid, p: Pid) {
    exists path :: |path| >= 2 && path[0] == parent && path[|path| - 1] == p && Chain(stats, path)
  }

  lemma ChildIsBelow(stats: seq<Option<Stat>>, parent: Pid, p: Pid)
    requires ChildOf(stats, p, parent)
    ensures Below(stats, parent, p)
  {
    assert Chain(stats, [parent, p]);
  }

  lemma OneFurther(stats: seq<Option<Stat>>, parent: Pid, p: Pid, q: Pid)
    requires Below(stats, parent, p) && ChildOf(stats, q, p)
    ensures Below(stats, parent, q)
  {
    var path :| |path| >= 2 && path[0] == parent && path[|path| - 1] == p && Chain(stats, path);
    assert Chain(stats, path + [q]);
  }

  /** A set that holds the children of the parent and of each of its members holds everything below. */
  ghost predicate Closed(stats: seq<Option<Stat>>, parent: Pid, s: set<Pid>) {
    forall p, q :: (p == parent || p in s) && ChildOf(stats, q, p) ==> q in s
  }

  lemma {:induction false} ClosedHoldsChain(stats: seq<Option<Stat>>, parent: Pid, s: set<Pid>, path: seq<Pid>)
    requires Closed(stats, parent, s) && Chain(stats, path) && |path| >= 2 && path[0] == parent
    ensures path[|path| - 1] in s
  {
    var n := |path| - 1;
    assert ChildOf(stats, path[n], path[n - 1]);
    if n > 1 {
      var shorter := path[..n];
      assert forall k :: 0 <= k < n - 1 ==> ChildOf(stats, path[k + 1], path[k]);
      ClosedHoldsChain(stats, parent, s, shorter);
    }
  }

  /** The lists of children, by parent. */
  ghost predicate Lists(stats: seq<Option<Stat>>, children: map<Pid, seq<Pid>>) {
    forall p, q :: (p in children && q in children[p]) <==> ChildOf(stats, q, p)
  }

  function At(children: map<Pid, seq<Pid>>, p: Pid): seq<Pid> {
    if p in children then children[p] else []
  }

  lemma ListsStep(stats: seq<Option<Stat>>, n: nat, children: map<Pid, seq<Pid>>)
    requires n < |stats| && Lists(stats[..n], children)
    ensures stats[n].None? ==> Lists(stats[..n + 1], children)
    ensures stats[n].Some? ==>
              var s := stats[n].value;
              Lists(stats[..n + 1], children[s.parent := At(children, s.parent) + [s.pid]])
  {
    assert stats[..n + 1] == stats[..n] + [stats[n]];
    forall p, q ensures ChildOf(stats[..n + 1], q, p) <==> ChildOf(stats[..n], q, p) || stats[n] == Some(Stat(q, p)) {
    }
    forall p, q ensures q in At(children, p) <==> ChildOf(stats[..n], q, p) {
      assert (p in children && q in children[p]) <==> ChildOf(stats[..n], q, p);
    }
    if stats[n].Some? {
      var s := stats[n].value;
      var next := children[s.parent := At(children, s.parent) + [s.pid]];
      forall p, q ensures (p in next && q in next[p]) <==> ChildOf(stats[..n + 1], q, p) {
        assert q in At(next, p) <==> q in At(children, p) || (p == s.parent && q == s.pid);
      }
    }
  }

  method Children(stats: seq<Option<Stat>>) returns (children: map<Pid, seq<Pid>>)
    ensures Lists(stats, children)
  {
    children := map[];
    var n := 0;
    while n < |stats|
      invariant 0 <= n <= |stats|
      invariant Lists(stats[..n], children)
    {
      ListsStep(stats, n, children);
      if stats[n].Some? {
        var s := stats[n].value;
        children := children[s.parent := At(children, s.parent) + [s.pid]];
      }
      n := n + 1;
    }
    assert stats[..n] == stats;
  }

  function AllPids(stats: seq<Option<Stat>>): (pids: set<Pid>)
    ensures forall p, q :: ChildOf(stats, q, p) ==> q in pids
  {
    set k | 0 <= k < |stats| && stats[k].Some? :: stats[k].value.pid
  }

  /** The worklist terminates on every parent relation, cyclic ones included, with exactly what is below. */
  method Find(stats: seq<Option<Stat>>, parent: Pid) returns (result: set<Pid>)
    ensures forall p :: p in result <==> Below(stats, parent, p)
  {
    hide Below, ChildOf, ClosedBut, At, Lists;
    var children := Children(stats);
    assert ClosedBut(stats, parent, {}, [parent]) by { OnlyParent(stats, parent); }
    result := {};
    var pending := [parent];
    while pending != []
      invariant forall p :: p in result ==> Below(stats, parent, p)
      invariant forall p :: p in pending ==> p == parent || p in result
      invariant ClosedBut(stats, parent, result, pending)
      invariant result <= AllPids(stats)
      decreases |AllPids(stats) - result|, |pending|
    {
      var p := pending[|pending| - 1];
      ghost var before, list := result, pending;
      AtMeans(stats, children, p);
      result, pending := Visit(stats, parent, p, At(children, p), result, pending);
      ClosedStep(stats, parent, before, list, p, result, pending);
      Smaller(before, result, AllPids(stats));
    }
    ClosedAtEnd(stats, parent, result);
    BelowIsHeld(stats, parent, result);
  }

  /** Closed, except for what is still on the list. */
  ghost predicate ClosedBut(stats: seq<Option<Stat>>, parent: Pid, s: set<Pid>, list: seq<Pid>) {
    forall p, q :: (p == parent || p in s) && p !in list && ChildOf(stats, q, p) ==> q in s
  }

  lemma AtMeans(stats: seq<Option<Stat>>, children: map<Pid, seq<Pid>>, p: Pid)
    requires Lists(stats, children)
    ensures forall q :: q in At(children, p) <==> ChildOf(stats, q, p)
    ensures (set q | q in At(children, p)) <= AllPids(stats)
  {
    hide ChildOf;
    forall q ensures q in At(children, p) <==> ChildOf(stats, q, p) {
      assert (p in children && q in children[p]) <==> ChildOf(stats, q, p);
    }
    forall q | q in At(children, p) ensures q in AllPids(stats) {
      assert ChildOf(stats, q, p);
    }
  }

  lemma OnlyParent(stats: seq<Option<Stat>>, parent: Pid)
    ensures ClosedBut(stats, parent, {}, [parent])
  {
  }

  lemma Smaller(a: set<Pid>, b: set<Pid>, all: set<Pid>)
    requires a <= b <= all
    ensures a == b || |all - b| < |all - a|
  {
    assert all - a == (all - b) + (b - a);
    assert b == a + (b - a);
  }

  lemma ClosedAtEnd(stats: seq<Option<Stat>>, parent: Pid, s: set<Pid>)
    requires ClosedBut(stats, parent, s, [])
    ensures Closed(stats, parent, s)
  {
  }

  lemma ClosedStep(stats: seq<Option<Stat>>, parent: Pid, before: set<Pid>, list: seq<Pid>, p: Pid, s: set<Pid>,
                   next: seq<Pid>)
    requires ClosedBut(stats, parent, before, list) && before <= s
    requires forall q :: ChildOf(stats, q, p) ==> q in s
    requires forall q :: q in list ==> q in next || q == p
    requires forall q :: q in s ==> q in before || q in next
    ensures ClosedBut(stats, parent, s, next)
  {
  }

  lemma BelowIsHeld(stats: seq<Option<Stat>>, parent: Pid, s: set<Pid>)
    requires Closed(stats, parent, s)
    ensures forall p :: Below(stats, parent, p) ==> p in s
  {
    forall p | Below(stats, parent, p) ensures p in s {
      var path :| |path| >= 2 && path[0] == parent && path[|path| - 1] == p && Chain(stats, path);
      ClosedHoldsChain(stats, parent, s, path);
    }
  }

  /** One process is taken from the end of the list; its new children join the result and the list. */
  method Visit(stats: seq<Option<Stat>>, ghost parent: Pid, p: Pid, children: seq<Pid>, before: set<Pid>,
               list: seq<Pid>)
    returns (result: set<Pid>, pending: seq<Pid>)
    requires list != [] && list[|list| - 1] == p && (p == parent || p in before)
    requires forall q :: q in children <==> ChildOf(stats, q, p)
    requires forall q :: q in before ==> Below(stats, parent, q)
    ensures result == before + set q | q in children
    ensures forall q :: q in result ==> Below(stats, parent, q)
    ensures forall q :: q in pending ==> q in list || q in result
    ensures forall q :: q in list ==> q in pending || q == p
    ensures forall q :: q in result ==> q in before || q in pending
    ensures result == before ==> |pending| < |list|
  {
    hide Below, ChildOf;
    result, pending := before, list[..|list| - 1];
    var n := 0;
    while n < |children|
      invariant 0 <= n <= |children|
      invariant result == before + set q | q in children[..n]
      invariant forall q :: q in result ==> Below(stats, parent, q)
      invariant forall q :: q in pending ==> q in list || q in result
      invariant forall q :: q in list[..|list| - 1] ==> q in pending
      invariant forall q :: q in result ==> q in before || q in pending
      invariant result == before ==> pending == list[..|list| - 1]
    {
      var child := children[n];
      assert children[..n + 1] == children[..n] + [child];
      if child !in result {
        assert child in children;
        if p == parent {
          ChildIsBelow(stats, parent, child);
        } else {
          OneFurther(stats, parent, p, child);
        }
        result := result + {child};
        pending := pending + [child];
      }
      n := n + 1;
    }
    assert children[..n] == children;
    assert list == list[..|list| - 1] + [p];
  }
}
