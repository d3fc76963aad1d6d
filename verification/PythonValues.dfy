/** How Python treats decoded values: truth, equality (where true is 1 and 1 is 1.0), and the nested tuples that
    stand for values as dictionary keys when cases are matched. */
module PythonValues {
  import opened JsonValues
  import opened Naming

  predicate Truthy(v: Value) {
    match v
    case Null => false
    case Bool(b) => b
    case Number(x, _) => x != 0.0
    case Text(s) => s != ""
    case Array(items) => items != []
    case Object(fields) => fields != map[]
  }

  /** What == compares: the kinds of numbers are forgotten. */
  function Plain(v: Value): Value {
    match v
    case Bool(b) => Number(if b then 1.0 else 0.0, true)
    case Number(x, _) => Number(x, true)
    case Array(items) => Array(seq(|items|, k requires 0 <= k < |items| => Plain(items[k])))
    case Object(fields) => Object(map key | key in fields :: Plain(fields[key]))
    case _ => v
  }

  predicate Equal(u: Value, v: Value) {
    Plain(u) == Plain(v)
  }

  // ---- Sorted keys ----

  predicate Before(s: string, t: string) {
    s == t || Less(s, t)
  }

  lemma {:induction false} BeforeIsTotal(s: string, t: string)
    ensures Before(s, t) || Before(t, s)
    ensures Less(s, t) ==> !Less(t, s) && s != t
  {
    if s != "" && t != "" && s[0] == t[0] {
      BeforeIsTotal(s[1..], t[1..]);
      assert s == [s[0]] + s[1..] && t == [t[0]] + t[1..];
    }
  }

  lemma {:induction false} BeforeIsTransitive(s: string, t: string, u: string)
    requires Less(s, t) && Less(t, u)
    ensures Less(s, u)
  {
    if s != "" && s[0] == t[0] == u[0] {
      BeforeIsTransitive(s[1..], t[1..], u[1..]);
    }
  }

  predicate IsFirst(s: string, keys: set<string>) {
    s in keys && forall t :: t in keys ==> Before(s, t)
  }

  lemma {:induction false} SomeFirst(keys: set<string>) returns (s: string)
    requires keys != {}
    ensures IsFirst(s, keys)
    decreases |keys|
  {
    hide Less;
    var x :| x in keys;
    s := x;
    if keys != {x} {
      var y := SomeFirst(keys - {x});
      BeforeIsTotal(x, y);
      s := if Before(x, y) then x else y;
      forall t | t in keys ensures Before(s, t) {
        if t != x {
          assert t in keys - {x};
          if s == x && y != t {
            BeforeIsTransitive(x, y, t);
          }
        }
      }
    }
  }

  function First(keys: set<string>): (s: string)
    requires keys != {}
    ensures IsFirst(s, keys)
  {
    OneFirst(keys);
    var s :| s in keys && IsFirst(s, keys);
    s
  }

  lemma OneFirst(keys: set<string>)
    ensures keys != {} ==> exists s :: IsFirst(s, keys)
    ensures forall s, t :: IsFirst(s, keys) && IsFirst(t, keys) ==> s == t
  {
    hide Less;
    if keys != {} {
      var s := SomeFirst(keys);
    }
    forall s, t | IsFirst(s, keys) && IsFirst(t, keys) ensures s == t {
      BeforeIsTotal(s, t);
    }
  }

  function SortedKeys(keys: set<string>): (s: seq<string>)
    ensures forall x :: x in s <==> x in keys
  {
    if keys == {} then []
    else
      var x := First(keys);
      assert x in keys;
      [x] + SortedKeys(keys - {x})
  }

  // ---- Values as keys ----

  /** freeze_value: lists become tuples, and dictionaries become tuples of their items sorted by key. */
  function Frozen(v: Value): Value {
    match v
    case Array(items) => Array(seq(|items|, k requires 0 <= k < |items| => Frozen(items[k])))
    case Object(fields) =>
      var keys := SortedKeys(fields.Keys);
      Array(seq(|keys|, k requires 0 <= k < |keys| =>
                assert keys[k] in keys; Array([Text(keys[k]), Frozen(fields[keys[k]])])))
    case _ => Plain(v)
  }

  lemma {:induction false} FrozenPlain(v: Value)
    ensures Frozen(Plain(v)) == Frozen(v)
  {
    match v
    case Array(items) =>
      forall k | 0 <= k < |items| ensures Frozen(Plain(items[k])) == Frozen(items[k]) {
        FrozenPlain(items[k]);
      }
    case Object(fields) =>
      assert Plain(v).fields.Keys == fields.Keys;
      forall key | key in fields ensures Frozen(Plain(fields[key])) == Frozen(fields[key]) {
        FrozenPlain(fields[key]);
      }
    case _ =>
  }

  /** Equal values make equal keys, whatever the order of their members. */
  lemma EqualValuesShareAKey(u: Value, v: Value)
    requires Equal(u, v)
    ensures Frozen(u) == Frozen(v)
  {
    FrozenPlain(u);
    FrozenPlain(v);
  }

  /** The converse fails: below the top level, a dictionary and the list of its sorted items make one key. */
  lemma DifferentValuesCanShareAKey(name: string, x: Value)
    ensures var u, v := Object(map[name := x]), Array([Array([Text(name), x])]);
            Frozen(u) == Frozen(v) && !Equal(u, v)
  {
    assert map[name := x].Keys == {name};
    assert SortedKeys({name}) == [name] by {
      var s := First({name});
      assert s in {name};
      assert {name} - {name} == {};
    }
    var u, item := Object(map[name := x]), Array([Text(name), x]);
    assert Frozen(item).items == [Text(name), Frozen(x)];
    assert Frozen(Array([item])).items == [Frozen(item)] == Frozen(u).items;
  }
}
