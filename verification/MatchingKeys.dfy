/** When a matching key stands for one value only: the exact condition for freeze_value of src/testcases.py to
    lose nothing. */
module MatchingKeys {
  import opened JsonValues
  import opened PythonValues

  predicate IsPair(v: Value) {
    v.Array? && |v.items| == 2 && v.items[0].Text?
  }

  function Head(v: Value): string {
    if IsPair(v) then v.items[0].s else ""
  }

  function Heads(items: seq<Value>): (heads: seq<string>)
    ensures |heads| == |items| && forall k :: 0 <= k < |items| ==> heads[k] == Head(items[k])
  {
    seq(|items|, k requires 0 <= k < |items| => Head(items[k]))
  }

  function HeadSet(heads: seq<string>): set<string> {
    set k | 0 <= k < |heads| :: heads[k]
  }

  /** A list that looks like the sorted items of a dictionary; the empty list does. */
  predicate PairList(items: seq<Value>) {
    (forall k :: 0 <= k < |items| ==> IsPair(items[k])) && Heads(items) == SortedKeys(HeadSet(Heads(items)))
  }

  /** The value holds a dictionary, or a list that looks like one, at any depth. */
  predicate Ambiguous(v: Value) {
    match v
    case Object(_) => true
    case Array(items) => PairList(items) || exists k :: 0 <= k < |items| && Ambiguous(items[k])
    case _ => false
  }

  lemma FrozenObject(f: map<string, Value>)
    ensures var keys := SortedKeys(f.Keys);
            && Frozen(Object(f)).Array? && |Frozen(Object(f)).items| == |keys|
            && forall k :: 0 <= k < |keys| ==>
                 keys[k] in f && Frozen(Object(f)).items[k] == Array([Text(keys[k]), Frozen(f[keys[k]])])
  {
    assert forall k :: 0 <= k < |SortedKeys(f.Keys)| ==> SortedKeys(f.Keys)[k] in SortedKeys(f.Keys);
  }

  lemma FrozenArray(items: seq<Value>)
    ensures Frozen(Array(items)).Array? && |Frozen(Array(items)).items| == |items|
    ensures forall k :: 0 <= k < |items| ==> Frozen(Array(items)).items[k] == Frozen(items[k])
  {
  }

  lemma FrozenScalar(v: Value)
    requires !v.Array? && !v.Object?
    ensures Frozen(v) == Plain(v) && !Frozen(v).Array?
  {
  }

  lemma FrozenPair(v: Value, name: string, x: Value)
    requires Frozen(v) == Array([Text(name), x]) && !v.Object?
    ensures IsPair(v) && v.items[0] == Text(name)
  {
    hide Frozen;
    if v.Array? {
      FrozenArray(v.items);
      FrozenText(v.items[0], name);
    } else {
      FrozenScalar(v);
    }
  }

  lemma FrozenText(v: Value, name: string)
    requires Frozen(v) == Text(name)
    ensures v == Text(name)
  {
  }

  /** A list that freezes like a dictionary looks like one. */
  lemma FrozenAlike(items: seq<Value>, f: map<string, Value>)
    requires Frozen(Array(items)) == Frozen(Object(f))
    requires forall k :: 0 <= k < |items| ==> !items[k].Object?
    ensures PairList(items)
  {
    hide Frozen, SortedKeys;
    FrozenArray(items);
    FrozenObject(f);
    var keys := SortedKeys(f.Keys);
    forall k | 0 <= k < |items| ensures IsPair(items[k]) && items[k].items[0] == Text(keys[k]) {
      FrozenPair(items[k], keys[k], Frozen(f[keys[k]]));
    }
    assert Heads(items) == keys;
    assert forall key :: key in keys <==> key in f.Keys;
    assert HeadSet(keys) == f.Keys;
  }

  /** A value without dictionaries, or lists that look like them, shares its key with equal values only. */
  lemma {:induction false} UnambiguousKey(u: Value, v: Value)
    requires !Ambiguous(u) && Frozen(u) == Frozen(v)
    ensures Equal(u, v)
  {
    hide Frozen, PairList;
    if u.Array? {
      FrozenArray(u.items);
      assert forall k :: 0 <= k < |u.items| ==> !Ambiguous(u.items[k]);
      if v.Object? {
        FrozenAlike(u.items, v.fields);
      } else if v.Array? {
        FrozenArray(v.items);
        forall k | 0 <= k < |u.items| ensures Plain(u.items[k]) == Plain(v.items[k]) {
          UnambiguousKey(u.items[k], v.items[k]);
        }
      } else {
        FrozenScalar(v);
      }
    } else {
      FrozenScalar(u);
      if v.Array? {
        FrozenArray(v.items);
      } else if v.Object? {
        FrozenObject(v.fields);
      } else {
        FrozenScalar(v);
      }
    }
  }

  // ---- An unequal value with the same key ----

  ghost predicate Unrepeated(s: seq<string>) {
    forall i, j :: 0 <= i < j < |s| ==> s[i] != s[j]
  }

  lemma {:induction false} SortedUnrepeated(keys: set<string>)
    ensures Unrepeated(SortedKeys(keys))
  {
    if keys != {} {
      var x := First(keys);
      var rest := SortedKeys(keys - {x});
      assert x in keys;
      SortedUnrepeated(keys - {x});
      assert x !in rest;
      PutFirst(x, rest);
    }
  }

  lemma PutFirst(x: string, s: seq<string>)
    requires x !in s && Unrepeated(s)
    ensures Unrepeated([x] + s)
  {
  }

  /** The list of a dictionary's items, and the dictionary of a list of pairs. */
  function AsList(f: map<string, Value>): Value {
    var keys := SortedKeys(f.Keys);
    Array(seq(|keys|, k requires 0 <= k < |keys| => assert keys[k] in keys; Array([Text(keys[k]), f[keys[k]]])))
  }

  lemma ListTwin(f: map<string, Value>)
    ensures Frozen(AsList(f)) == Frozen(Object(f)) && !Equal(Object(f), AsList(f))
  {
    hide SortedKeys;
    var keys, list := SortedKeys(f.Keys), AsList(f);
    FrozenObject(f);
    FrozenArray(list.items);
    forall k | 0 <= k < |keys| ensures Frozen(list.items[k]) == Array([Text(keys[k]), Frozen(f[keys[k]])]) {
      FrozenArray([Text(keys[k]), f[keys[k]]]);
      FrozenScalar(Text(keys[k]));
    }
    assert Frozen(list).items == Frozen(Object(f)).items;
  }

  ghost function AsDictionary(items: seq<Value>): map<string, Value>
    requires PairList(items)
  {
    map key | key in HeadSet(Heads(items)) ::
      (var k :| 0 <= k < |items| && Heads(items)[k] == key; items[k].items[1])
  }

  lemma DictionaryTwin(items: seq<Value>)
    requires PairList(items)
    ensures Frozen(Object(AsDictionary(items))) == Frozen(Array(items))
    ensures !Equal(Array(items), Object(AsDictionary(items)))
  {
    hide SortedKeys, Frozen;
    var f, heads := AsDictionary(items), Heads(items);
    assert f.Keys == HeadSet(heads);
    FrozenObject(f);
    FrozenArray(items);
    SortedUnrepeated(HeadSet(heads));
    forall k | 0 <= k < |items| ensures Frozen(items[k]) == Array([Text(heads[k]), Frozen(f[heads[k]])]) {
      assert heads[k] in HeadSet(heads);
      assert f[heads[k]] == items[k].items[1];
      FrozenArray(items[k].items);
      FrozenScalar(Text(heads[k]));
      assert Frozen(items[k]).items == [Text(heads[k]), Frozen(f[heads[k]])];
    }
    assert Frozen(Object(f)).items == Frozen(Array(items)).items;
  }

  lemma {:induction false} Twin(u: Value) returns (v: Value)
    requires Ambiguous(u)
    ensures Frozen(v) == Frozen(u) && !Equal(u, v)
  {
    hide Frozen, PairList;
    if u.Object? {
      v := AsList(u.fields);
      ListTwin(u.fields);
    } else if PairList(u.items) {
      v := Object(AsDictionary(u.items));
      DictionaryTwin(u.items);
    } else {
      var k :| 0 <= k < |u.items| && Ambiguous(u.items[k]);
      var w := Twin(u.items[k]);
      v := Array(u.items[k := w]);
      FrozenArray(u.items);
      FrozenArray(v.items);
      assert Frozen(u).items == Frozen(v).items;
      assert Plain(u).items[k] != Plain(v).items[k];
    }
  }

  /** Only what is empty has an empty key. */
  lemma TwinIsTruthy(u: Value, v: Value)
    requires Frozen(u) == Frozen(v) && Truthy(u) && Ambiguous(u)
    ensures Truthy(v)
  {
    hide Frozen;
    SizeOfKey(u);
    SizeOfKey(v);
  }

  lemma SizeOfKey(v: Value)
    ensures if v.Object? || v.Array? then Frozen(v).Array? && (Frozen(v).items != [] <==> Truthy(v))
            else !Frozen(v).Array?
  {
    hide Frozen;
    match v
    case Object(f) =>
      FrozenObject(f);
      assert f.Keys != {} ==> exists key :: key in f.Keys && key in SortedKeys(f.Keys);
    case Array(items) => FrozenArray(items);
    case _ => FrozenScalar(v);
  }

  /** A shape that has a key shares it with an unequal one exactly when it is ambiguous. */
  lemma ShapeKeyIsShared(u: Value)
    requires Truthy(u)
    ensures (exists v :: Truthy(v) && Frozen(u) == Frozen(v) && !Equal(u, v)) <==> Ambiguous(u)
  {
    hide Frozen, Equal, Ambiguous, Truthy;
    if Ambiguous(u) {
      var v := Twin(u);
      TwinIsTruthy(u, v);
    } else {
      forall v | Frozen(u) == Frozen(v) ensures Equal(u, v) {
        UnambiguousKey(u, v);
      }
    }
  }

  lemma SameItems(f: map<string, Value>, g: map<string, Value>)
    requires Frozen(Object(f)) == Frozen(Object(g))
    ensures f.Keys == g.Keys && forall key :: key in f && key in g ==> Frozen(f[key]) == Frozen(g[key])
  {
    hide Frozen, SortedKeys;
    FrozenObject(f);
    FrozenObject(g);
    var p, q, c := SortedKeys(f.Keys), SortedKeys(g.Keys), Frozen(Object(f)).items;
    assert forall k :: 0 <= k < |p| ==> c[k].items[0] == Text(p[k]) && c[k].items[0] == Text(q[k]);
    assert p == q;
    assert forall key :: (key in p <==> key in f.Keys) && (key in q <==> key in g.Keys);
    forall key | key in f && key in g ensures Frozen(f[key]) == Frozen(g[key]) {
      assert key in p;
      var k :| 0 <= k < |p| && p[k] == key;
      assert c[k].items[1] == Frozen(f[key]) && c[k].items[1] == Frozen(g[key]);
    }
  }

  /** Parameters share their key with unequal parameters exactly when one of their values is ambiguous. */
  lemma ParamsKeyIsShared(f: map<string, Value>)
    ensures (exists g :: Frozen(Object(f)) == Frozen(Object(g)) && !Equal(Object(f), Object(g)))
            <==> exists key :: key in f && Ambiguous(f[key])
  {
    hide Frozen, Ambiguous;
    if key :| key in f && Ambiguous(f[key]) {
      var w := Twin(f[key]);
      var g := f[key := w];
      SameFrozenItems(f, g);
      assert Plain(Object(f)).fields[key] != Plain(Object(g)).fields[key];
    } else {
      forall g | Frozen(Object(f)) == Frozen(Object(g)) ensures Equal(Object(f), Object(g)) {
        SameItems(f, g);
        forall key | key in f ensures Plain(f[key]) == Plain(g[key]) {
          UnambiguousKey(f[key], g[key]);
        }
      }
    }
  }

  lemma SameFrozenItems(f: map<string, Value>, g: map<string, Value>)
    requires f.Keys == g.Keys && forall key :: key in f && key in g ==> Frozen(f[key]) == Frozen(g[key])
    ensures Frozen(Object(f)) == Frozen(Object(g))
  {
    hide Frozen, SortedKeys;
    FrozenObject(f);
    FrozenObject(g);
    assert Frozen(Object(f)).items == Frozen(Object(g)).items;
  }
}
