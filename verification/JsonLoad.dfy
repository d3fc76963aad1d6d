/** The same text read twice: by the JavaScript scanner, and by Python's json.loads with the _unique_object hook
    of agents/geak/argument_transport.py. Both refuse exactly the texts with duplicate names. */
module JsonLoad {
  import opened Wrappers
  import opened JsonText
  import opened JsonScan

  /** The whole of the scan: white space may surround the value. */
  method ScanText(raw: Units, ghost lead: Units, ghost t: Tree, ghost trail: Units) returns (thrown: bool, end: nat)
    requires raw == lead + Text(t) + trail && AllWhite(lead) && AllWhite(trail) && TreeOk(t)
    ensures thrown <==> Duplicated(t)
    ensures !thrown ==> end <= |raw| && raw[end..] == trail
  {
    hide Text, TreeOk, Duplicated;
    var scanner := new Scanner(raw);
    assert raw[0..] == raw;
    thrown := scanner.Scan(lead, t, trail);
    end := scanner.i;
  }

  // ---- Integer literals that Python does not convert ----

  const MAX_INTEGER_DIGITS := 4300

  predicate TooLong(n: Number) {
    n.fraction.None? && n.exponent.None? && |n.whole| > MAX_INTEGER_DIGITS
  }

  /** Some integer literal of the text is too long. */
  predicate HasTooLong(t: Tree) {
    match t
    case Num(n) => TooLong(n)
    case List(_, elems) => ElemsTooLong(elems)
    case Dict(_, members) => MembersTooLong(members)
    case _ => false
  }

  predicate ElemsTooLong(es: Elems) {
    HasTooLong(es.value) || (es.NextElem? && ElemsTooLong(es.rest))
  }

  predicate MembersTooLong(ms: Members) {
    HasTooLong(ms.value) || (ms.NextMember? && MembersTooLong(ms.rest))
  }

  // ---- json.loads with the hook ----

  datatype Loaded = LoadedText(s: Points) | LoadedScalar(t: Tree) | LoadedList(items: seq<Loaded>)
                  | LoadedDict(fields: map<Points, Loaded>)

  type Pairing = seq<(Points, Loaded)>

  function Keys(pairs: Pairing): (keys: seq<Points>)
    ensures |keys| == |pairs| && forall k :: 0 <= k < |pairs| ==> keys[k] == pairs[k].0
  {
    seq(|pairs|, k requires 0 <= k < |pairs| => pairs[k].0)
  }

  /** The dictionary of pairs with different keys. */
  ghost predicate Holds(fields: map<Points, Loaded>, pairs: Pairing) {
    && fields.Keys == (set k | 0 <= k < |pairs| :: pairs[k].0)
    && forall k :: 0 <= k < |pairs| ==> pairs[k].0 in fields && fields[pairs[k].0] == pairs[k].1
  }

  // ---- What a text means ----

  /** The value that a text stands for: strings as code points, arrays in order, and every member of an object under
      its name. */
  predicate Means(t: Tree, v: Loaded)
    requires TreeOk(t)
  {
    match t
    case Str(items) => v == LoadedText(PointsOf(items))
    case EmptyArray(_) => v == LoadedList([])
    case List(_, elems) => v.LoadedList? && ElemsMean(elems, v.items)
    case EmptyObject(_) => v == LoadedDict(map[])
    case Dict(_, members) =>
      v.LoadedDict? && MembersMean(members, v.fields) && forall key :: key in v.fields ==> key in PointNames(members)
    case _ => v == LoadedScalar(t)
  }

  predicate ElemsMean(es: Elems, items: seq<Loaded>)
    requires ElemsOk(es)
  {
    && items != [] && Means(es.value, items[0])
    && if es.NextElem? then ElemsMean(es.rest, items[1..]) else |items| == 1
  }

  predicate MembersMean(ms: Members, fields: map<Points, Loaded>)
    requires MembersOk(ms)
  {
    && PointsOf(ms.name.items) in fields && Means(ms.value, fields[PointsOf(ms.name.items)])
    && (ms.NextMember? ==> MembersMean(ms.rest, fields))
  }

  predicate PairsMean(ms: Members, pairs: Pairing)
    requires MembersOk(ms)
  {
    && pairs != [] && pairs[0].0 == PointsOf(ms.name.items) && Means(ms.value, pairs[0].1)
    && if ms.NextMember? then PairsMean(ms.rest, pairs[1..]) else |pairs| == 1
  }

  lemma {:induction false} PairsInFields(ms: Members, pairs: Pairing, fields: map<Points, Loaded>)
    requires MembersOk(ms) && PairsMean(ms, pairs)
    requires forall k :: 0 <= k < |pairs| ==> pairs[k].0 in fields && fields[pairs[k].0] == pairs[k].1
    ensures MembersMean(ms, fields)
    decreases ms
  {
    hide Means, PointsOf, ItemsOk, TreeOk;
    if ms.NextMember? {
      PairsInFields(ms.rest, pairs[1..], fields);
    }
  }

  lemma FieldsMean(pad: Units, ms: Members, pairs: Pairing, fields: map<Points, Loaded>)
    requires TreeOk(Dict(pad, ms)) && PairsMean(ms, pairs) && Holds(fields, pairs) && Keys(pairs) == PointNames(ms)
    ensures Means(Dict(pad, ms), LoadedDict(fields))
  {
    hide PointsOf, ItemsOk, PairsMean, MembersMean, PointNames;
    PairsInFields(ms, pairs, fields);
    forall key | key in fields ensures key in PointNames(ms) {
      var k :| 0 <= k < |pairs| && pairs[k].0 == key;
      assert Keys(pairs)[k] == key;
    }
  }

  method UniqueObject(pairs: Pairing) returns (result: Option<map<Points, Loaded>>)
    ensures result.Some? <==> !Repeats(Keys(pairs))
    ensures result.Some? ==> Holds(result.value, pairs)
  {
    var fields: map<Points, Loaded> := map[];
    var n := 0;
    while n < |pairs|
      invariant 0 <= n <= |pairs|
      invariant !Repeats(Keys(pairs[..n])) && Holds(fields, pairs[..n])
    {
      var (key, value) := pairs[n];
      KeysSnoc(pairs, n, fields);
      if key in fields {
        return None;
      }
      fields := fields[key := value];
      n := n + 1;
    }
    assert pairs[..n] == pairs;
    return Some(fields);
  }

  lemma KeysSnoc(pairs: Pairing, n: nat, fields: map<Points, Loaded>)
    requires n < |pairs| && !Repeats(Keys(pairs[..n])) && Holds(fields, pairs[..n])
    ensures pairs[n].0 in fields ==> Repeats(Keys(pairs))
    ensures pairs[n].0 !in fields ==>
              !Repeats(Keys(pairs[..n + 1])) && Holds(fields[pairs[n].0 := pairs[n].1], pairs[..n + 1])
  {
  }

  /** Names are repeated for one reader exactly when they are for the other. */
  lemma {:induction false} NamesRepeatAlike(ms: Members)
    requires MembersOk(ms)
    ensures Repeats(UnitNames(ms)) <==> Repeats(PointNames(ms))
  {
    hide UnitsOf, PointsOf, UnitNames, PointNames, MembersOk, ItemsOk;
    SameLengths(ms);
    forall i, j | 0 <= i < j < |UnitNames(ms)|
      ensures UnitNames(ms)[i] == UnitNames(ms)[j] <==> PointNames(ms)[i] == PointNames(ms)[j]
    {
      var m := ItemsAt(ms, i);
      var n := ItemsAt(ms, j);
      ReadingsAgree(m, n);
    }
  }

  lemma {:induction false} SameLengths(ms: Members)
    requires MembersOk(ms)
    ensures |UnitNames(ms)| == |PointNames(ms)|
  {
    if ms.NextMember? {
      SameLengths(ms.rest);
    }
  }

  lemma {:induction false} ItemsAt(ms: Members, k: nat) returns (items: seq<Item>)
    requires MembersOk(ms) && k < |UnitNames(ms)|
    ensures ItemsOk(items) && UnitNames(ms)[k] == UnitsOf(items)
    ensures k < |PointNames(ms)| && PointNames(ms)[k] == PointsOf(items)
    decreases ms
  {
    hide UnitsOf, PointsOf;
    if k == 0 {
      items := ms.name.items;
    } else {
      items := ItemsAt(ms.rest, k - 1);
    }
  }

  /** The decoder builds objects from the inside out, so the hook sees every object of the text. */
  method Load(t: Tree) returns (r: Option<Loaded>)
    requires TreeOk(t)
    ensures r.Some? <==> !Duplicated(t) && !HasTooLong(t)
    ensures r.Some? ==> Means(t, r.value)
    decreases t
  {
    hide PairsMean, ElemsMean, MembersMean, PointsOf;
    hide Duplicated, AnyRepeats, MembersOk, ElemsOk, UnitNames, PointNames, Repeats, ItemsOk, Keys;
    NoObjects(t);
    match t {
      case Num(n) =>
        return if TooLong(n) then None else Some(LoadedScalar(t));
      case Str(items) =>
        return Some(LoadedText(PointsOf(items)));
      case List(_, elems) =>
        var loaded := LoadElems(elems);
        return if loaded.None? then None else Some(LoadedList(loaded.value));
      case Dict(_, members) =>
        RepeatsInBoth([members], ObjectsInMembers(members));
        RepeatsInOne(members);
        ClashMeans({}, members);
        NamesRepeatAlike(members);
        NoneSeen(UnitNames(members));
        var pairs := LoadMembers(members);
        if pairs.None? {
          return None;
        }
        var fields := UniqueObject(pairs.value);
        if fields.Some? {
          FieldsMean(t.pad, members, pairs.value, fields.value);
        }
        return if fields.None? then None else Some(LoadedDict(fields.value));
      case EmptyArray(_) =>
        return Some(LoadedList([]));
      case EmptyObject(_) =>
        return Some(LoadedDict(map[]));
      case _ =>
        return Some(LoadedScalar(t));
    }
  }

  lemma NoneSeen(s: seq<Units>)
    ensures !SomeIn(s, {})
  {
  }

  method LoadElems(es: Elems) returns (r: Option<seq<Loaded>>)
    requires ElemsOk(es)
    ensures r.Some? <==> !AnyRepeats(ObjectsInElems(es)) && !ElemsTooLong(es)
    ensures r.Some? ==> ElemsMean(es, r.value)
    decreases es
  {
    hide Means, Duplicated, AnyRepeats, TreeOk, ObjectsInElems, ElemsOk, AllWhite, SizeElems, Size;
    ElemsParts(es);
    var first := Load(es.value);
    if first.None? {
      return None;
    }
    if es.LastElem? {
      return Some([first.value]);
    }
    var rest := LoadElems(es.rest);
    return if rest.None? then None else Some([first.value] + rest.value);
  }

  lemma PairsStep(ms: Members, v: Loaded, rest: Pairing)
    requires MembersOk(ms) && Means(ms.value, v)
    requires if ms.NextMember? then PairsMean(ms.rest, rest) && Keys(rest) == PointNames(ms.rest) else rest == []
    ensures var pairs := [(PointsOf(ms.name.items), v)] + rest; PairsMean(ms, pairs) && Keys(pairs) == PointNames(ms)
  {
    hide Means, PointsOf, ItemsOk;
    assert ([(PointsOf(ms.name.items), v)] + rest)[1..] == rest;
  }

  method LoadMembers(ms: Members) returns (r: Option<Pairing>)
    requires MembersOk(ms)
    ensures r.Some? <==> !AnyRepeats(ObjectsInMembers(ms)) && !MembersTooLong(ms)
    ensures r.Some? ==> Keys(r.value) == PointNames(ms) && PairsMean(ms, r.value)
    decreases ms
  {
    hide PairsMean, PointNames;
    hide Means, Duplicated, AnyRepeats, TreeOk, PointsOf, ItemsOk, ObjectsInMembers, MembersOk, AllWhite, SizeMembers,
         Size;
    MembersParts(ms);
    var first := Load(ms.value);
    if first.None? {
      return None;
    }
    var name := PointsOf(ms.name.items);
    if ms.LastMember? {
      PairsStep(ms, first.value, []);
      assert [(name, first.value)] + [] == [(name, first.value)];
      return Some([(name, first.value)]);
    }
    var rest := LoadMembers(ms.rest);
    if rest.None? {
      return None;
    }
    PairsStep(ms, first.value, rest.value);
    return Some([(name, first.value)] + rest.value);
  }

  /** The scanner throws on exactly the texts that the hook refuses; beside those, Python refuses the texts with an
      integer literal that is too long. */
  method ReadTwice(raw: Units, lead: Units, t: Tree, trail: Units) returns (thrown: bool, loaded: Option<Loaded>)
    requires raw == lead + Text(t) + trail && AllWhite(lead) && AllWhite(trail) && TreeOk(t)
    ensures loaded.None? <==> thrown || HasTooLong(t)
    ensures loaded.Some? ==> Means(t, loaded.value)
  {
    hide Duplicated, TreeOk;
    var end;
    thrown, end := ScanText(raw, lead, t, trail);
    loaded := Load(t);
  }
}
