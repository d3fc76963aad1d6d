/** Comparing workflow inputs: _canonical, decode_workflow_args and workflow_inputs_match of
    agents/geak/argument_transport.py. The canonical form tells booleans from numbers, unlike Python's equality,
    and 1 from 1.0 no more than it does. */
module WorkflowInputs {
  import opened Wrappers
  import opened JsonValues
  import opened PythonValues

  const MAX_SAFE_INTEGER: real := 9007199254740991.0

  datatype Canon = None_ | Boolean(b: bool) | Numeric(x: real) | String(s: string) | Tuple(items: seq<Canon>)
                 | Pairs(members: seq<(string, Canon)>)

  function Canonical(v: Value): Canon {
    match v
    case Null => None_
    case Bool(b) => Boolean(b)
    case Number(x, _) => Numeric(x)
    case Text(s) => String(s)
    case Array(items) => Tuple(seq(|items|, k requires 0 <= k < |items| => Canonical(items[k])))
    case Object(fields) =>
      var keys := SortedKeys(fields.Keys);
      Pairs(seq(|keys|, k requires 0 <= k < |keys| => assert keys[k] in keys; (keys[k], Canonical(fields[keys[k]]))))
  }

  /** The same JSON value: the same shape, numbers equal by value, members in any order. */
  predicate SameJson(u: Value, v: Value) {
    match (u, v)
    case (Null, Null) => true
    case (Bool(a), Bool(b)) => a == b
    case (Number(x, _), Number(y, _)) => x == y
    case (Text(s), Text(t)) => s == t
    case (Array(a), Array(b)) => |a| == |b| && forall k :: 0 <= k < |a| ==> SameJson(a[k], b[k])
    case (Object(f), Object(g)) => f.Keys == g.Keys && forall key :: key in f && key in g ==> SameJson(f[key], g[key])
    case _ => false
  }

  /** The canonical forms are equal exactly when the values are the same. */
  lemma {:induction false} CanonicalDecides(u: Value, v: Value)
    ensures Canonical(u) == Canonical(v) <==> SameJson(u, v)
  {
    match (u, v)
    case (Array(a), Array(b)) =>
      assert |Canonical(u).items| == |a| && |Canonical(v).items| == |b|;
      if |a| == |b| {
        forall k | 0 <= k < |a| ensures Canonical(a[k]) == Canonical(b[k]) <==> SameJson(a[k], b[k]) {
          CanonicalDecides(a[k], b[k]);
        }
        assert forall k :: 0 <= k < |a| ==> Canonical(u).items[k] == Canonical(a[k]);
        assert forall k :: 0 <= k < |a| ==> Canonical(v).items[k] == Canonical(b[k]);
      }
    case (Object(f), Object(g)) =>
      forall key | key in f && key in g ensures Canonical(f[key]) == Canonical(g[key]) <==> SameJson(f[key], g[key]) {
        CanonicalDecides(f[key], g[key]);
      }
      ObjectsDecide(f, g);
    case _ =>
  }

  lemma MembersOf(f: map<string, Value>)
    ensures var c, keys := Canonical(Object(f)), SortedKeys(f.Keys);
            && c.Pairs? && |c.members| == |keys|
            && forall k :: 0 <= k < |keys| ==> keys[k] in f && c.members[k] == (keys[k], Canonical(f[keys[k]]))
  {
  }

  lemma SameMembers(f: map<string, Value>, g: map<string, Value>)
    requires Canonical(Object(f)) == Canonical(Object(g))
    ensures SortedKeys(f.Keys) == SortedKeys(g.Keys) && f.Keys == g.Keys
  {
    hide Canonical;
    MembersOf(f);
    MembersOf(g);
    var p, q := SortedKeys(f.Keys), SortedKeys(g.Keys);
    var c := Canonical(Object(f)).members;
    assert forall k :: 0 <= k < |p| ==> p[k] == c[k].0 && q[k] == c[k].0;
    assert p == q;
    assert forall key :: (key in p <==> key in f.Keys) && (key in q <==> key in g.Keys);
  }

  lemma ObjectsDecide(f: map<string, Value>, g: map<string, Value>)
    ensures Canonical(Object(f)) == Canonical(Object(g)) <==>
              f.Keys == g.Keys && forall key :: key in f && key in g ==> Canonical(f[key]) == Canonical(g[key])
  {
    hide Canonical, SortedKeys;
    MembersOf(f);
    MembersOf(g);
    var p := SortedKeys(f.Keys);
    if Canonical(Object(f)) == Canonical(Object(g)) {
      SameMembers(f, g);
      forall key | key in f && key in g ensures Canonical(f[key]) == Canonical(g[key]) {
        assert key in p;
        var k :| 0 <= k < |p| && p[k] == key;
        assert Canonical(Object(f)).members[k].1 == Canonical(Object(g)).members[k].1;
      }
    }
    if f.Keys == g.Keys && forall key :: key in f && key in g ==> Canonical(f[key]) == Canonical(g[key]) {
      SameFields(f, g);
    }
  }

  lemma SameFields(f: map<string, Value>, g: map<string, Value>)
    requires f.Keys == g.Keys && forall key :: key in f && key in g ==> Canonical(f[key]) == Canonical(g[key])
    ensures Canonical(Object(f)) == Canonical(Object(g))
  {
  }

  /** True and 1 are one value to Python's equality, but not here; 1 and 1.0 are one value to both. */
  lemma BooleansAreNoNumbers(x: real)
    ensures Equal(Bool(true), Number(1.0, true)) && !SameJson(Bool(true), Number(1.0, true))
    ensures SameJson(Number(x, true), Number(x, false))
  {
  }

  // ---- workflow_inputs_match ----

  /** No whole number exceeds what JavaScript can hold exactly. */
  predicate Safe(v: Value) {
    match v
    case Number(x, _) => x == x.Floor as real ==> -MAX_SAFE_INTEGER <= x <= MAX_SAFE_INTEGER
    case Array(items) => forall k :: 0 <= k < |items| ==> Safe(items[k])
    case Object(fields) => forall key :: key in fields ==> Safe(fields[key])
    case _ => true
  }

  /** A value is part of another: itself, or part of an item or of a member, at any depth. */
  predicate PartOf(part: Value, v: Value)
    decreases v
  {
    part == v ||
    match v
    case Array(items) => exists k :: 0 <= k < |items| && PartOf(part, items[k])
    case Object(fields) => exists key :: key in fields && PartOf(part, fields[key])
    case _ => false
  }

  predicate Unsafe(v: Value) {
    v.Number? && v.value == v.value.Floor as real && !(-9007199254740991.0 <= v.value <= 9007199254740991.0)
  }

  /** Nothing at any depth of a safe value is a whole number that JavaScript cannot hold, and that is all. */
  lemma {:induction false} SafeMeans(v: Value)
    ensures Safe(v) <==> forall part :: PartOf(part, v) ==> !Unsafe(part)
  {
    match v
    case Array(items) =>
      forall k | 0 <= k < |items| ensures Safe(items[k]) <==> forall part :: PartOf(part, items[k]) ==> !Unsafe(part) {
        SafeMeans(items[k]);
      }
      assert forall part, k :: 0 <= k < |items| && PartOf(part, items[k]) ==> PartOf(part, v);
    case Object(fields) =>
      forall key | key in fields
        ensures Safe(fields[key]) <==> forall part :: PartOf(part, fields[key]) ==> !Unsafe(part)
      {
        SafeMeans(fields[key]);
      }
      assert forall part, key :: key in fields && PartOf(part, fields[key]) ==> PartOf(part, v);
    case _ => assert PartOf(v, v);
  }

  /** What arguments are decoded to: an object that holds no such number, the loader's value of a text and any other
      value as it is. */
  lemma DecodedMeans(load: string -> Option<Value>, args: Value, v: Value)
    ensures Decoded(load, args) == Some(v) <==>
              && (if args.Text? then load(args.s) == Some(v) else v == args)
              && v.Object? && forall part :: PartOf(part, v) ==> !Unsafe(part)
  {
    hide Safe, PartOf, Unsafe;
    SafeMeans(v);
  }

  /** Text is decoded by a loader handed in from outside; None when it refuses. Every result here holds for any
      loader; which texts the program's own refuses is proved in JsonLoad. */
  function Decoded(load: string -> Option<Value>, args: Value): Option<Value> {
    var v := if args.Text? then load(args.s) else Some(args);
    if v.Some? && v.value.Object? && Safe(v.value) then v else None
  }

  predicate WellShaped(v: Value) {
    v.Object? && v.fields.Keys == {"scriptPath", "args"}
  }

  /** The dispatcher the inputs were prepared for: whether its arguments are fixed to be empty, and whether the file
      at the script path is the pinned one. */
  datatype Transport = Transport(fixed: bool, pinned: bool)

  datatype Invalid = InvalidTransport

  /** validate_args_transport, true when it raises nothing. */
  predicate TransportValid(load: string -> Option<Value>, expected: Value, transport: Option<Transport>) {
    transport.Some? ==>
      && WellShaped(expected) && expected.fields["scriptPath"].Text? && expected.fields["args"].Object?
      && (transport.value.fixed ==> expected.fields["args"] == Object(map[]))
      && Decoded(load, expected.fields["args"]).Some? && transport.value.pinned
  }

  /** When a pinned transport is valid: the expected inputs have exactly the two keys, a textual path and an object
      without numbers that JavaScript cannot hold, empty where the dispatcher fixes it. */
  lemma TransportMeans(load: string -> Option<Value>, expected: Value, t: Transport)
    ensures TransportValid(load, expected, Some(t)) <==>
              && expected.Object? && expected.fields.Keys == {"scriptPath", "args"}
              && expected.fields["scriptPath"].Text? && expected.fields["args"].Object?
              && (forall part :: PartOf(part, expected.fields["args"]) ==> !Unsafe(part))
              && (t.fixed ==> expected.fields["args"].fields == map[]) && t.pinned
  {
    hide Decoded, PartOf, Unsafe;
    if WellShaped(expected) {
      DecodedMeans(load, expected.fields["args"], expected.fields["args"]);
      DecodedItself(load, expected.fields["args"]);
    }
  }

  lemma DecodedItself(load: string -> Option<Value>, args: Value)
    ensures !args.Text? && Decoded(load, args).Some? ==> Decoded(load, args).value == args
  {
  }

  method InputsMatch(load: string -> Option<Value>, inputs: Value, expected: Value, transport: Option<Transport>)
    returns (r: Result<bool, Invalid>)
    ensures r.Ok? <==> TransportValid(load, expected, transport)
    ensures r == Ok(true) <==>
              && TransportValid(load, expected, transport) && WellShaped(inputs) && WellShaped(expected)
              && inputs.fields["scriptPath"].Text? && inputs.fields["scriptPath"] == expected.fields["scriptPath"]
              && (var args := inputs.fields["args"];
                  var actual := if transport.Some? then Decoded(load, args) else Some(args);
                  actual.Some? && SameJson(actual.value, expected.fields["args"]))
  {
    hide SameJson, Decoded;
    if !TransportValid(load, expected, transport) {
      return Err(InvalidTransport);
    }
    if !WellShaped(inputs) || !WellShaped(expected) || !inputs.fields["scriptPath"].Text?
       || inputs.fields["scriptPath"] != expected.fields["scriptPath"] {
      return Ok(false);
    }
    var actual := if transport.Some? then Decoded(load, inputs.fields["args"]) else Some(inputs.fields["args"]);
    if actual.None? {
      return Ok(false);
    }
    CanonicalDecides(actual.value, expected.fields["args"]);
    return Ok(Canonical(actual.value) == Canonical(expected.fields["args"]));
  }

  /** Under a dispatcher with fixed arguments only empty arguments match. */
  lemma FixedArgumentsAreEmpty(load: string -> Option<Value>, expected: Value, transport: Transport, actual: Value)
    requires TransportValid(load, expected, Some(transport)) && transport.fixed
    ensures SameJson(actual, expected.fields["args"]) <==> actual == Object(map[])
  {
    assert actual.Object? && actual.fields.Keys == {} ==> actual.fields == map[];
  }
}
