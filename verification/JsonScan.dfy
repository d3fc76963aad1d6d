/** The duplicate-name scanner of agents/geak/argument_transport.py: stringToken, whitespace and scan share one
    index into a text that JSON.parse has accepted. */
module JsonScan {
  import opened Wrappers
  import opened JsonText

  // ---- JSON.parse of one string token ----

  function ParseBody(s: Units): Option<Units> {
    if s == [] then Some([])
    else if s[0] == BACKSLASH then
      if |s| >= 6 && s[1] == LETTER_U then Then(Hex(s[2], s[3], s[4], s[5]), ParseBody(s[6..]))
      else if |s| >= 2 then Then(Escaped(s[1]), ParseBody(s[2..]))
      else None
    else Then(if s[0] >= 0x20 && s[0] != QUOTE then Some(s[0]) else None, ParseBody(s[1..]))
  }

  function Then(first: Option<int>, rest: Option<Units>): Option<Units> {
    if first.Some? && rest.Some? then Some([first.value] + rest.value) else None
  }

  function ParseToken(s: Units): Option<Units> {
    if |s| >= 2 && s[0] == QUOTE && s[|s| - 1] == QUOTE then ParseBody(s[1..|s| - 1]) else None
  }

  lemma PlainUnits(c: int)
    requires ItemOk(Plain(c))
    ensures forall k :: 0 <= k < |Utf16(c)| ==> Utf16(c)[k] >= 0x20 && Utf16(c)[k] != QUOTE && Utf16(c)[k] != BACKSLASH
  {
  }

  /** A token parses to what its items mean. */
  lemma {:induction false} BodyParses(items: seq<Item>)
    requires ItemsOk(items)
    ensures ParseBody(Body(items)) == Some(UnitsOf(items))
  {
    hide Escaped, Hex, Utf16;
    if items != [] {
      BodyParses(items[1..]);
      var s, rest := Body(items), Body(items[1..]);
      match items[0]
      case Plain(c) =>
        PlainUnits(c);
        var u := Utf16(c);
        assert s == u + rest && s[0] == u[0];
        assert UnitsOf(items) == u + UnitsOf(items[1..]);
        if |u| == 1 {
          assert s[1..] == rest && u == [u[0]];
        } else {
          TwoUnitsParse(u[0], u[1], rest);
          assert s == [u[0], u[1]] + rest && u == [u[0], u[1]];
        }
      case Escape(e) =>
        EscapesAreNotU(e);
        OneUnit(Escaped(e).value);
        assert s[2..] == rest;
      case Unicode(h0, h1, h2, h3) =>
        OneUnit(Hex(h0, h1, h2, h3).value);
        assert s[6..] == rest;
    }
  }

  lemma TwoUnitsParse(u: int, v: int, rest: Units)
    requires u >= 0x20 && v >= 0x20 && {u, v} !! {QUOTE, BACKSLASH}
    ensures ParseBody(rest).Some? ==> ParseBody([u, v] + rest) == Some([u, v] + ParseBody(rest).value)
  {
    var s := [u, v] + rest;
    assert s[1..] == [v] + rest && s[1..][1..] == rest;
    assert ParseBody(s[1..]) == Then(Some(v), ParseBody(rest));
    assert ParseBody(rest).Some? ==> [u] + ([v] + ParseBody(rest).value) == [u, v] + ParseBody(rest).value;
  }

  lemma OneUnit(c: int)
    requires c < 0x10000
    ensures Utf16(c) == [c]
  {
  }

  lemma EscapesAreNotU(e: int)
    requires Escaped(e).Some?
    ensures e != LETTER_U && Escaped(e).value < 0x10000
  {
  }

  // ---- What the scanner can see of a text ----

  predicate Delimiter(u: int) {
    White(u) || u == COMMA || u == RIGHT_BRACE || u == RIGHT_BRACKET
  }

  /** What may follow a value. */
  predicate Follows(rest: Units) {
    rest == [] || Delimiter(rest[0])
  }

  lemma NumberHasNoDelimiter(n: Number)
    requires NumberOk(n)
    ensures forall k :: 0 <= k < |NumberText(n)| ==> 0x2B <= NumberText(n)[k] <= 0x65 && NumberText(n)[k] != COMMA
                                                     && (NumberText(n)[k] <= 0x45 || NumberText(n)[k] == 0x65)
    ensures NumberText(n) != []
  {
  }

  /** Numbers and words hold no delimiter and begin with none of the marks that scan looks for. */
  lemma ScalarText(t: Tree)
    requires TreeOk(t) && (t.Num? || t.Lit?)
    ensures Text(t) != [] && Text(t)[0] != QUOTE && Text(t)[0] != LEFT_BRACE && Text(t)[0] != LEFT_BRACKET
    ensures forall k :: 0 <= k < |Text(t)| ==> !Delimiter(Text(t)[k])
  {
    if t.Num? {
      hide NumberText, NumberOk;
      NumberHasNoDelimiter(t.number);
    }
  }

  lemma FirstOfText(t: Tree)
    requires TreeOk(t)
    ensures Text(t) != [] && !White(Text(t)[0])
    ensures Text(t)[0] == QUOTE <==> t.Str?
    ensures Text(t)[0] == LEFT_BRACE <==> t.EmptyObject? || t.Dict?
    ensures Text(t)[0] == LEFT_BRACKET <==> t.EmptyArray? || t.List?
    ensures Text(t)[0] != RIGHT_BRACKET && Text(t)[0] != RIGHT_BRACE && Text(t)[0] != COMMA
  {
  }

  function Size(t: Tree): nat {
    match t
    case List(_, es) => 1 + SizeElems(es)
    case Dict(_, ms) => 1 + SizeMembers(ms)
    case _ => 0
  }

  function SizeElems(es: Elems): nat {
    1 + Size(es.value) + if es.NextElem? then SizeElems(es.rest) else 0
  }

  function SizeMembers(ms: Members): nat {
    1 + Size(ms.value) + if ms.NextMember? then SizeMembers(ms.rest) else 0
  }

  // ---- Names seen so far ----

  /** Some name has been seen before, among the given ones or earlier in the list. */
  predicate Clash(seen: set<Units>, ms: Members)
    requires MembersOk(ms)
    decreases ms
  {
    var name := UnitsOf(ms.name.items);
    name in seen || (ms.NextMember? && Clash(seen + {name}, ms.rest))
  }

  ghost predicate SomeIn<T>(s: seq<T>, seen: set<T>) {
    exists k :: 0 <= k < |s| && s[k] in seen
  }

  lemma OneMore<T>(seen: set<T>, x: T, s: seq<T>)
    ensures SomeIn([x] + s, seen) || Repeats([x] + s) <==> x in seen || SomeIn(s, seen + {x}) || Repeats(s)
  {
    var t := [x] + s;
    assert t[0] == x;
    assert forall k :: 0 <= k < |s| ==> t[k + 1] == s[k];
    assert forall k :: 1 <= k < |t| ==> t[k] == s[k - 1];
    if SomeIn(s, seen + {x}) && !SomeIn(s, seen) {
      var k :| 0 <= k < |s| && s[k] in seen + {x};
      assert t[0] == t[k + 1];
    }
  }

  lemma {:induction false} ClashMeans(seen: set<Units>, ms: Members)
    requires MembersOk(ms)
    ensures Clash(seen, ms) <==> SomeIn(UnitNames(ms), seen) || Repeats(UnitNames(ms))
    decreases ms
  {
    hide UnitsOf, SomeIn, Repeats;
    var name := UnitsOf(ms.name.items);
    if ms.NextMember? {
      ClashMeans(seen + {name}, ms.rest);
      OneMore(seen, name, UnitNames(ms.rest));
    } else {
      OneMore(seen, name, []);
      assert [name] + [] == [name];
      NoneInNothing(seen + {name});
    }
  }

  lemma NoneInNothing(seen: set<Units>)
    ensures !SomeIn([], seen) && !Repeats<Units>([])
  {
  }

  lemma RepeatsInBoth(a: seq<Members>, b: seq<Members>)
    ensures AnyRepeats(a + b) <==> AnyRepeats(a) || AnyRepeats(b)
  {
    var c := a + b;
    assert forall k :: 0 <= k < |a| ==> c[k] == a[k];
    assert forall k :: 0 <= k < |b| ==> c[|a| + k] == b[k];
  }

  lemma RepeatsInOne(ms: Members)
    requires MembersOk(ms)
    ensures AnyRepeats([ms]) <==> Clash({}, ms)
  {
    hide UnitNames;
    ClashMeans({}, ms);
    assert [ms][0] == ms;
  }

  // ---- The scanner ----

  class Scanner {
    const raw: Units
    var i: nat

    constructor (raw: Units)
      ensures this.raw == raw && i == 0
    {
      this.raw, i := raw, 0;
    }

    method Whitespace(ghost pad: Units, ghost tail: Units)
      requires i <= |raw| && raw[i..] == pad + tail && AllWhite(pad) && (tail == [] || !White(tail[0]))
      modifies this`i
      ensures i <= |raw| && raw[i..] == tail
    {
      ghost var left := pad;
      while i < |raw| && White(raw[i])
        invariant i <= |raw| && raw[i..] == left + tail && AllWhite(left)
        decreases |raw| - i
      {
        assert raw[i] == raw[i..][0] && raw[i + 1..] == raw[i..][1..];
        left := left[1..];
        i := i + 1;
      }
      Head(raw, i, left, tail);
    }

    /** Consumes one string and returns what it means. */
    method StringToken(ghost items: seq<Item>, ghost tail: Units) returns (name: Units)
      requires i <= |raw| && raw[i..] == Token(items) + tail && ItemsOk(items)
      modifies this`i
      ensures i <= |raw| && raw[i..] == tail && name == UnitsOf(items)
    {
      hide UnitsOf, ItemsOk, Body, Unmarked, ParseToken;
      var start := i;
      Advance(raw, i, QUOTE, Body(items) + [QUOTE] + tail);
      i := i + 1;
      NothingMarked();
      ghost var pending: Units, left := [], items;
      assert raw[i..] == pending + Body(left) + [QUOTE] + tail;
      while raw[i] != QUOTE
        invariant i < |raw| && raw[i..] == pending + Body(left) + [QUOTE] + tail
        invariant ItemsOk(left) && Unmarked(pending)
        decreases |raw| - i
      {
        pending, left := TokenStep(raw, i, pending, left, tail);
        i := i + if raw[i] == BACKSLASH then 2 else 1;
      }
      TokenEnd(raw, i, pending, left, tail);
      i := i + 1;
      SliceIs(raw, start, i, Token(items), tail);
      TokenParses(items);
      name := ParseToken(raw[start..i]).value;
    }

    /** Consumes exactly one value, or throws when one of its objects repeats a name. */
    method Scan(ghost pad: Units, ghost t: Tree, ghost rest: Units) returns (thrown: bool)
      requires i <= |raw| && raw[i..] == pad + Text(t) + rest
      requires AllWhite(pad) && TreeOk(t) && Follows(rest)
      modifies this`i
      ensures i <= |raw| && (thrown <==> Duplicated(t))
      ensures !thrown ==> raw[i..] == rest
      decreases Size(t), 1
    {
      hide ItemsOk, Token, NumberOk, NumberText, WordText, AllWhite, White, Duplicated, Size, SizeElems, SizeMembers,
           ElemsText, MembersText, ElemsOk, MembersOk;
      FirstOfText(t);
      assert pad + Text(t) + rest == pad + (Text(t) + rest);
      Whitespace(pad, Text(t) + rest);
      Head(raw, i, Text(t), rest);
      NoObjects(t);
      if raw[i] == QUOTE {
        var name := StringToken(t.items, rest);
        return false;
      }
      if raw[i] == LEFT_BRACE {
        thrown := ScanObject(t, rest);
        return;
      }
      if raw[i] == LEFT_BRACKET {
        thrown := ScanArray(t, rest);
        return;
      }
      SkipScalar(t, rest);
      thrown := false;
    }

    /** The part of scan for arrays. */
    method ScanArray(ghost t: Tree, ghost rest: Units) returns (thrown: bool)
      requires i <= |raw| && raw[i..] == Text(t) + rest
      requires TreeOk(t) && (t.EmptyArray? || t.List?) && Follows(rest)
      modifies this`i
      ensures i <= |raw| && (thrown <==> Duplicated(t))
      ensures !thrown ==> raw[i..] == rest
      decreases Size(t), 0
    {
      hide AllWhite, White, Duplicated, ElemsText, ElemsOk, AnyRepeats, SizeElems, ObjectsInElems, Follows;
      NoObjects(t);
      ghost var body: Units := if t.List? then ElemsText(t.elems) else [RIGHT_BRACKET];
      assert Text(t) == [LEFT_BRACKET] + t.pad + body;
      assert raw[i..] == [LEFT_BRACKET] + (t.pad + body + rest);
      Advance(raw, i, LEFT_BRACKET, t.pad + body + rest);
      i := i + 1;
      assert t.pad + body + rest == t.pad + (body + rest);
      BracketIsNotWhite();
      if t.List? {
        ElemsHead(t.elems);
      }
      Whitespace(t.pad, body + rest);
      Head(raw, i, body, rest);
      if raw[i] == RIGHT_BRACKET {
        Advance(raw, i, RIGHT_BRACKET, rest);
        i := i + 1;
        return false;
      }
      thrown := ScanElems(t.elems, rest);
    }

    /** The loop over the elements, up to the closing bracket. */
    method ScanElems(ghost elems: Elems, ghost rest: Units) returns (thrown: bool)
      requires i <= |raw| && raw[i..] == ElemsText(elems) + rest && ElemsOk(elems)
      modifies this`i
      ensures i <= |raw| && (thrown <==> AnyRepeats(ObjectsInElems(elems)))
      ensures !thrown ==> raw[i..] == rest
      decreases SizeElems(elems), 2
    {
      hide AllWhite, White, Duplicated, ElemsText, ElemsOk, AnyRepeats, SizeElems, ObjectsInElems, Follows,
           TreeOk, Text, Size, ElemsClose;
      ghost var p: Units, es := [], elems;
      assert raw[i..] == p + ElemsText(es) + rest;
      NothingIsWhite();
      while true
        invariant i <= |raw| && raw[i..] == p + ElemsText(es) + rest && AllWhite(p) && ElemsOk(es)
        invariant SizeElems(es) <= SizeElems(elems)
        invariant AnyRepeats(ObjectsInElems(elems)) <==> AnyRepeats(ObjectsInElems(es))
        decreases SizeElems(es)
      {
        ElemsParts(es);
        ghost var close := ElemsClose(es) + rest;
        ElemsFollow(p, es, rest);
        var inner := Scan(p, es.value, es.after + close);
        if inner {
          return true;
        }
        Whitespace(es.after, close);
        ElemsNext(raw, i, es, rest);
        i := i + 1;
        if raw[i - 1] == RIGHT_BRACKET {
          return false;
        }
        p, es := es.pad, es.rest;
      }
    }

    /** The part of scan for objects. */
    method ScanObject(ghost t: Tree, ghost rest: Units) returns (thrown: bool)
      requires i <= |raw| && raw[i..] == Text(t) + rest
      requires TreeOk(t) && (t.EmptyObject? || t.Dict?) && Follows(rest)
      modifies this`i
      ensures i <= |raw| && (thrown <==> Duplicated(t))
      ensures !thrown ==> raw[i..] == rest
      decreases Size(t), 0
    {
      hide AllWhite, White, Duplicated, MembersText, MembersOk, AnyRepeats, SizeMembers, ObjectsInMembers, Follows;
      NoObjects(t);
      ghost var body: Units := if t.Dict? then MembersText(t.members) else [RIGHT_BRACE];
      assert Text(t) == [LEFT_BRACE] + t.pad + body;
      assert raw[i..] == [LEFT_BRACE] + (t.pad + body + rest);
      Advance(raw, i, LEFT_BRACE, t.pad + body + rest);
      i := i + 1;
      assert t.pad + body + rest == t.pad + (body + rest);
      BracketIsNotWhite();
      if t.Dict? {
        MembersHead(t.members);
      }
      Whitespace(t.pad, body + rest);
      Head(raw, i, body, rest);
      if raw[i] == RIGHT_BRACE {
        Advance(raw, i, RIGHT_BRACE, rest);
        i := i + 1;
        return false;
      }
      thrown := ScanMembers(t.members, rest);
    }

    /** The loop over the members, up to the closing brace. */
    method ScanMembers(ghost members: Members, ghost rest: Units) returns (thrown: bool)
      requires i <= |raw| && raw[i..] == MembersText(members) + rest && MembersOk(members)
      modifies this`i
      ensures i <= |raw| && (thrown <==> AnyRepeats([members] + ObjectsInMembers(members)))
      ensures !thrown ==> raw[i..] == rest
      decreases SizeMembers(members), 2
    {
      hide AllWhite, White, Duplicated, MembersText, MembersOk, AnyRepeats, SizeMembers, ObjectsInMembers,
           Follows, TreeOk, Text, Size, AfterName, UnitsOf, ItemsOk, Token, Clash, Left;
      var keys: set<Units> := {};
      ghost var p: Units, ms := [], members;
      assert raw[i..] == p + (MembersText(ms) + rest);
      NothingIsWhite();
      NothingSeen(members);
      while true
        invariant i <= |raw| && raw[i..] == p + (MembersText(ms) + rest) && AllWhite(p) && MembersOk(ms)
        invariant SizeMembers(ms) <= SizeMembers(members)
        invariant AnyRepeats([members] + ObjectsInMembers(members)) <==> Left(keys, ms)
        decreases SizeMembers(ms)
      {
        MembersParts(ms);
        LeftParts(keys, ms);
        var key := ScanName(p, ms, rest);
        if key in keys {
          return true;
        }
        keys := keys + {key};
        var inner, closed := ScanMember(ms, rest);
        if inner {
          return true;
        }
        if closed {
          return false;
        }
        p, ms := ms.pad, ms.rest;
      }
    }

    method ScanName(ghost p: Units, ghost ms: Members, ghost rest: Units) returns (key: Units)
      requires i <= |raw| && raw[i..] == p + (MembersText(ms) + rest) && AllWhite(p) && MembersOk(ms)
      modifies this`i
      ensures i <= |raw| && raw[i..] == ms.name.before + ([COLON] + AfterName(ms, rest))
      ensures key == UnitsOf(ms.name.items)
    {
      hide AllWhite, White, MembersText, MembersOk, AnyRepeats, SizeMembers, ObjectsInMembers, Follows, TreeOk, Text,
           AfterName, UnitsOf, ItemsOk, Token, Duplicated;
      MembersParts(ms);
      MembersHead(ms);
      MembersFollow(ms, rest);
      Whitespace(p, MembersText(ms) + rest);
      key := StringToken(ms.name.items, ms.name.before + ([COLON] + AfterName(ms, rest)));
    }

    /** What comes after a name: the colon, the value, and the unit that ends the member. */
    method ScanMember(ghost ms: Members, ghost rest: Units) returns (thrown: bool, closed: bool)
      requires i <= |raw| && raw[i..] == ms.name.before + ([COLON] + AfterName(ms, rest)) && MembersOk(ms)
      modifies this`i
      ensures i <= |raw| && (thrown <==> Duplicated(ms.value))
      ensures !thrown ==> (closed <==> ms.LastMember?)
      ensures !thrown ==> raw[i..] == if ms.LastMember? then rest else ms.pad + (MembersText(ms.rest) + rest)
      decreases SizeMembers(ms), 0
    {
      hide AllWhite, White, Duplicated, MembersText, MembersOk, AnyRepeats, SizeMembers, ObjectsInMembers,
           Follows, TreeOk, Text, Size, MembersClose, Token;
      ghost var close := MembersClose(ms) + rest;
      MembersParts(ms);
      MembersHead(ms);
      MembersFollow(ms, rest);
      Whitespace(ms.name.before, [COLON] + AfterName(ms, rest));
      Advance(raw, i, COLON, AfterName(ms, rest));
      i := i + 1;
      thrown := Scan(ms.name.gap, ms.value, ms.after + close);
      closed := false;
      if !thrown {
        Whitespace(ms.after, close);
        MembersNext(raw, i, ms, rest);
        i := i + 1;
        closed := raw[i - 1] == RIGHT_BRACE;
      }
    }

    /** The last loop of scan: everything up to a delimiter. */
    method SkipScalar(ghost t: Tree, ghost rest: Units)
      requires i <= |raw| && raw[i..] == Text(t) + rest && TreeOk(t) && (t.Num? || t.Lit?) && Follows(rest)
      modifies this`i
      ensures i <= |raw| && raw[i..] == rest
    {
      hide Text, TreeOk;
      ScalarText(t);
      ghost var left := Text(t);
      while i < |raw| && !Delimiter(raw[i])
        invariant i <= |raw| && raw[i..] == left + rest
        invariant forall k :: 0 <= k < |left| ==> !Delimiter(left[k])
        decreases |raw| - i
      {
        Head(raw, i, left, rest);
        assert raw[i + 1..] == raw[i..][1..];
        left := left[1..];
        i := i + 1;
      }
      Head(raw, i, left, rest);
    }
  }

  /** Where the text at an index is two pieces, the unit there is the first of the first nonempty one. */
  lemma Head(raw: Units, i: nat, a: Units, b: Units)
    requires i <= |raw| && raw[i..] == a + b
    ensures a + b != [] ==> i < |raw| && raw[i] == (a + b)[0]
    ensures a != [] ==> i < |raw| && raw[i] == a[0]
    ensures a == [] && b != [] ==> i < |raw| && raw[i] == b[0]
  {
  }

  lemma Advance(raw: Units, i: nat, u: int, s: Units)
    requires i <= |raw| && raw[i..] == [u] + s
    ensures i < |raw| && raw[i] == u && raw[i + 1..] == s
  {
  }

  lemma NothingIsWhite()
    ensures AllWhite([])
  {
  }

  lemma BracketIsNotWhite()
    ensures !White(RIGHT_BRACKET) && !White(RIGHT_BRACE)
  {
  }

  /** Values that are no containers hold no object. */
  lemma NoObjects(t: Tree)
    ensures Duplicated(t) <==> (t.List? && AnyRepeats(ObjectsInElems(t.elems)))
                               || (t.Dict? && AnyRepeats([t.members] + ObjectsInMembers(t.members)))
  {
  }

  /** What follows the white space after an element. */
  function ElemsClose(es: Elems): (u: Units)
    ensures u != []
  {
    if es.LastElem? then [RIGHT_BRACKET] else [COMMA] + es.pad + ElemsText(es.rest)
  }

  lemma ElemsHead(es: Elems)
    requires ElemsOk(es)
    ensures ElemsText(es) != [] && ElemsText(es)[0] != RIGHT_BRACKET && !White(ElemsText(es)[0])
  {
  }

  lemma ElemsParts(es: Elems)
    requires ElemsOk(es)
    ensures TreeOk(es.value) && AllWhite(es.after) && (es.NextElem? ==> AllWhite(es.pad) && ElemsOk(es.rest))
    ensures Size(es.value) < SizeElems(es) && (es.NextElem? ==> SizeElems(es.rest) < SizeElems(es))
    ensures AnyRepeats(ObjectsInElems(es))
            <==> Duplicated(es.value) || (es.NextElem? && AnyRepeats(ObjectsInElems(es.rest)))
  {
    hide Text, AnyRepeats, Objects, TreeOk, AllWhite;
    if es.NextElem? {
      RepeatsInBoth(Objects(es.value), ObjectsInElems(es.rest));
    } else {
      assert Objects(es.value) + [] == Objects(es.value);
    }
  }

  lemma ElemsTextIs(es: Elems)
    ensures ElemsText(es) == Text(es.value) + es.after + ElemsClose(es)
  {
  }

  lemma Grouping(p: Units, a: Units, b: Units, c: Units, d: Units)
    ensures p + (a + b + c) + d == p + a + (b + (c + d))
    ensures a + b + c + d == a + b + (c + d)
  {
  }

  lemma CloseHead(es: Elems, rest: Units)
    requires AllWhite(es.after)
    ensures Follows(es.after + (ElemsClose(es) + rest))
    ensures ElemsClose(es) + rest != [] && !White((ElemsClose(es) + rest)[0])
  {
  }

  lemma ElemsFollow(p: Units, es: Elems, rest: Units)
    requires ElemsOk(es) && AllWhite(es.after)
    ensures Follows(es.after + (ElemsClose(es) + rest))
    ensures p + ElemsText(es) + rest == p + Text(es.value) + (es.after + (ElemsClose(es) + rest))
    ensures ElemsClose(es) + rest != [] && !White((ElemsClose(es) + rest)[0])
  {
    hide ElemsText, ElemsOk, Text, ElemsClose, White, Follows, AnyRepeats, ObjectsInElems;
    ElemsTextIs(es);
    CloseHead(es, rest);
    Grouping(p, Text(es.value), es.after, ElemsClose(es), rest);
  }

  /** What the unit after an element says. */
  lemma ElemsNext(raw: Units, i: nat, es: Elems, rest: Units)
    requires i <= |raw| && raw[i..] == ElemsClose(es) + rest
    ensures i < |raw| && (raw[i] == RIGHT_BRACKET <==> es.LastElem?)
    ensures raw[i + 1..] == if es.LastElem? then rest else es.pad + ElemsText(es.rest) + rest
  {
    hide ElemsText;
    var close := ElemsClose(es);
    assert close + rest == [close[0]] + (close[1..] + rest);
    Advance(raw, i, close[0], close[1..] + rest);
  }

  /** What is still to be found among the members that are left. */
  ghost predicate Left(seen: set<Units>, ms: Members)
    requires MembersOk(ms)
  {
    Clash(seen, ms) || AnyRepeats(ObjectsInMembers(ms))
  }

  lemma NothingSeen(ms: Members)
    requires MembersOk(ms)
    ensures AnyRepeats([ms] + ObjectsInMembers(ms)) <==> Left({}, ms)
  {
    hide AnyRepeats, Clash, ObjectsInMembers, MembersOk;
    RepeatsInBoth([ms], ObjectsInMembers(ms));
    RepeatsInOne(ms);
  }

  lemma LeftParts(seen: set<Units>, ms: Members)
    requires MembersOk(ms)
    ensures Left(seen, ms) <==>
              var name := UnitsOf(ms.name.items);
              name in seen || Duplicated(ms.value) || (ms.NextMember? && Left(seen + {name}, ms.rest))
  {
    hide AnyRepeats, UnitsOf, Duplicated, ObjectsInMembers;
    MembersParts(ms);
  }

  /** What follows the white space after a member. */
  function MembersClose(ms: Members): (u: Units)
    ensures u != []
  {
    if ms.LastMember? then [RIGHT_BRACE] else [COMMA] + ms.pad + MembersText(ms.rest)
  }

  function AfterName(ms: Members, rest: Units): Units {
    ms.name.gap + Text(ms.value) + (ms.after + (MembersClose(ms) + rest))
  }

  lemma MembersHead(ms: Members)
    ensures MembersText(ms) != [] && MembersText(ms)[0] == QUOTE && !White(QUOTE) && !White(COLON)
  {
  }

  lemma MembersParts(ms: Members)
    requires MembersOk(ms)
    ensures ItemsOk(ms.name.items) && AllWhite(ms.name.before) && AllWhite(ms.name.gap)
    ensures TreeOk(ms.value) && AllWhite(ms.after) && (ms.NextMember? ==> AllWhite(ms.pad) && MembersOk(ms.rest))
    ensures Size(ms.value) < SizeMembers(ms) && (ms.NextMember? ==> SizeMembers(ms.rest) < SizeMembers(ms))
    ensures AnyRepeats(ObjectsInMembers(ms))
            <==> Duplicated(ms.value) || (ms.NextMember? && AnyRepeats(ObjectsInMembers(ms.rest)))
  {
    hide Text, AnyRepeats, Objects, TreeOk, AllWhite, ItemsOk;
    if ms.NextMember? {
      RepeatsInBoth(Objects(ms.value), ObjectsInMembers(ms.rest));
    } else {
      assert Objects(ms.value) + [] == Objects(ms.value);
    }
  }

  lemma MembersTextIs(ms: Members)
    ensures MembersText(ms) == NameText(ms.name) + Text(ms.value) + ms.after + MembersClose(ms)
  {
  }

  lemma NameGrouping(a: Units, b: Units, c: Units, d: Units, v: Units, e: Units, f: Units, r: Units)
    ensures (a + b + c + d) + v + e + f + r == a + (b + (c + (d + v + (e + (f + r)))))
  {
  }

  lemma MembersFollow(ms: Members, rest: Units)
    requires MembersOk(ms)
    ensures Follows(ms.after + (MembersClose(ms) + rest))
    ensures MembersText(ms) + rest
            == Token(ms.name.items)
               + (ms.name.before + ([COLON] + AfterName(ms, rest)))
    ensures MembersClose(ms) + rest != [] && !White((MembersClose(ms) + rest)[0])
  {
    hide MembersText, MembersOk, Text, Token, MembersClose, White, Follows, AnyRepeats, ObjectsInMembers;
    MembersParts(ms);
    MembersTextIs(ms);
    MemberCloseHead(ms, rest);
    NameGrouping(Token(ms.name.items), ms.name.before, [COLON], ms.name.gap, Text(ms.value), ms.after,
                 MembersClose(ms), rest);
  }

  lemma MemberCloseHead(ms: Members, rest: Units)
    requires AllWhite(ms.after)
    ensures Follows(ms.after + (MembersClose(ms) + rest))
    ensures MembersClose(ms) + rest != [] && !White((MembersClose(ms) + rest)[0])
  {
  }

  lemma MembersNext(raw: Units, i: nat, ms: Members, rest: Units)
    requires i <= |raw| && raw[i..] == MembersClose(ms) + rest
    ensures i < |raw| && (raw[i] == RIGHT_BRACE <==> ms.LastMember?)
    ensures raw[i + 1..] == if ms.LastMember? then rest else ms.pad + (MembersText(ms.rest) + rest)
  {
    hide MembersText;
    var close := MembersClose(ms);
    assert close + rest == [close[0]] + (close[1..] + rest);
    Advance(raw, i, close[0], close[1..] + rest);
    assert ms.NextMember? ==> close[1..] + rest == ms.pad + (MembersText(ms.rest) + rest);
  }

  /** No unit that ends or escapes. */
  predicate Unmarked(s: Units) {
    forall k :: 0 <= k < |s| ==> s[k] != QUOTE && s[k] != BACKSLASH
  }

  lemma NothingMarked()
    ensures Unmarked([])
  {
  }

  lemma TokenParses(items: seq<Item>)
    requires ItemsOk(items)
    ensures ParseToken(Token(items)) == Some(UnitsOf(items))
  {
    hide UnitsOf, Body, ParseBody;
    BodyParses(items);
    assert Token(items)[1..|Token(items)| - 1] == Body(items);
  }

  lemma SliceIs(raw: Units, start: nat, end: nat, s: Units, tail: Units)
    requires start <= end <= |raw| && raw[start..] == s + tail && raw[end..] == tail
    ensures raw[start..end] == s
  {
  }

  lemma ItemUnits(item: Item)
    requires ItemOk(item)
    ensures var u := ItemText(item);
            && u[0] != QUOTE && (u[0] == BACKSLASH ==> |u| >= 2 && Unmarked(u[2..]))
            && (u[0] != BACKSLASH ==> Unmarked(u[1..]))
  {
  }

  /** One turn of the loop: what is left of the current item, and the items after it. */
  lemma TokenStep(raw: Units, i: nat, pending: Units, left: seq<Item>, tail: Units) returns (p: Units, rest: seq<Item>)
    requires i < |raw| && raw[i] != QUOTE && raw[i..] == pending + Body(left) + [QUOTE] + tail
    requires ItemsOk(left) && Unmarked(pending)
    ensures var n := i + if raw[i] == BACKSLASH then 2 else 1;
            n < |raw| && raw[n..] == p + Body(rest) + [QUOTE] + tail
    ensures ItemsOk(rest) && Unmarked(p)
  {
    hide ItemOk, ItemText;
    assert raw[i] == raw[i..][0];
    if pending != [] {
      p, rest := pending[1..], left;
      assert raw[i + 1..] == raw[i..][1..];
      assert raw[i] == pending[0];
    } else {
      Head(raw, i, Body(left), [QUOTE] + tail);
      ItemUnits(left[0]);
      var u := ItemText(left[0]);
      assert raw[i] == u[0];
      var n := if raw[i] == BACKSLASH then 2 else 1;
      p, rest := u[n..], left[1..];
      assert raw[i + n..] == raw[i..][n..];
      assert raw[i..] == u + (Body(rest) + [QUOTE] + tail);
    }
  }

  lemma TokenEnd(raw: Units, i: nat, pending: Units, left: seq<Item>, tail: Units)
    requires i < |raw| && raw[i] == QUOTE && raw[i..] == pending + Body(left) + [QUOTE] + tail
    requires ItemsOk(left) && Unmarked(pending)
    ensures raw[i + 1..] == tail
  {
  }
}
