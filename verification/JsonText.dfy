/** JSON texts by the grammar of RFC 8259 sections 2 to 7, as syntax trees that keep every character, and what
    their strings mean: to JavaScript a sequence of 16-bit code units, to Python one of code points. */
module JsonText {
  import opened Wrappers

  /** 16-bit code units, and code points. */
  type Units = seq<int>
  type Points = seq<int>

  const QUOTE := 0x22
  const BACKSLASH := 0x5C
  const LEFT_BRACE := 0x7B
  const RIGHT_BRACE := 0x7D
  const LEFT_BRACKET := 0x5B
  const RIGHT_BRACKET := 0x5D
  const COMMA := 0x2C
  const COLON := 0x3A
  const LETTER_U := 0x75

  predicate White(u: int) {
    u == 0x20 || u == 0x09 || u == 0x0D || u == 0x0A
  }

  predicate AllWhite(s: Units) {
    forall k :: 0 <= k < |s| ==> White(s[k])
  }

  // ---- Strings ----

  /** One element of a string: a character as it is, a two-character escape, or a four-digit one. */
  datatype Item = Plain(c: int) | Escape(e: int) | Unicode(h0: int, h1: int, h2: int, h3: int)

  function Escaped(e: int): Option<int> {
    if e == 0x22 || e == 0x5C || e == 0x2F then Some(e)
    else if e == 0x62 then Some(0x08)
    else if e == 0x66 then Some(0x0C)
    else if e == 0x6E then Some(0x0A)
    else if e == 0x72 then Some(0x0D)
    else if e == 0x74 then Some(0x09)
    else None
  }

  function HexDigit(h: int): (d: Option<int>)
    ensures d.Some? ==> 0 <= d.value < 16
  {
    if 0x30 <= h <= 0x39 then Some(h - 0x30)
    else if 0x41 <= h <= 0x46 then Some(h - 0x41 + 10)
    else if 0x61 <= h <= 0x66 then Some(h - 0x61 + 10)
    else None
  }

  function Hex(h0: int, h1: int, h2: int, h3: int): (c: Option<int>)
    ensures c.Some? ==> 0 <= c.value < 0x10000
  {
    if HexDigit(h0).Some? && HexDigit(h1).Some? && HexDigit(h2).Some? && HexDigit(h3).Some? then
      Some(((HexDigit(h0).value * 16 + HexDigit(h1).value) * 16 + HexDigit(h2).value) * 16 + HexDigit(h3).value)
    else None
  }

  predicate IsHigh(c: int) {
    0xD800 <= c <= 0xDBFF
  }

  predicate IsLow(c: int) {
    0xDC00 <= c <= 0xDFFF
  }

  /** Characters of a text are never halves of a surrogate pair; escapes may be. */
  predicate ItemOk(item: Item) {
    match item
    case Plain(c) => 0x20 <= c <= 0x10FFFF && c != QUOTE && c != BACKSLASH && !IsHigh(c) && !IsLow(c)
    case Escape(e) => Escaped(e).Some?
    case Unicode(h0, h1, h2, h3) => Hex(h0, h1, h2, h3).Some?
  }

  predicate ItemsOk(items: seq<Item>) {
    forall k :: 0 <= k < |items| ==> ItemOk(items[k])
  }

  /** UTF-16 (RFC 2781): one unit, or a surrogate pair. */
  function Utf16(c: int): (u: Units)
    ensures |u| == if c >= 0x10000 then 2 else 1
  {
    if c >= 0x10000 then [0xD800 + (c - 0x10000) / 0x400, 0xDC00 + (c - 0x10000) % 0x400] else [c]
  }

  function Encoded(s: Points): Units {
    if s == [] then [] else Utf16(s[0]) + Encoded(s[1..])
  }

  function ItemText(item: Item): (u: Units)
    ensures |u| > 0
  {
    match item
    case Plain(c) => Utf16(c)
    case Escape(e) => [BACKSLASH, e]
    case Unicode(h0, h1, h2, h3) => [BACKSLASH, LETTER_U, h0, h1, h2, h3]
  }

  function Body(items: seq<Item>): Units {
    if items == [] then [] else ItemText(items[0]) + Body(items[1..])
  }

  function Token(items: seq<Item>): Units {
    [QUOTE] + Body(items) + [QUOTE]
  }

  /** The single character an item stands for, as far as it can be told without its neighbours. */
  function Denotes(item: Item): int
    requires ItemOk(item)
  {
    match item
    case Plain(c) => c
    case Escape(e) => Escaped(e).value
    case Unicode(h0, h1, h2, h3) => Hex(h0, h1, h2, h3).value
  }

  /** The string in JavaScript. */
  function UnitsOf(items: seq<Item>): Units
    requires ItemsOk(items)
  {
    if items == [] then [] else Utf16(Denotes(items[0])) + UnitsOf(items[1..])
  }

  predicate Pairs(items: seq<Item>)
    requires ItemsOk(items)
  {
    && |items| >= 2 && items[0].Unicode? && items[1].Unicode?
    && IsHigh(Denotes(items[0])) && IsLow(Denotes(items[1]))
  }

  /** The string in Python, whose decoder joins two escapes that form a surrogate pair. */
  function PointsOf(items: seq<Item>): Points
    requires ItemsOk(items)
  {
    if items == [] then []
    else if Pairs(items) then
      [0x10000 + (Denotes(items[0]) - 0xD800) * 0x400 + (Denotes(items[1]) - 0xDC00)] + PointsOf(items[2..])
    else [Denotes(items[0])] + PointsOf(items[1..])
  }

  // ---- The two readings agree on which strings are equal ----

  /** No two neighbours could be taken for one character. */
  predicate Joined(s: Points) {
    && (forall k :: 0 <= k < |s| ==> 0 <= s[k] <= 0x10FFFF)
    && forall k :: 0 <= k < |s| - 1 ==> !(IsHigh(s[k]) && IsLow(s[k + 1]))
  }

  lemma DenotesPoint(item: Item)
    requires ItemOk(item)
    ensures 0 <= Denotes(item) <= 0x10FFFF
    ensures !item.Unicode? ==> !IsHigh(Denotes(item)) && !IsLow(Denotes(item))
    ensures item.Unicode? ==> Denotes(item) < 0x10000
  {
  }

  lemma {:induction false} PointsAreJoined(items: seq<Item>)
    requires ItemsOk(items)
    ensures Joined(PointsOf(items))
    ensures items == [] <==> PointsOf(items) == []
    ensures items != [] && IsLow(PointsOf(items)[0]) ==> items[0].Unicode? && IsLow(Denotes(items[0]))
    decreases |items|
  {
    hide Denotes, ItemOk, IsHigh, IsLow;
    if items != [] {
      DenotesPoint(items[0]);
      if Pairs(items) {
        PairIsLarge(items);
        PointsAreJoined(items[2..]);
        PutBefore(PointsOf(items)[0], PointsOf(items[2..]));
      } else {
        PointsAreJoined(items[1..]);
        PutBefore(PointsOf(items)[0], PointsOf(items[1..]));
      }
    }
  }

  lemma PairIsLarge(items: seq<Item>)
    requires ItemsOk(items) && Pairs(items)
    ensures var c := PointsOf(items)[0];
            && 0x10000 <= c <= 0x10FFFF && !IsHigh(c) && !IsLow(c)
            && Utf16(c) == [Denotes(items[0]), Denotes(items[1])]
            && Utf16(c) == Utf16(Denotes(items[0])) + Utf16(Denotes(items[1]))
  {
    hide Denotes, ItemOk;
    Halves(Denotes(items[0]) - 0xD800, Denotes(items[1]) - 0xDC00);
  }

  lemma Halves(a: int, b: int)
    requires 0 <= a && 0 <= b < 0x400
    ensures (a * 0x400 + b) / 0x400 == a && (a * 0x400 + b) % 0x400 == b
  {
  }

  lemma PutBefore(c: int, s: Points)
    requires 0 <= c <= 0x10FFFF && Joined(s) && (s != [] ==> !(IsHigh(c) && IsLow(s[0])))
    ensures Joined([c] + s)
  {
  }

  lemma EncodedCons(c: int, s: Points)
    ensures Encoded([c] + s) == Utf16(c) + Encoded(s)
  {
  }

  lemma UnitsOfPair(items: seq<Item>)
    requires ItemsOk(items) && |items| >= 2
    ensures UnitsOf(items) == Utf16(Denotes(items[0])) + Utf16(Denotes(items[1])) + UnitsOf(items[2..])
  {
    hide Denotes, ItemOk, Utf16;
    var rest := items[1..];
    assert rest[0] == items[1] && rest[1..] == items[2..];
  }

  lemma {:induction false} EncodedPoints(items: seq<Item>)
    requires ItemsOk(items)
    ensures Encoded(PointsOf(items)) == UnitsOf(items)
    decreases |items|
  {
    hide Denotes, ItemOk, Utf16, IsHigh, IsLow, Encoded;
    if items == [] {
      EncodedNothing();
    } else if Pairs(items) {
      PairIsLarge(items);
      EncodedPoints(items[2..]);
      UnitsOfPair(items);
      EncodedCons(PointsOf(items)[0], PointsOf(items[2..]));
    } else {
      EncodedPoints(items[1..]);
      EncodedCons(Denotes(items[0]), PointsOf(items[1..]));
    }
  }

  lemma EncodedNothing()
    ensures Encoded([]) == []
  {
  }

  lemma FirstUnit(c: int)
    requires 0 <= c <= 0x10FFFF
    ensures c >= 0x10000 ==> IsHigh(Utf16(c)[0]) && IsLow(Utf16(c)[1])
    ensures c < 0x10000 ==> Utf16(c) == [c]
  {
  }

  lemma SameUnits(c: int, d: int)
    requires 0x10000 <= c <= 0x10FFFF && 0x10000 <= d <= 0x10FFFF && Utf16(c) == Utf16(d)
    ensures c == d
  {
  }

  /** A low half that begins an encoding is a character of its own. */
  lemma LowComesAlone(s: Points)
    requires Joined(s) && Encoded(s) != [] && IsLow(Encoded(s)[0])
    ensures s != [] && s[0] == Encoded(s)[0]
  {
  }

  lemma TailsJoined(s: Points)
    requires Joined(s) && s != []
    ensures Joined(s[1..])
    ensures |s| > 1 ==> !(IsHigh(s[0]) && IsLow(s[1]))
    ensures 0 <= s[0] <= 0x10FFFF
  {
  }

  /** A surrogate pair is not the encoding of two characters. */
  lemma PairIsNotTwo(a: Points, b: Points)
    requires Joined(a) && Joined(b) && a != [] && b != [] && a[0] >= 0x10000 > b[0]
    ensures Encoded(a) != Encoded(b)
  {
    hide Utf16, Joined;
    TailsJoined(a);
    TailsJoined(b);
    FirstUnit(a[0]);
    FirstUnit(b[0]);
    var rest := Encoded(b[1..]);
    assert Encoded(b) == [b[0]] + rest;
    if rest != [] && IsLow(rest[0]) {
      LowComesAlone(b[1..]);
    }
    assert Encoded(a)[0] == Utf16(a[0])[0] && Encoded(a)[1] == Utf16(a[0])[1];
    assert rest != [] ==> Encoded(b)[1] == rest[0];
  }

  /** UTF-16 loses nothing on strings whose neighbours are joined. */
  lemma {:induction false} EncodedIsInjective(a: Points, b: Points)
    requires Joined(a) && Joined(b) && Encoded(a) == Encoded(b)
    ensures a == b
    decreases |a| + |b|
  {
    hide Utf16, Joined;
    if a != [] && b != [] {
      TailsJoined(a);
      TailsJoined(b);
      FirstUnit(a[0]);
      FirstUnit(b[0]);
      if a[0] >= 0x10000 > b[0] {
        PairIsNotTwo(a, b);
      } else if b[0] >= 0x10000 > a[0] {
        PairIsNotTwo(b, a);
      } else {
        var n := |Utf16(a[0])|;
        assert Encoded(a)[..n] == Utf16(a[0]) && Encoded(b)[..n] == Utf16(b[0]);
        assert Encoded(a)[n..] == Encoded(a[1..]) && Encoded(b)[n..] == Encoded(b[1..]);
        if a[0] >= 0x10000 {
          SameUnits(a[0], b[0]);
        }
        EncodedIsInjective(a[1..], b[1..]);
        assert a == [a[0]] + a[1..] && b == [b[0]] + b[1..];
      }
    }
  }

  /** Two names are one string in JavaScript exactly when they are one string in Python. */
  lemma ReadingsAgree(m: seq<Item>, n: seq<Item>)
    requires ItemsOk(m) && ItemsOk(n)
    ensures UnitsOf(m) == UnitsOf(n) <==> PointsOf(m) == PointsOf(n)
  {
    hide UnitsOf, PointsOf, ItemOk;
    EncodedPoints(m);
    EncodedPoints(n);
    PointsAreJoined(m);
    PointsAreJoined(n);
    if UnitsOf(m) == UnitsOf(n) {
      EncodedIsInjective(PointsOf(m), PointsOf(n));
    }
  }

  // ---- Values ----

  datatype Exponent = Exponent(upper: bool, sign: Units, digits: Units)

  datatype Number = Number(minus: bool, whole: Units, fraction: Option<Units>, exponent: Option<Exponent>)

  datatype Word = True | False | Nil

  datatype Tree =
    | Str(items: seq<Item>)
    | Num(number: Number)
    | Lit(word: Word)
    | EmptyArray(pad: Units)
    | List(pad: Units, elems: Elems)
    | EmptyObject(pad: Units)
    | Dict(pad: Units, members: Members)

  /** The white space after the brackets and commas belongs to them. */
  datatype Elems = LastElem(value: Tree, after: Units) | NextElem(value: Tree, after: Units, pad: Units, rest: Elems)

  datatype Name = Name(items: seq<Item>, before: Units, gap: Units)

  datatype Members =
    | LastMember(name: Name, value: Tree, after: Units)
    | NextMember(name: Name, value: Tree, after: Units, pad: Units, rest: Members)

  predicate AllDecimal(s: Units) {
    forall k :: 0 <= k < |s| ==> 0x30 <= s[k] <= 0x39
  }

  predicate NumberOk(n: Number) {
    && n.whole != [] && AllDecimal(n.whole) && (n.whole[0] == 0x30 ==> |n.whole| == 1)
    && (n.fraction.Some? ==> n.fraction.value != [] && AllDecimal(n.fraction.value))
    && (n.exponent.Some? ==>
          && n.exponent.value.digits != [] && AllDecimal(n.exponent.value.digits)
          && (n.exponent.value.sign == [] || n.exponent.value.sign == [0x2B] || n.exponent.value.sign == [0x2D]))
  }

  function NumberText(n: Number): Units {
    (if n.minus then [0x2D] else []) + n.whole
    + (if n.fraction.Some? then [0x2E] + n.fraction.value else [])
    + (if n.exponent.Some?
       then [if n.exponent.value.upper then 0x45 else 0x65] + n.exponent.value.sign + n.exponent.value.digits else [])
  }

  function WordText(w: Word): Units {
    match w
    case True => [0x74, 0x72, 0x75, 0x65]
    case False => [0x66, 0x61, 0x6C, 0x73, 0x65]
    case Nil => [0x6E, 0x75, 0x6C, 0x6C]
  }

  function NameText(name: Name): Units {
    Token(name.items) + name.before + [COLON] + name.gap
  }

  function Text(t: Tree): Units {
    match t
    case Str(items) => Token(items)
    case Num(n) => NumberText(n)
    case Lit(w) => WordText(w)
    case EmptyArray(pad) => [LEFT_BRACKET] + pad + [RIGHT_BRACKET]
    case List(pad, elems) => [LEFT_BRACKET] + pad + ElemsText(elems)
    case EmptyObject(pad) => [LEFT_BRACE] + pad + [RIGHT_BRACE]
    case Dict(pad, members) => [LEFT_BRACE] + pad + MembersText(members)
  }

  function ElemsText(es: Elems): Units {
    match es
    case LastElem(v, after) => Text(v) + after + [RIGHT_BRACKET]
    case NextElem(v, after, pad, rest) => Text(v) + after + [COMMA] + pad + ElemsText(rest)
  }

  function MembersText(ms: Members): Units {
    match ms
    case LastMember(name, v, after) => NameText(name) + Text(v) + after + [RIGHT_BRACE]
    case NextMember(name, v, after, pad, rest) => NameText(name) + Text(v) + after + [COMMA] + pad + MembersText(rest)
  }

  predicate NameOk(name: Name) {
    ItemsOk(name.items) && AllWhite(name.before) && AllWhite(name.gap)
  }

  predicate TreeOk(t: Tree) {
    match t
    case Str(items) => ItemsOk(items)
    case Num(n) => NumberOk(n)
    case Lit(_) => true
    case EmptyArray(pad) => AllWhite(pad)
    case List(pad, elems) => AllWhite(pad) && ElemsOk(elems)
    case EmptyObject(pad) => AllWhite(pad)
    case Dict(pad, members) => AllWhite(pad) && MembersOk(members)
  }

  predicate ElemsOk(es: Elems) {
    TreeOk(es.value) && AllWhite(es.after) && (es.NextElem? ==> AllWhite(es.pad) && ElemsOk(es.rest))
  }

  predicate MembersOk(ms: Members) {
    && NameOk(ms.name) && TreeOk(ms.value) && AllWhite(ms.after)
    && (ms.NextMember? ==> AllWhite(ms.pad) && MembersOk(ms.rest))
  }

  // ---- Duplicate names ----

  /** The member names of one object, as JavaScript reads them and as Python does. */
  function UnitNames(ms: Members): seq<Units>
    requires MembersOk(ms)
  {
    [UnitsOf(ms.name.items)] + if ms.NextMember? then UnitNames(ms.rest) else []
  }

  function PointNames(ms: Members): seq<Points>
    requires MembersOk(ms)
  {
    [PointsOf(ms.name.items)] + if ms.NextMember? then PointNames(ms.rest) else []
  }

  ghost predicate Repeats<T>(s: seq<T>) {
    exists i, j :: 0 <= i < j < |s| && s[i] == s[j]
  }

  /** The member lists of all objects of a value, at every depth. */
  function Objects(t: Tree): seq<Members> {
    match t
    case List(_, elems) => ObjectsInElems(elems)
    case Dict(_, members) => [members] + ObjectsInMembers(members)
    case _ => []
  }

  function ObjectsInElems(es: Elems): seq<Members> {
    Objects(es.value) + if es.NextElem? then ObjectsInElems(es.rest) else []
  }

  function ObjectsInMembers(ms: Members): seq<Members> {
    Objects(ms.value) + if ms.NextMember? then ObjectsInMembers(ms.rest) else []
  }

  ghost predicate AnyRepeats(objects: seq<Members>) {
    exists k :: 0 <= k < |objects| && MembersOk(objects[k]) && Repeats(UnitNames(objects[k]))
  }

  /** Some object, at any depth, has two members of one name. */
  ghost predicate Duplicated(t: Tree) {
    AnyRepeats(Objects(t))
  }
}
