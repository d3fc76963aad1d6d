/** The bounded capture of a child process's output: agents/quality_loop/backend.py, _StreamCapture.
    The class consumes a stream chunk by chunk; Expected says, from the whole stream alone, what every field
    has to be. A digest is kept as the bytes it was updated with. */
module StreamCapture {
  import opened Wrappers

  type byte = b: int | 0 <= b < 256
  type Line = seq<byte>

  const NEWLINE: byte := 10
  const EVENT_LINE_LIMIT := 1024 * 1024
  const TAIL := 4000
  const SUMMARIES := 16

  // ---- Splitting at newlines ----

  /** bytes.split(b"\n"): one part more than there are newlines. */
  function Parts(s: seq<byte>): (p: seq<Line>)
    ensures |p| > 0
  {
    if s == [] then [[]]
    else
      var p := Parts(s[..|s| - 1]);
      if s[|s| - 1] == NEWLINE then p + [[]] else Extend(p, [s[|s| - 1]])
  }

  /** Adds bytes to the last, still open part. */
  function Extend(p: seq<Line>, more: Line): (q: seq<Line>)
    requires |p| > 0
    ensures |q| == |p|
  {
    p[..|p| - 1] + [p[|p| - 1] + more]
  }

  function Join(p: seq<Line>): seq<byte>
    requires |p| > 0
  {
    if |p| == 1 then p[0] else Join(p[..|p| - 1]) + [NEWLINE] + p[|p| - 1]
  }

  ghost predicate NewlineFree(p: seq<Line>) {
    forall k, j :: 0 <= k < |p| && 0 <= j < |p[k]| ==> p[k][j] != NEWLINE
  }

  lemma ExtendByNothing(p: seq<Line>)
    requires |p| > 0
    ensures Extend(p, []) == p
  {
    assert p[|p| - 1] + [] == p[|p| - 1];
  }

  lemma JoinOpen(p: seq<Line>)
    requires |p| > 0
    ensures Join(p + [[]]) == Join(p) + [NEWLINE]
  {
  }

  lemma JoinExtend(p: seq<Line>, c: byte)
    requires |p| > 0
    ensures Join(Extend(p, [c])) == Join(p) + [c]
  {
    hide Join, Extend;
    var n := |p| - 1;
    ExtendLast(p, c);
    JoinLast(p);
    JoinLast(Extend(p, [c]));
    if n > 0 {
      Appending(Join(p[..n]) + [NEWLINE], p[n], [c]);
    }
  }

  lemma ExtendLast(p: seq<Line>, c: byte)
    requires |p| > 0
    ensures Extend(p, [c])[..|p| - 1] == p[..|p| - 1] && Extend(p, [c])[|p| - 1] == p[|p| - 1] + [c]
  {
  }

  lemma Appending(a: Line, b: Line, c: Line)
    ensures a + (b + c) == a + b + c
  {
  }

  lemma JoinLast(p: seq<Line>)
    requires |p| > 0
    ensures var n := |p| - 1; Join(p) == if n == 0 then p[n] else Join(p[..n]) + [NEWLINE] + p[n]
  {
  }

  lemma PartsSnoc(s: seq<byte>, c: byte)
    ensures Parts(s + [c]) == if c == NEWLINE then Parts(s) + [[]] else Extend(Parts(s), [c])
  {
  }

  /** Parts is the division of a stream into newline-free parts: it loses nothing, */
  lemma {:induction false} PartsJoin(s: seq<byte>)
    ensures Join(Parts(s)) == s
  {
    hide Join, Parts;
    if s == [] {
      NoParts();
    } else {
      var t, c := s[..|s| - 1], s[|s| - 1];
      assert s == t + [c];
      PartsJoin(t);
      PartsSnoc(t, c);
      if c == NEWLINE { JoinOpen(Parts(t)); } else { JoinExtend(Parts(t), c); }
    }
  }

  lemma {:induction false} PartsNewlineFree(s: seq<byte>)
    ensures NewlineFree(Parts(s))
  {
    if s != [] {
      PartsNewlineFree(s[..|s| - 1]);
    }
  }

  /** and it is the only one. */
  lemma {:induction false} PartsUnique(p: seq<Line>)
    requires |p| > 0 && NewlineFree(p)
    ensures Parts(Join(p)) == p
    decreases |p|, |p[|p| - 1]|
  {
    hide Join, Parts;
    var n := |p| - 1;
    var last := p[n];
    if last != [] {
      var c := last[|last| - 1];
      var q := p[..n] + [last[..|last| - 1]];
      assert last == last[..|last| - 1] + [c];
      assert q[..n] == p[..n];
      assert Extend(q, [c]) == p;
      PartsUnique(q);
      JoinExtend(q, c);
      PartsSnoc(Join(q), c);
    } else if n > 0 {
      assert p[..n] + [[]] == p;
      PartsUnique(p[..n]);
      JoinOpen(p[..n]);
      PartsSnoc(Join(p[..n]), NEWLINE);
    } else {
      NoParts();
      assert p == [[]];
    }
  }

  lemma NoParts()
    ensures Join([[]]) == [] && Parts([]) == [[]]
  {
  }

  /** Continues the parts of what came before with the parts of a new chunk. */
  function Continue(p: seq<Line>, chunk: seq<Line>): (q: seq<Line>)
    requires |p| > 0 && |chunk| > 0
    ensures |q| > 0
    decreases |chunk|
  {
    if |chunk| == 1 then Extend(p, chunk[0])
    else Continue(Extend(p, chunk[0]) + [[]], chunk[1..])
  }

  lemma {:induction false} ContinueOpen(p: seq<Line>, chunk: seq<Line>)
    requires |p| > 0 && |chunk| > 0
    ensures Continue(p, chunk + [[]]) == Continue(p, chunk) + [[]]
    decreases |chunk|
  {
    var next := Extend(p, chunk[0]);
    assert (chunk + [[]])[1..] == chunk[1..] + [[]];
    if |chunk| == 1 {
      ExtendByNothing(next + [[]]);
    } else {
      ContinueOpen(next + [[]], chunk[1..]);
    }
  }

  lemma {:induction false} ContinueExtend(p: seq<Line>, chunk: seq<Line>, more: Line)
    requires |p| > 0 && |chunk| > 0
    ensures Continue(p, Extend(chunk, more)) == Extend(Continue(p, chunk), more)
    decreases |chunk|
  {
    if |chunk| == 1 {
      assert p[|p| - 1] + (chunk[0] + more) == (p[|p| - 1] + chunk[0]) + more;
    } else {
      ContinueExtend(Extend(p, chunk[0]) + [[]], chunk[1..], more);
      assert Extend(chunk, more)[1..] == Extend(chunk[1..], more);
    }
  }

  /** Splitting commutes with cutting the stream into chunks anywhere. */
  lemma {:induction false} PartsOfChunks(s: seq<byte>, t: seq<byte>)
    ensures Parts(s + t) == Continue(Parts(s), Parts(t))
  {
    if t == [] {
      assert s + t == s;
      ExtendByNothing(Parts(s));
    } else {
      var u, c := t[..|t| - 1], t[|t| - 1];
      PartsOfChunks(s, u);
      assert (s + t)[..|s + t| - 1] == s + u;
      if c == NEWLINE {
        ContinueOpen(Parts(s), Parts(u));
      } else {
        ContinueExtend(Parts(s), Parts(u), [c]);
      }
    }
  }

  // ---- Events ----

  datatype Number = Integer(value: int) | Other

  datatype Report = Report(kind: string, usage: Option<map<string, Number>>)

  /** What json.loads makes of a line: an object, anything else or one of the errors that are caught, or an
      exception that is not, as on a line that nests too deeply. The parser itself is a parameter. */
  datatype Parsed = Object(report: Report) | NotObject | Raises

  datatype Summary = Summary(kind: string, usage: Option<map<string, int>>)

  type Parser = Line -> Parsed

  const USAGE_KEYS: set<string> := {"input_tokens", "cached_input_tokens", "output_tokens"}

  predicate Failure(kind: string) {
    kind == "turn.failed" || kind == "thread.failed" || kind == "error"
  }

  function Summarize(r: Report): Summary {
    Summary(r.kind,
      match r.usage
      case None => None
      case Some(u) => Some(map k | k in USAGE_KEYS && k in u && u[k].Integer? && u[k].value >= 0 :: u[k].value))
  }

  /** A summary keeps the kind, and of a usage exactly the three token counts that are whole numbers and not
      negative. */
  lemma SummaryMeans(r: Report, key: string)
    ensures Summarize(r).kind == r.kind && (Summarize(r).usage.Some? <==> r.usage.Some?)
    ensures r.usage.Some? ==>
              var kept, given := Summarize(r).usage.value, r.usage.value;
              && (key in kept <==> key in {"input_tokens", "cached_input_tokens", "output_tokens"}
                                   && key in given && given[key].Integer? && given[key].value >= 0)
              && (key in kept ==> given[key] == Integer(kept[key]))
  {
  }

  /** The summary of a terminal event, None for every other line. */
  function Terminal(parse: Parser, line: Line): Option<Summary> {
    match parse(line)
    case Object(r) => if r.kind == "turn.completed" || Failure(r.kind) then Some(Summarize(r)) else None
    case _ => None
  }

  predicate Short(line: Line) {
    |line| <= EVENT_LINE_LIMIT
  }

  /** Handling this line ends in an exception. */
  predicate Breaks(parse: Parser, line: Line) {
    Short(line) && parse(line).Raises?
  }

  predicate BreaksAmong(parse: Parser, lines: seq<Line>) {
    exists k :: 0 <= k < |lines| && Breaks(parse, lines[k])
  }

  /** The lines up to the first that breaks, and that one. */
  function Reached(parse: Parser, lines: seq<Line>): (r: seq<Line>)
    ensures |r| <= |lines| && r == lines[..|r|] && (lines != [] ==> r != [])
    ensures forall k :: 0 <= k < |r| - 1 ==> !Breaks(parse, r[k])
    ensures |r| < |lines| ==> Breaks(parse, r[|r| - 1])
    decreases |lines|
  {
    if lines == [] then []
    else
      var r := Reached(parse, lines[..|lines| - 1]);
      if BreaksAmong(parse, r) then r else lines
  }

  /** The terminal events of the lines that are not too long, in order. */
  function Terminals(parse: Parser, lines: seq<Line>): seq<Summary> {
    if lines == [] then []
    else
      var line := lines[|lines| - 1];
      Terminals(parse, lines[..|lines| - 1])
      + if Short(line) && Terminal(parse, line).Some? then [Terminal(parse, line).value] else []
  }

  function LastFailure(events: seq<Summary>): Option<string> {
    if events == [] then None
    else if Failure(events[|events| - 1].kind) then Some(events[|events| - 1].kind)
    else LastFailure(events[..|events| - 1])
  }

  predicate AnyCompleted(events: seq<Summary>) {
    exists k :: 0 <= k < |events| && events[k].kind == "turn.completed"
  }

  /** The last n elements, or all of them when there are no more. */
  function Last<T>(s: seq<T>, n: nat): seq<T> {
    if |s| <= n then s else s[|s| - n..]
  }

  /** The end of a sequence: at most n elements of it, all that there are up to n, with nothing after them. */
  ghost predicate Ends<T>(s: seq<T>, n: nat, r: seq<T>) {
    |r| == (if |s| < n then |s| else n) && s == s[..|s| - |r|] + r
  }

  ghost predicate Begins<T>(s: seq<T>, n: nat, r: seq<T>) {
    |r| == (if |s| < n then |s| else n) && r <= s
  }

  lemma LastEnds<T>(s: seq<T>, n: nat)
    ensures Ends(s, n, Last(s, n))
  {
  }

  lemma PrefixBegins(s: seq<byte>, n: nat)
    ensures Begins(s, n, Prefix(s, n))
  {
  }

  /** The line is an event of this kind. */
  predicate Reports(parse: Parser, line: Line, kind: string) {
    |line| <= EVENT_LINE_LIMIT && parse(line).Object? && parse(line).report.kind == kind
  }

  predicate ReportsFailure(parse: Parser, line: Line) {
    || Reports(parse, line, "turn.failed") || Reports(parse, line, "thread.failed") || Reports(parse, line, "error")
  }

  ghost predicate LastFailureAt(parse: Parser, lines: seq<Line>, k: nat, kind: string) {
    && k < |lines| && ReportsFailure(parse, lines[k]) && Reports(parse, lines[k], kind)
    && forall j :: k < j < |lines| ==> !ReportsFailure(parse, lines[j])
  }

  /** A turn is completed when some line says so; */
  lemma {:induction false} CompletedMeans(parse: Parser, lines: seq<Line>)
    ensures AnyCompleted(Terminals(parse, lines)) <==>
              exists k :: 0 <= k < |lines| && Reports(parse, lines[k], "turn.completed")
  {
    hide AnyCompleted, LastFailure, Last;
    if lines == [] {
      NoTerminals(parse);
    } else {
      var n := |lines| - 1;
      CompletedMeans(parse, lines[..n]);
      assert forall k :: 0 <= k < n ==> lines[..n][k] == lines[k];
      TerminalsStep(parse, lines);
    }
  }

  /** the failure kept is that of the last line that reports one. */
  lemma {:induction false} FailureMeans(parse: Parser, lines: seq<Line>)
    ensures var f := LastFailure(Terminals(parse, lines));
            && (f.None? <==> forall k :: 0 <= k < |lines| ==> !ReportsFailure(parse, lines[k]))
            && (f.Some? ==> exists k: nat :: LastFailureAt(parse, lines, k, f.value))
  {
    hide AnyCompleted, LastFailure, Last, Reports, ReportsFailure;
    if lines == [] {
      NoTerminals(parse);
    } else {
      var n := |lines| - 1;
      var f := LastFailure(Terminals(parse, lines[..n]));
      FailureMeans(parse, lines[..n]);
      assert forall k :: 0 <= k < n ==> lines[..n][k] == lines[k];
      TerminalsStep(parse, lines);
      if ReportsFailure(parse, lines[n]) {
        assert LastFailureAt(parse, lines, n, parse(lines[n]).report.kind);
      } else if f.Some? {
        var k: nat :| LastFailureAt(parse, lines[..n], k, f.value);
        assert LastFailureAt(parse, lines, k, f.value);
      }
    }
  }

  lemma NoTerminals(parse: Parser)
    ensures Terminals(parse, []) == [] && !AnyCompleted([]) && LastFailure([]) == None
  {
  }

  /** What the last line adds. */
  lemma TerminalsStep(parse: Parser, lines: seq<Line>)
    requires lines != []
    ensures var n := |lines| - 1;
            var before, now := Terminals(parse, lines[..n]), Terminals(parse, lines);
            && (AnyCompleted(now) <==> AnyCompleted(before) || Reports(parse, lines[n], "turn.completed"))
            && (if ReportsFailure(parse, lines[n])
                then parse(lines[n]).Object? && Reports(parse, lines[n], parse(lines[n]).report.kind)
                     && LastFailure(now) == Some(parse(lines[n]).report.kind)
                else LastFailure(now) == LastFailure(before))
  {
    hide AnyCompleted, LastFailure, Last, Terminals, Reports, ReportsFailure;
    var n := |lines| - 1;
    var before := Terminals(parse, lines[..n]);
    TerminalsSnoc(parse, lines);
    TerminalIs(parse, lines[n]);
    if Short(lines[n]) && Terminal(parse, lines[n]).Some? {
      SummedStep(before, Terminal(parse, lines[n]).value);
    }
  }

  lemma TerminalsSnoc(parse: Parser, lines: seq<Line>)
    requires lines != []
    ensures var n := |lines| - 1;
            Terminals(parse, lines)
            == if Short(lines[n]) && Terminal(parse, lines[n]).Some?
               then Terminals(parse, lines[..n]) + [Terminal(parse, lines[n]).value] else Terminals(parse, lines[..n])
  {
    assert Terminals(parse, lines[..|lines| - 1]) + [] == Terminals(parse, lines[..|lines| - 1]);
  }

  lemma TerminalIs(parse: Parser, line: Line)
    ensures Short(line) && Terminal(parse, line).Some? <==>
              Reports(parse, line, "turn.completed") || ReportsFailure(parse, line)
    ensures Short(line) && Terminal(parse, line).Some? ==>
              && parse(line).Object? && Terminal(parse, line).value.kind == parse(line).report.kind
              && Reports(parse, line, parse(line).report.kind)
              && (Terminal(parse, line).value.kind == "turn.completed" <==> Reports(parse, line, "turn.completed"))
              && (Failure(Terminal(parse, line).value.kind) <==> ReportsFailure(parse, line))
  {
  }

  // ---- What the fields have to be ----

  datatype Events = Events(pending: Line, discarding: bool, oversized: bool,
                           completed: bool, failed: Option<string>, terminals: seq<Summary>, count: nat)

  predicate TooLongAmong(lines: seq<Line>) {
    exists k :: 0 <= k < |lines| && !Short(lines[k])
  }

  /** The event fields once the stream so far has these parts, of which `delivered` were handed on. */
  function EventsOf(parse: Parser, parts: seq<Line>, delivered: seq<Line>, pending: Line): Events
    requires |parts| > 0
  {
    var t := Terminals(parse, delivered);
    Events(pending, !Short(parts[|parts| - 1]), TooLongAmong(parts),
           AnyCompleted(t), LastFailure(t), Last(t, SUMMARIES), |t|)
  }

  /** The lines that are handed on while the stream is open, and those once it has ended. */
  function Terminated(parts: seq<Line>): seq<Line>
    requires |parts| > 0
  {
    parts[..|parts| - 1]
  }

  function Ended(parts: seq<Line>): seq<Line>
    requires |parts| > 0
  {
    if parts[|parts| - 1] == [] then parts[..|parts| - 1] else parts
  }

  /** While the stream is open, its last part is pending and the others were handed on. */
  function Open(parse: Parser, parts: seq<Line>): Events
    requires |parts| > 0
  {
    var last := parts[|parts| - 1];
    EventsOf(parse, parts, Terminated(parts), if Short(last) then last else [])
  }

  /** When it ends, a nonempty last part is handed on too. */
  function Closed(parse: Parser, parts: seq<Line>): Events
    requires |parts| > 0
  {
    EventsOf(parse, parts, Ended(parts), [])
  }

  const NO_EVENTS := Events([], false, false, false, None, [], 0)

  function Prefix(s: seq<byte>, n: nat): seq<byte> {
    if |s| <= n then s else s[..n]
  }

  datatype Bytes = Bytes(observed: nat, hashed: seq<byte>, file: seq<byte>, retained: nat,
                         retainedHashed: seq<byte>, tail: seq<byte>)

  datatype Fields = Fields(bytes: Bytes, eof: bool, events: Events)

  function BytesOf(limit: nat, stream: seq<byte>): Bytes {
    var kept := Prefix(stream, limit);
    Bytes(|stream|, stream, kept, |kept|, kept, Last(stream, TAIL))
  }

  function Expected(parse: Parser, limit: nat, events: bool, eof: bool, stream: seq<byte>): Fields {
    Fields(BytesOf(limit, stream), eof,
           if !events then NO_EVENTS
           else if eof then Closed(parse, Parts(stream)) else Open(parse, Parts(stream)))
  }

  lemma PrefixOfChunks(s: seq<byte>, t: seq<byte>, n: nat)
    ensures Prefix(s, n) + Prefix(t, if n >= |Prefix(s, n)| then n - |Prefix(s, n)| else 0) == Prefix(s + t, n)
  {
  }

  lemma TailOfChunks(s: seq<byte>, t: seq<byte>, n: nat)
    ensures Last(Last(s, n) + t, n) == Last(s + t, n)
  {
  }

  // ---- The capture ----

  class Capture {
    const parse: Parser
    const limit: nat
    const events: bool
    var file: seq<byte>
    var observed: nat
    var retained: nat
    var hashed: seq<byte>
    var retainedHashed: seq<byte>
    var tail: seq<byte>
    var eof: bool
    var pending: Line
    var discardLine: bool
    var oversizedEvent: bool
    var completed: bool
    var failedEvent: Option<string>
    var terminalEvents: seq<Summary>
    var terminalCount: nat

    constructor (parse: Parser, limit: nat, events: bool)
      ensures this.parse == parse && this.limit == limit && this.events == events
      ensures State() == Expected(parse, limit, events, false, [])
    {
      this.parse, this.limit, this.events := parse, limit, events;
      file, hashed, retainedHashed, tail, pending := [], [], [], [], [];
      observed, retained, terminalCount := 0, 0, 0;
      eof, discardLine, oversizedEvent, completed := false, false, false, false;
      failedEvent, terminalEvents := None, [];
    }

    function EventState(): Events
      reads this
    {
      Events(pending, discardLine, oversizedEvent, completed, failedEvent, terminalEvents, terminalCount)
    }

    function State(): Fields
      reads this
    {
      Fields(Bytes(observed, hashed, file, retained, retainedHashed, tail), eof, EventState())
    }

    /** The bytes of a chunk that still fit the retention limit. */
    function Kept(data: seq<byte>): seq<byte>
      reads this
    {
      Prefix(data, if limit >= retained then limit - retained else 0)
    }

    /** No line handed on so far ends in an exception. */
    ghost predicate Unbroken(stream: seq<byte>) {
      events ==> !BreaksAmong(parse, Terminated(Parts(stream)))
    }

    /** Handles one line; with the terminal events of `before` on record, those of before + [line] are after. An
        exception leaves the record as it is. */
    method Event(line: Line, ghost before: seq<Line>) returns (ok: bool)
      requires Short(line)
      requires (completed, failedEvent, terminalEvents, terminalCount)
               == Summed(Terminals(parse, before))
      modifies this`completed, this`failedEvent, this`terminalEvents, this`terminalCount
      ensures ok <==> !parse(line).Raises?
      ensures (completed, failedEvent, terminalEvents, terminalCount)
              == Summed(Terminals(parse, before + [line]))
      ensures !ok ==> EventState() == old(EventState())
    {
      ghost var t := Terminals(parse, before);
      assert (before + [line])[..|before|] == before;
      match parse(line) {
        case Raises =>
          assert t + [] == t;
          return false;
        case NotObject =>
          assert t + [] == t;
        case Object(r) =>
          if r.kind == "turn.completed" {
            completed := true;
          } else if Failure(r.kind) {
            failedEvent := Some(r.kind);
          } else {
            assert t + [] == t;
            return true;
          }
          terminalCount := terminalCount + 1;
          terminalEvents := Last(terminalEvents + [Summarize(r)], SUMMARIES);
          SummedStep(t, Summarize(r));
      }
      return true;
    }

    /** Consumes one chunk, of which the file accepts the first `written` of the bytes offered to it. */
    method Feed(data: seq<byte>, written: nat, ghost stream: seq<byte>) returns (r: Fed)
      requires State() == Expected(parse, limit, events, false, stream) && Unbroken(stream)
      requires written <= |Kept(data)|
      modifies this
      ensures r.Refused? <==> written < |old(Kept(data))|
      ensures r.Consumed? <==> written == |old(Kept(data))| && Unbroken(stream + data)
      ensures r.Consumed? ==> State() == Expected(parse, limit, events, false, stream + data)
      ensures r.Raised? ==> events && State() == Fields(BytesOf(limit, stream + data), false,
                                                        Open(parse, Reached(parse, Parts(stream + data))))
      ensures r.Refused? ==> file == old(file) + old(Kept(data))[..written] && tail == old(tail)
      ensures r.Refused? ==> observed == old(observed) + |data| && hashed == old(hashed) + data
      ensures r.Refused? ==> retained == old(retained) + written && retainedHashed == file
      ensures r.Refused? ==> !eof && EventState() == old(EventState())
      ensures |pending| <= EVENT_LINE_LIMIT
    {
      var ok := Retain(data, written, stream);
      if !ok {
        return Refused;
      }
      if events {
        ok := FeedEvents(data, stream);
        if !ok {
          return Raised;
        }
        NothingBreaks(parse, Parts(stream + data));
      }
      return Consumed;
    }

    /** The byte half of feed: everything is counted and hashed, a prefix and a tail are kept. */
    method Retain(data: seq<byte>, written: nat, ghost stream: seq<byte>) returns (ok: bool)
      requires State().bytes == BytesOf(limit, stream)
      requires written <= |Kept(data)|
      modifies this`observed, this`hashed, this`file, this`retained, this`retainedHashed, this`tail
      ensures ok <==> written == |old(Kept(data))|
      ensures ok ==> State().bytes == BytesOf(limit, stream + data)
      ensures ok ==> Begins(stream + data, limit, file) && Ends(stream + data, TAIL, tail)
      ensures !ok ==> observed == old(observed) + |data| && hashed == old(hashed) + data
      ensures !ok ==> file == old(file) + old(Kept(data))[..written] && tail == old(tail)
      ensures !ok ==> retained == old(retained) + written && retainedHashed == file
    {
      hide Begins, Ends, Last, Prefix;
      PrefixOfChunks(stream, data, limit);
      TailOfChunks(stream, data, TAIL);
      PrefixBegins(stream + data, limit);
      LastEnds(stream + data, TAIL);
      observed := observed + |data|;
      hashed := hashed + data;
      var kept := Kept(data);
      file := file + kept[..written];
      retained := retained + written;
      retainedHashed := retainedHashed + kept[..written];
      if written != |kept| {
        return false;
      }
      assert kept[..written] == kept;
      tail := Last(tail + data, TAIL);
      return true;
    }

    /** The event half of feed: the parts of the chunk extend, complete and start lines. It breaks off in the line
        whose handling ends in an exception, which stays pending. */
    method FeedEvents(data: seq<byte>, ghost stream: seq<byte>) returns (ok: bool)
      requires EventState() == Open(parse, Parts(stream)) && !BreaksAmong(parse, Terminated(Parts(stream)))
      modifies this`pending, this`discardLine, this`oversizedEvent,
               this`completed, this`failedEvent, this`terminalEvents, this`terminalCount
      ensures ok <==> !BreaksAmong(parse, Terminated(Parts(stream + data)))
      ensures EventState() == Open(parse, Reached(parse, Parts(stream + data)))
    {
      hide Parts, Terminals, TooLongAmong, Last, LastFailure, AnyCompleted, Terminal, Reached, BreaksAmong,
           Breaks, Continue;
      var parts := Parts(data);
      PartsOfChunks(stream, data);
      ghost var seen := Parts(stream);
      var index := 0;
      while index < |parts|
        invariant 0 <= index <= |parts|
        invariant |seen| > 0 && EventState() == Open(parse, seen) && !BreaksAmong(parse, Terminated(seen))
        invariant index < |parts| ==> Continue(seen, parts[index..]) == Parts(stream + data)
        invariant index == |parts| ==> seen == Parts(stream + data)
      {
        ghost var rest := parts[index..];
        assert rest[1..] == parts[index + 1..];
        var part := parts[index];
        if !discardLine {
          if |pending| + |part| > EVENT_LINE_LIMIT {
            oversizedEvent, discardLine := true, true;
            pending := [];
          } else {
            pending := pending + part;
          }
        }
        OpenExtend(parse, seen, part);
        ContinueStep(seen, rest);
        assert Terminated(Extend(seen, part)) == Terminated(seen);
        seen := Extend(seen, part);
        if index < |parts| - 1 {
          BreaksStep(parse, seen);
          ok := EndLine(seen);
          if !ok {
            StopsHere(parse, seen, Parts(stream + data));
            return;
          }
          TerminatedOpen(seen);
          seen := seen + [[]];
        }
        index := index + 1;
      }
      NothingBreaks(parse, seen);
      return true;
    }

    /** The pending line is complete and handed on, unless it was too long; a new one begins. */
    method EndLine(ghost seen: seq<Line>) returns (ok: bool)
      requires |seen| > 0 && EventState() == Open(parse, seen)
      modifies this`pending, this`discardLine,
               this`completed, this`failedEvent, this`terminalEvents, this`terminalCount
      ensures ok <==> !Breaks(parse, seen[|seen| - 1])
      ensures EventState() == Open(parse, if ok then seen + [[]] else seen)
    {
      hide Terminals, TooLongAmong, Last, LastFailure, AnyCompleted, Terminal;
      assert seen == Terminated(seen) + [seen[|seen| - 1]];
      OpenTerminate(parse, seen);
      if !discardLine {
        ok := Event(pending, Terminated(seen));
        if !ok {
          return;
        }
      }
      pending := [];
      discardLine := false;
      return true;
    }

    /** The end of the stream; an exception in the last line leaves that line pending. */
    method Finish(ghost stream: seq<byte>) returns (ok: bool)
      requires State() == Expected(parse, limit, events, false, stream) && Unbroken(stream)
      modifies this
      ensures ok <==> (events ==> !BreaksAmong(parse, Ended(Parts(stream))))
      ensures ok ==> State() == Expected(parse, limit, events, true, stream)
      ensures !ok ==> State() == Expected(parse, limit, events, false, stream).(eof := true) && pending != []
    {
      hide Parts, Terminals, TooLongAmong, Last, LastFailure, AnyCompleted, Terminal, BreaksAmong;
      ghost var parts := Parts(stream);
      ghost var last := parts[|parts| - 1];
      assert parts == Terminated(parts) + [last];
      BreaksStep(parse, parts);
      eof := true;
      if events && pending != [] && !discardLine {
        ok := Event(pending, Terminated(parts));
        if !ok {
          return;
        }
      } else {
        SkippedLine(parse, parts);
      }
      pending := [];
      return true;
    }

    /** Whole runs. Whatever the division into chunks, the fields at the end are those of the whole stream, exactly
        when handling no line of the stream ends in an exception. Otherwise the events are still those up to that
        line, but the bytes are those of the chunks read, up to the one that completes it. In all cases the file
        holds the first bytes read and the tail the last ones, and the events kept are the latest. */
    method Drain(chunks: seq<seq<byte>>) returns (ok: bool, read: nat)
      requires State() == Expected(parse, limit, events, false, [])
      modifies this
      ensures read <= |chunks| && (forall m :: 0 <= m < read ==> Unbroken(Concat(chunks[..m])))
      ensures ok <==> (events ==> !BreaksAmong(parse, Ended(Parts(Concat(chunks)))))
      ensures ok <==> State() == Expected(parse, limit, events, true, Concat(chunks))
      ensures !ok ==> State() == Fields(BytesOf(limit, Concat(chunks[..read])), eof,
                                        Open(parse, Reached(parse, Parts(Concat(chunks)))))
      ensures if eof then read == |chunks| else !Unbroken(Concat(chunks[..read]))
      ensures eof <==> Unbroken(Concat(chunks))
      ensures var stream := Concat(chunks[..read]);
              observed == |stream| && hashed == stream && Begins(stream, limit, file) && Ends(stream, TAIL, tail)
      ensures ok && events ==>
                var all := Terminals(parse, Ended(Parts(Concat(chunks))));
                terminalCount == |all| && Ends(all, SUMMARIES, terminalEvents)
                && completed == AnyCompleted(all) && failedEvent == LastFailure(all)
    {
      hide BreaksAmong, Reached, Parts, Terminated, Ended, Open, BytesOf, TooLongAmong, Terminals;
      read := 0;
      NothingRead(parse);
      assert chunks[..0] == [];
      while read < |chunks|
        invariant 0 <= read <= |chunks|
        invariant State() == Expected(parse, limit, events, false, Concat(chunks[..read]))
        invariant forall m :: 0 <= m <= read ==> Unbroken(Concat(chunks[..m]))
      {
        assert chunks[..read + 1][..read] == chunks[..read];
        var kept := Kept(chunks[read]);
        var fed := Feed(chunks[read], |kept|, Concat(chunks[..read]));
        read := read + 1;
        if fed.Raised? {
          FieldsMean(parse, limit, Concat(chunks[..read]));
          StaysBroken(parse, chunks, read);
          TerminatedEnds(parse, Parts(Concat(chunks)));
          return false, read;
        }
      }
      assert chunks[..read] == chunks;
      if events {
        NothingBreaks(parse, Parts(Concat(chunks)));
      }
      FieldsMean(parse, limit, Concat(chunks));
      ok := Finish(Concat(chunks));
    }
  }

  /** The fields of a whole stream, without the functions that cut it. */
  lemma FieldsMean(parse: Parser, limit: nat, stream: seq<byte>)
    ensures var b := BytesOf(limit, stream);
            && b.observed == |stream| && b.hashed == stream && Begins(stream, limit, b.file)
            && Ends(stream, TAIL, b.tail)
    ensures var all, e := Terminals(parse, Ended(Parts(stream))), Closed(parse, Parts(stream));
            && e.count == |all| && Ends(all, SUMMARIES, e.terminals)
            && e.completed == AnyCompleted(all) && e.failed == LastFailure(all)
  {
    hide Parts, Terminals, AnyCompleted, LastFailure, Ended;
    PrefixBegins(stream, limit);
    LastEnds(stream, TAIL);
    LastEnds(Terminals(parse, Ended(Parts(stream))), SUMMARIES);
  }

  datatype Fed = Consumed | Refused | Raised

  function Concat(chunks: seq<seq<byte>>): seq<byte> {
    if chunks == [] then [] else Concat(chunks[..|chunks| - 1]) + chunks[|chunks| - 1]
  }

  function Summed(t: seq<Summary>): (bool, Option<string>, seq<Summary>, nat) {
    (AnyCompleted(t), LastFailure(t), Last(t, SUMMARIES), |t|)
  }

  lemma SummedStep(t: seq<Summary>, s: Summary)
    ensures AnyCompleted(t + [s]) <==> AnyCompleted(t) || s.kind == "turn.completed"
    ensures LastFailure(t + [s]) == if Failure(s.kind) then Some(s.kind) else LastFailure(t)
    ensures Last(t + [s], SUMMARIES) == Last(Last(t, SUMMARIES) + [s], SUMMARIES)
  {
    assert (t + [s])[..|t|] == t;
    if AnyCompleted(t) {
      var k :| 0 <= k < |t| && t[k].kind == "turn.completed";
      assert (t + [s])[k].kind == "turn.completed";
    }
    if s.kind == "turn.completed" {
      assert (t + [s])[|t|].kind == "turn.completed";
    }
  }

  // ---- Where handling breaks off ----

  lemma BreaksStep(parse: Parser, parts: seq<Line>)
    requires |parts| > 0
    ensures BreaksAmong(parse, parts)
            <==> BreaksAmong(parse, Terminated(parts)) || Breaks(parse, parts[|parts| - 1])
  {
    if BreaksAmong(parse, Terminated(parts)) {
      var k :| 0 <= k < |parts| - 1 && Breaks(parse, Terminated(parts)[k]);
      assert Breaks(parse, parts[k]);
    }
    assert forall k :: 0 <= k < |parts| - 1 ==> Terminated(parts)[k] == parts[k];
  }

  lemma NothingRead(parse: Parser)
    ensures Concat([]) == [] && !BreaksAmong(parse, Terminated(Parts([])))
  {
  }

  lemma TerminatedEnds(parse: Parser, parts: seq<Line>)
    requires |parts| > 0
    ensures BreaksAmong(parse, Terminated(parts)) ==> BreaksAmong(parse, Ended(parts))
  {
    BreaksStep(parse, parts);
  }

  lemma TerminatedOpen(parts: seq<Line>)
    ensures Terminated(parts + [[]]) == parts
  {
  }

  lemma NothingBreaks(parse: Parser, parts: seq<Line>)
    requires |parts| > 0 && !BreaksAmong(parse, Terminated(parts))
    ensures Reached(parse, parts) == parts
  {
    assert forall k :: 0 <= k < |parts| - 1 ==> Terminated(parts)[k] == parts[k];
  }

  /** The first line that breaks is where every longer division breaks off. */
  lemma StopsHere(parse: Parser, seen: seq<Line>, parts: seq<Line>)
    requires 0 < |seen| < |parts| && seen <= parts
    requires !BreaksAmong(parse, Terminated(seen)) && Breaks(parse, seen[|seen| - 1])
    ensures BreaksAmong(parse, Terminated(parts)) && Reached(parse, parts) == seen
  {
    var r := Reached(parse, parts);
    assert Terminated(parts)[|seen| - 1] == seen[|seen| - 1];
    assert forall k :: 0 <= k < |r| ==> r[k] == parts[k];
    assert forall k :: 0 <= k < |seen| ==> parts[k] == seen[k];
    assert forall k :: 0 <= k < |seen| - 1 ==> seen[k] == Terminated(seen)[k];
  }

  lemma ReachedBreaks(parse: Parser, parts: seq<Line>)
    requires |parts| > 0 && BreaksAmong(parse, Terminated(parts))
    ensures var r := Reached(parse, parts);
            0 < |r| < |parts| && Breaks(parse, r[|r| - 1]) && !BreaksAmong(parse, Terminated(r))
  {
    var k :| 0 <= k < |parts| - 1 && Breaks(parse, Terminated(parts)[k]);
    var r := Reached(parse, parts);
    assert forall j :: 0 <= j < |r| ==> r[j] == parts[j];
    assert forall j :: 0 <= j < |r| - 1 ==> Terminated(r)[j] == r[j];
  }

  lemma {:induction false} ContinueKeeps(p: seq<Line>, chunk: seq<Line>)
    requires |p| > 0 && |chunk| > 0
    ensures |Continue(p, chunk)| == |p| + |chunk| - 1 && Terminated(p) <= Continue(p, chunk)
    decreases |chunk|
  {
    if |chunk| > 1 {
      var next := Extend(p, chunk[0]);
      ContinueKeeps(next + [[]], chunk[1..]);
      TerminatedOpen(next);
      assert Terminated(next) == Terminated(p);
    }
  }

  lemma ContinueStep(p: seq<Line>, chunk: seq<Line>)
    requires |p| > 0 && |chunk| > 0
    ensures |chunk| == 1 ==> Continue(p, chunk) == Extend(p, chunk[0])
    ensures |chunk| > 1 ==>
              && Continue(p, chunk) == Continue(Extend(p, chunk[0]) + [[]], chunk[1..])
              && |p| < |Continue(p, chunk)| && Extend(p, chunk[0]) <= Continue(p, chunk)
  {
    if |chunk| > 1 {
      ContinueKeeps(Extend(p, chunk[0]) + [[]], chunk[1..]);
      TerminatedOpen(Extend(p, chunk[0]));
    }
  }

  // ---- A stream whose division into chunks is visible at the end ----

  const DEPTH: nat := 100000

  function Brackets(n: nat): (s: Line)
    ensures |s| == n && forall k :: 0 <= k < n ==> s[k] == 91
  {
    if n == 0 then [] else Brackets(n - 1) + [91]
  }

  /** A parser that exceeds its recursion limit on a hundred thousand opening brackets. */
  function DeepParser(line: Line): Parsed {
    if line == Brackets(DEPTH) then Raises else NotObject
  }

  lemma DeepLineBreaks(rest: Line)
    requires rest == [] || rest == [120]
    ensures BreaksAmong(DeepParser, Terminated(Parts(Brackets(DEPTH) + [NEWLINE] + rest)))
  {
    hide Parts, Brackets;
    var parts := [Brackets(DEPTH), rest];
    assert Join(parts) == Brackets(DEPTH) + [NEWLINE] + rest by { assert parts[..1] == [Brackets(DEPTH)]; }
    PartsUnique(parts);
    assert Breaks(DeepParser, Terminated(parts)[0]);
  }

  lemma ConcatOne(c: seq<byte>, d: seq<byte>)
    ensures Concat([c]) == c && Concat([c, d]) == c + d
    ensures [c][..0] == [] && [c][..1] == [c] && [c, d][..0] == [] && [c, d][..1] == [c]
  {
    assert [c][..0] == [] && [c, d][..1] == [c];
  }

  /** One stream, read at once and in two chunks: the numbers of observed bytes differ. */
  method CutsMatter() returns (once: nat, twice: nat)
    ensures once == DEPTH + 2 && twice == DEPTH + 1
  {
    hide Parts, BreaksAmong, Reached, Open, Concat, Brackets;
    var line, rest: seq<byte> := Brackets(DEPTH) + [NEWLINE], [120];
    NothingRead(DeepParser);
    DeepLineBreaks([]);
    DeepLineBreaks(rest);
    assert line + [] == line;
    ConcatOne(line + rest, []);
    ConcatOne(line, rest);
    var a := new Capture(DeepParser, DEPTH, true);
    var ok, read := a.Drain([line + rest]);
    once := a.observed;
    var b := new Capture(DeepParser, DEPTH, true);
    ok, read := b.Drain([line, rest]);
    twice := b.observed;
  }

  lemma {:induction false} ConcatSplit(chunks: seq<seq<byte>>, n: nat)
    requires n <= |chunks|
    ensures Concat(chunks) == Concat(chunks[..n]) + Concat(chunks[n..])
  {
    if n == |chunks| {
      assert chunks[..n] == chunks && chunks[n..] == [];
    } else {
      var last := |chunks| - 1;
      ConcatSplit(chunks[..last], n);
      assert chunks[..last][..n] == chunks[..n] && chunks[..last][n..] == chunks[n..][..last - n];
    }
  }

  /** What is read later does not change where handling broke off. */
  lemma StaysBroken(parse: Parser, chunks: seq<seq<byte>>, n: nat)
    requires n <= |chunks| && BreaksAmong(parse, Terminated(Parts(Concat(chunks[..n]))))
    ensures BreaksAmong(parse, Terminated(Parts(Concat(chunks))))
    ensures Reached(parse, Parts(Concat(chunks))) == Reached(parse, Parts(Concat(chunks[..n])))
  {
    hide Parts, BreaksAmong, Breaks, Concat, Continue;
    var parts, more := Parts(Concat(chunks[..n])), Parts(Concat(chunks[n..]));
    ConcatSplit(chunks, n);
    PartsOfChunks(Concat(chunks[..n]), Concat(chunks[n..]));
    ContinueKeeps(parts, more);
    ReachedBreaks(parse, parts);
    StopsHere(parse, Reached(parse, parts), Continue(parts, more));
  }

  lemma TooLongSplit(lines: seq<Line>, line: Line)
    ensures TooLongAmong(lines + [line]) <==> TooLongAmong(lines) || !Short(line)
  {
    if TooLongAmong(lines) {
      var k :| 0 <= k < |lines| && !Short(lines[k]);
      assert !Short((lines + [line])[k]);
    }
    if !Short(line) {
      assert !Short((lines + [line])[|lines|]);
    }
  }

  lemma OpenExtend(parse: Parser, parts: seq<Line>, part: Line)
    requires |parts| > 0
    ensures var before, after := Open(parse, parts), Open(parse, Extend(parts, part));
            && (before.discarding ==> after == before)
            && (!before.discarding ==>
                  var long := |before.pending| + |part| > EVENT_LINE_LIMIT;
                  after == before.(pending := if long then [] else before.pending + part,
                                   discarding := long, oversized := before.oversized || long))
  {
  }

  lemma OpenTerminate(parse: Parser, parts: seq<Line>)
    requires |parts| > 0
    ensures var before, after := Open(parse, parts), Open(parse, parts + [[]]);
            && after.pending == [] && !after.discarding && after.oversized == before.oversized
            && (after.completed, after.failed, after.terminals, after.count) == Summed(Terminals(parse, parts))
            && (before.discarding ==> Terminals(parse, parts) == Terminals(parse, parts[..|parts| - 1]))
  {
    assert (parts + [[]])[..|parts|] == parts;
    TooLongSplit(parts, []);
    SkippedLine(parse, parts);
  }

  /** A line that is too long adds no event. */
  lemma SkippedLine(parse: Parser, parts: seq<Line>)
    requires |parts| > 0
    ensures !Short(parts[|parts| - 1]) ==> Terminals(parse, parts) == Terminals(parse, parts[..|parts| - 1])
  {
  }
}
