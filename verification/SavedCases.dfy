/** Saving a case list and reading it back: save_performance_results and load_performance_results of
    src/testcases.py. The YAML text between them is taken to keep records as they are. */
module SavedCases {
  import opened Wrappers
  import opened JsonValues
  import opened PythonValues
  import opened CaseMatching
  import opened Speedup

  /** An entry of a saved record: a time, or a value. */
  datatype Cell = Stamp(time: Time) | Item(v: Value)

  type Record = map<string, Cell>

  const ID := "test_case_id"
  const SHAPE := "shape"
  const TIME := "execution_time_ms"

  /** Metadata that is saved under its own name. */
  predicate Kept(c: Case, key: string) {
    key in Meta(c) && (key == "params" || key == "dtype" || ("benchmark_" <= key && !Meta(c)[key].Null?))
  }

  function KeptCells(c: Case): Record {
    map key | key in Meta(c) && Kept(c, key) :: Item(Meta(c)[key])
  }

  function FirstCells(c: Case): Record {
    var r: Record := map[ID := Item(Text(c.id)), TIME := Stamp(c.time)];
    if c.shape.Null? then r else r[SHAPE := Item(c.shape)]
  }

  /** What one record holds in the end, whatever the order in which it was filled. */
  function SavedRecord(c: Case): Record {
    var r := FirstCells(c) + KeptCells(c);
    if Truthy(Get(c, SYNTHETIC)) then r[SYNTHETIC := Item(Bool(true))] else r
  }

  /** Saved so far, while some names are still to be visited. */
  function KeptBut(c: Case, left: set<string>): Record {
    map key | key in Meta(c) && Kept(c, key) && (key !in left || key == "params" || key == "dtype") ::
      Item(Meta(c)[key])
  }

  function WithCell(record: Record, c: Case, key: string, keep: bool): Record
    requires keep ==> key in Meta(c)
  {
    if keep then record[key := Item(Meta(c)[key])] else record
  }

  lemma KeptAtFirst(c: Case, first: Record)
    ensures WithCell(WithCell(first, c, "params", "params" in Meta(c)), c, "dtype", "dtype" in Meta(c))
            == first + KeptBut(c, Meta(c).Keys)
  {
  }

  lemma KeptNext(c: Case, first: Record, left: set<string>, key: string)
    requires key in left && left <= Meta(c).Keys
    ensures WithCell(first + KeptBut(c, left), c, key, "benchmark_" <= key && !Meta(c)[key].Null?)
            == first + KeptBut(c, left - {key})
  {
  }

  lemma KeptAtLast(c: Case)
    ensures KeptBut(c, {}) == KeptCells(c)
  {
  }

  method SaveRecord(c: Case) returns (record: Record)
    ensures record == SavedRecord(c)
  {
    hide Truthy, KeptBut, KeptCells, Kept, Meta, Get, ID, SHAPE, TIME, SYNTHETIC;
    record := map[ID := Item(Text(c.id)), TIME := Stamp(c.time)];
    if !c.shape.Null? {
      record := record[SHAPE := Item(c.shape)];
    }
    ghost var first := FirstCells(c);
    assert record == first;
    hide FirstCells;
    var metadata := Meta(c);
    KeptAtFirst(c, first);
    if "params" in metadata {
      record := record["params" := Item(metadata["params"])];
    }
    if "dtype" in metadata {
      record := record["dtype" := Item(metadata["dtype"])];
    }
    var left := metadata.Keys;
    while left != {}
      invariant left <= metadata.Keys
      invariant record == first + KeptBut(c, left)
      decreases |left|
    {
      var key :| key in left;
      KeptNext(c, first, left, key);
      if "benchmark_" <= key && !metadata[key].Null? {
        record := record[key := Item(metadata[key])];
      }
      left := left - {key};
    }
    KeptAtLast(c);
    assert record == first + KeptCells(c);
    if Truthy(Get(c, SYNTHETIC)) {
      record := record[SYNTHETIC := Item(Bool(true))];
    }
  }

  /** One record as it is read back; None when its id is no text or its time no number, which no saved record is. */
  function LoadRecord(record: Record): Option<Case> {
    var id := if ID in record then record[ID] else Item(Text("unknown"));
    var time := if TIME in record then record[TIME] else Stamp(Finite(0.0));
    var shape := if SHAPE in record then record[SHAPE] else Item(Null);
    if id.Item? && id.v.Text? && time.Stamp? && shape.Item? then
      Some(Case(id.v.s, shape.v, time.time,
                Some(map key | key in record && key != ID && key != SHAPE && key != TIME && record[key].Item? ::
                       record[key].v)))
    else None
  }

  /** What a record lacks is filled in; a record without an id is called unknown. */
  lemma EmptyRecordIsUnknown()
    ensures LoadRecord(map[]) == Some(Case("unknown", Null, Finite(0.0), Some(map[])))
  {
  }

  /** All that pairing and comparing look at. */
  ghost predicate Alike(c: Case, d: Case) {
    && c.id == d.id && c.time == d.time
    && (forall s :: KeyOf(s, c) == KeyOf(s, d))
    && (forall f :: Reported(c, f) == Reported(d, f))
    && MethodOf(c) == MethodOf(d) && (Flagged(c) <==> Flagged(d))
  }

  predicate Special(key: string) {
    key == SYNTHETIC || key == ID || key == SHAPE || key == TIME
  }

  lemma SpecialIsNotKept(c: Case, key: string)
    requires Special(key)
    ensures key !in KeptCells(c)
  {
    hide Meta, Special;
    NamesAreApart();
  }

  /** The names of a record do not meet. */
  lemma NamesAreApart()
    ensures "benchmark_" <= "benchmark_method" && "benchmark_" <= "benchmark_method_consistent"
    ensures forall key :: Special(key) ==> !("benchmark_" <= key) && key != "params" && key != "dtype"
    ensures ID != SHAPE && ID != TIME && SHAPE != TIME && SYNTHETIC != ID && SYNTHETIC != SHAPE && SYNTHETIC != TIME
  {
    assert SYNTHETIC[0] == '_' && ID[0] == 't' && SHAPE[0] == 's' && TIME[0] == 'e' && "benchmark_"[0] == 'b';
    assert "params"[0] == 'p' && "dtype"[0] == 'd';
  }

  lemma SavedFields(c: Case)
    ensures var r := SavedRecord(c);
            && ID in r && r[ID] == Item(Text(c.id)) && TIME in r && r[TIME] == Stamp(c.time)
            && (SHAPE in r <==> !c.shape.Null?) && (SHAPE in r ==> r[SHAPE] == Item(c.shape))
            && (SYNTHETIC in r <==> Truthy(Get(c, SYNTHETIC))) && (SYNTHETIC in r ==> r[SYNTHETIC] == Item(Bool(true)))
  {
    hide Truthy, Get, KeptCells, ID, SHAPE, TIME, SYNTHETIC;
    NamesAreApart();
    SpecialIsNotKept(c, ID);
    SpecialIsNotKept(c, SHAPE);
    SpecialIsNotKept(c, TIME);
    SpecialIsNotKept(c, SYNTHETIC);
  }

  lemma SavedKey(c: Case, key: string)
    requires !Special(key)
    ensures var r := SavedRecord(c); (key in r <==> Kept(c, key)) && (key in r ==> r[key] == Item(Meta(c)[key]))
  {
  }

  lemma LoadedMetadata(c: Case, key: string)
    requires key in {"params", "dtype", "benchmark_method", "benchmark_method_consistent"}
    ensures LoadRecord(SavedRecord(c)).Some?
    ensures var d := LoadRecord(SavedRecord(c)).value;
            && d.id == c.id && d.time == c.time && d.shape == c.shape
            && Get(d, key) == Get(c, key)
            && (key == "params" || key == "dtype" ==> (key in Meta(d) <==> key in Meta(c)))
            && (Truthy(Get(d, SYNTHETIC)) <==> Truthy(Get(c, SYNTHETIC)))
  {
    hide Truthy, SavedRecord, ID, SHAPE, TIME, SYNTHETIC, Special;
    NamesAreApart();
    TrueIsTruthy();
    SavedFields(c);
    assert !Special(key) by { assert "benchmark_" <= key || key == "params" || key == "dtype"; }
    NotSpecial(key);
    SavedKey(c, key);
  }

  lemma NotSpecial(key: string)
    ensures !Special(key) <==> key != SYNTHETIC && key != ID && key != SHAPE && key != TIME
  {
  }

  lemma TrueIsTruthy()
    ensures Truthy(Bool(true)) && !Truthy(Null)
  {
  }

  /** A saved and reloaded case is alike: its keys, workload, method and time are those of the original, and an id
      that was generated stays marked as generated. */
  lemma ReloadedIsAlike(c: Case)
    ensures LoadRecord(SavedRecord(c)).Some? && Alike(c, LoadRecord(SavedRecord(c)).value)
  {
    hide SavedRecord, LoadRecord, Truthy, Frozen, Get, Meta;
    LoadedMetadata(c, "params");
    LoadedMetadata(c, "dtype");
    LoadedMetadata(c, "benchmark_method");
    LoadedMetadata(c, "benchmark_method_consistent");
    var d := LoadRecord(SavedRecord(c)).value;
    GetIsMeta(c, d, "params");
    GetIsMeta(c, d, "dtype");
  }

  /** Everything saved of the metadata comes back: parameters, dtype, and every entry about the benchmark that is not
      null. */
  lemma MetadataSurvives(c: Case, key: string)
    requires key in Meta(c) && (key == "params" || key == "dtype" || ("benchmark_" <= key && !Meta(c)[key].Null?))
    ensures LoadRecord(SavedRecord(c)).Some?
    ensures var d := LoadRecord(SavedRecord(c)).value; key in Meta(d) && Meta(d)[key] == Meta(c)[key]
  {
    hide Truthy, SavedRecord, ID, SHAPE, TIME, SYNTHETIC, Special;
    NamesAreApart();
    SavedFields(c);
    assert !Special(key);
    NotSpecial(key);
    SavedKey(c, key);
  }

  lemma GetIsMeta(c: Case, d: Case, key: string)
    requires Get(c, key) == Get(d, key) && (key in Meta(d) <==> key in Meta(c))
    ensures key in Meta(c) ==> Meta(c)[key] == Meta(d)[key]
  {
  }

  // ---- Whole lists ----

  ghost predicate AllAlike(cases: seq<Case>, again: seq<Case>) {
    |cases| == |again| && forall k :: 0 <= k < |cases| ==> Alike(cases[k], again[k])
  }

  method SavePerformanceResults(cases: seq<Case>) returns (records: seq<Record>)
    ensures |records| == |cases| && forall k :: 0 <= k < |cases| ==> records[k] == SavedRecord(cases[k])
  {
    hide SavedRecord;
    records := [];
    for n := 0 to |cases|
      invariant |records| == n && forall k :: 0 <= k < n ==> records[k] == SavedRecord(cases[k])
    {
      var record := SaveRecord(cases[n]);
      records := records + [record];
    }
  }

  /** Any record that cannot be read makes the whole list empty. */
  method LoadPerformanceResults(records: seq<Record>) returns (cases: seq<Case>)
    ensures (forall k :: 0 <= k < |records| ==> LoadRecord(records[k]).Some?) ==>
              |cases| == |records| && forall k :: 0 <= k < |cases| ==> LoadRecord(records[k]) == Some(cases[k])
    ensures (exists k :: 0 <= k < |records| && LoadRecord(records[k]).None?) ==> cases == []
  {
    hide LoadRecord;
    cases := [];
    for n := 0 to |records|
      invariant |cases| == n && forall k :: 0 <= k < n ==> LoadRecord(records[k]) == Some(cases[k])
    {
      var c := LoadRecord(records[n]);
      if c.None? {
        return [];
      }
      cases := cases + [c.value];
    }
  }

  method SaveAndLoad(cases: seq<Case>) returns (again: seq<Case>)
    ensures AllAlike(cases, again)
  {
    hide LoadRecord, SavedRecord, Alike;
    var records := SavePerformanceResults(cases);
    forall k | 0 <= k < |cases| ensures LoadRecord(records[k]).Some? && Alike(cases[k], LoadRecord(records[k]).value) {
      ReloadedIsAlike(cases[k]);
    }
    again := LoadPerformanceResults(records);
  }

  lemma PassOnlySeesKeys(s: Strategy, base: seq<Case>, base': seq<Case>, opt: seq<Case>, opt': seq<Case>,
                         before: set<Pair>)
    requires AllAlike(base, base') && AllAlike(opt, opt')
    ensures Pass(s, base, opt, before) == Pass(s, base', opt', before)
  {
    hide KeyOf, Reported, MethodOf, Flagged;
    assert forall k :: 0 <= k < |base| ==> Alike(base[k], base'[k]) && KeyOf(s, base[k]) == KeyOf(s, base'[k]);
    assert forall k :: 0 <= k < |opt| ==> Alike(opt[k], opt'[k]) && KeyOf(s, opt[k]) == KeyOf(s, opt'[k]);
    forall i: nat ensures Sole(s, base, Firsts(before), i) <==> Sole(s, base', Firsts(before), i) {
    }
    forall j: nat ensures Sole(s, opt, Seconds(before), j) <==> Sole(s, opt', Seconds(before), j) {
    }
    forall i: nat, j: nat ensures PassPairs(s, base, opt, before, i, j) <==> PassPairs(s, base', opt', before, i, j) {
    }
  }

  /** Reloading both lists changes nothing: the pairs by position, both verdicts and the score. */
  lemma ReloadedListsCompareAlike(base: seq<Case>, base': seq<Case>, opt: seq<Case>, opt': seq<Case>, complete: bool)
    requires AllAlike(base, base') && AllAlike(opt, opt')
    ensures var pairs := PairsFor(base, opt, complete);
            && PairsFor(base', opt', complete) == pairs
            && (WorkloadsEqual(base, opt, pairs) <==> WorkloadsEqual(base', opt', pairs))
            && (MethodsEqual(base, opt, pairs) <==> MethodsEqual(base', opt', pairs))
            && AverageSpeedup(base, opt, complete) == AverageSpeedup(base', opt', complete)
  {
    hide Pass, KeyOf, Reported, MethodOf, Flagged, Total, Zipped, Remaining;
    PassOnlySeesKeys(ById, base, base', opt, opt', {});
    var a := Pass(ById, base, opt, {});
    PassOnlySeesKeys(ByParams, base, base', opt, opt', a);
    PassOnlySeesKeys(ByShape, base, base', opt, opt', Pass(ByParams, base, opt, a));
    SameVerdicts(base, base', opt, opt', PairsFor(base, opt, complete));
  }

  lemma SameVerdicts(base: seq<Case>, base': seq<Case>, opt: seq<Case>, opt': seq<Case>, pairs: set<Pair>)
    requires AllAlike(base, base') && AllAlike(opt, opt') && PartialInjection(pairs, |base|, |opt|)
    ensures WorkloadsEqual(base, opt, pairs) <==> WorkloadsEqual(base', opt', pairs)
    ensures MethodsEqual(base, opt, pairs) <==> MethodsEqual(base', opt', pairs)
    ensures TimedPairs(base, opt, pairs) == TimedPairs(base', opt', pairs)
    ensures Total(base, opt, TimedPairs(base, opt, pairs)) == Total(base', opt', TimedPairs(base, opt, pairs))
  {
    hide KeyOf, Reported, MethodOf, Flagged;
    hide Alike, SameWorkload, SameMethod, Total;
    forall i: nat, j: nat | i < |base| && j < |opt|
      ensures SameWorkload(base[i], opt[j]) <==> SameWorkload(base'[i], opt'[j])
      ensures SameMethod(base[i], opt[j]) <==> SameMethod(base'[i], opt'[j])
    {
      AlikeVerdicts(base[i], base'[i], opt[j], opt'[j]);
    }
    forall p: Pair ensures Timed(base, opt, p) <==> Timed(base', opt', p) {
      if p.0 < |base| && p.1 < |opt| {
        AlikeVerdicts(base[p.0], base'[p.0], opt[p.1], opt'[p.1]);
      }
    }
    SameTotal(base, base', opt, opt', TimedPairs(base, opt, pairs));
  }

  lemma AlikeVerdicts(b: Case, b': Case, o: Case, o': Case)
    requires Alike(b, b') && Alike(o, o')
    ensures SameWorkload(b, o) <==> SameWorkload(b', o')
    ensures SameMethod(b, o) <==> SameMethod(b', o')
    ensures b.time == b'.time && o.time == o'.time
  {
    hide KeyOf, Reported, MethodOf, Flagged;
    assert forall f :: Reported(b, f) == Reported(b', f) && Reported(o, f) == Reported(o', f);
    assert forall f :: Changed(b, o, f) <==> Changed(b', o', f);
  }

  lemma {:induction false} SameTotal(base: seq<Case>, base': seq<Case>, opt: seq<Case>, opt': seq<Case>,
                                     pairs: set<Pair>)
    requires AllAlike(base, base') && AllAlike(opt, opt')
    requires AllTimed(base, opt, pairs) && AllTimed(base', opt', pairs)
    ensures Total(base, opt, pairs) == Total(base', opt', pairs)
    decreases |pairs|
  {
    hide KeyOf, Reported, MethodOf, Flagged;
    if pairs != {} {
      var p :| p in pairs;
      TotalWithout(base, opt, pairs, p);
      TotalWithout(base', opt', pairs, p);
      assert Alike(base[p.0], base'[p.0]) && Alike(opt[p.1], opt'[p.1]);
      SameTotal(base, base', opt, opt', pairs - {p});
    }
  }
}
