/** The order in which the records of a session are read: load sorts their file names. */
module RecordNames {
  import opened Naming

  function RecordName(number: nat, rest: string): string {
    "action-" + (Padded(number, 4) + ("-" + rest))
  }

  lemma {:induction false} SameValue(s: string, t: string)
    requires AllDigits(s) && AllDigits(t) && |s| == |t| && Value(s) == Value(t)
    ensures s == t
  {
    var n := |s| - 1;
    if s != "" {
      SameValue(s[..n], t[..n]);
      assert s == s[..n] + [s[n]] && t == t[..n] + [t[n]];
    }
  }

  /** Equally long numbers are ordered by the first digit in which they differ. */
  lemma {:induction false} FirstDifference(s: string, t: string) returns (k: nat)
    requires AllDigits(s) && AllDigits(t) && |s| == |t| && Value(s) < Value(t)
    ensures k < |s| && s[..k] == t[..k] && s[k] < t[k]
  {
    k := |s| - 1;
    if Value(s[..k]) < Value(t[..k]) {
      var n := k;
      k := FirstDifference(s[..n], t[..n]);
      assert s[..n][..k] == s[..k] && t[..n][..k] == t[..k];
    } else {
      SameValue(s[..k], t[..k]);
    }
  }

  lemma {:induction false} DigitCount(n: nat, width: nat)
    requires 0 < width && n < Power(width)
    ensures |Digits(n)| <= width
  {
    if n >= 10 {
      DigitCount(n / 10, width - 1);
    }
  }

  function Power(k: nat): nat {
    if k == 0 then 1 else 10 * Power(k - 1)
  }

  /** Below 10000 records, sorting the file names sorts the numbers. */
  lemma NamesSortAsNumbers(a: nat, b: nat, x: string, y: string)
    requires a < b < 10000
    ensures Less(RecordName(a, x), RecordName(b, y))
  {
    hide Less, Value, Digits, Zeros;
    assert Power(4) == 10000;
    DigitCount(a, 4);
    DigitCount(b, 4);
    PaddedValue(a, 4);
    PaddedValue(b, 4);
    var k := FirstDifference(Padded(a, 4), Padded(b, 4));
    var s, t := Padded(a, 4) + ("-" + x), Padded(b, 4) + ("-" + y);
    assert s[..k] == Padded(a, 4)[..k] && t[..k] == Padded(b, 4)[..k];
    LessAt(s, t, k);
    LessAfter("action-", s, t);
  }

  /** At 10000 the order breaks: that record would be replayed before record 9999. */
  lemma NamesBreakAtTenThousand(x: string, y: string)
    ensures Less(RecordName(10000, x), RecordName(9999, y))
  {
    hide Less, Padded;
    LeadingDigits();
    var s, t := Padded(10000, 4) + ("-" + x), Padded(9999, 4) + ("-" + y);
    LessAt(s, t, 0);
    LessAfter("action-", s, t);
  }

  lemma LeadingDigits()
    ensures Padded(10000, 4)[0] == '1' && Padded(9999, 4)[0] == '9'
  {
  }

  lemma {:induction false} LessIsOneWay(s: string, t: string)
    ensures Less(s, t) ==> !Less(t, s)
  {
    if s != "" && t != "" && s[0] == t[0] {
      LessIsOneWay(s[1..], t[1..]);
    }
  }

  /** Among n records the names are in the order of the numbers exactly when n is below 10000. */
  lemma NamesSortExactly(n: nat, x: string, y: string)
    ensures (forall a: nat, b: nat :: a < b <= n ==> Less(RecordName(a, x), RecordName(b, y))) <==> n < 10000
  {
    hide Less, RecordName;
    if n < 10000 {
      forall a: nat, b: nat | a < b <= n ensures Less(RecordName(a, x), RecordName(b, y)) {
        NamesSortAsNumbers(a, b, x, y);
      }
    } else {
      NamesBreakAtTenThousand(y, x);
      LessIsOneWay(RecordName(10000, y), RecordName(9999, x));
    }
  }
}
