/** Zero-padded numbers in file names, as Python's {n:0w d} format writes them. */
module Naming {
  function Digit(d: nat): char
    requires d < 10
  {
    '0' + d as char
  }

  predicate IsDigit(c: char) {
    '0' <= c <= '9'
  }

  predicate AllDigits(s: string) {
    forall k :: 0 <= k < |s| ==> IsDigit(s[k])
  }

  function Digits(n: nat): (s: string)
    ensures |s| > 0 && AllDigits(s)
  {
    if n < 10 then [Digit(n)] else Digits(n / 10) + [Digit(n % 10)]
  }

  function Zeros(k: nat): (s: string)
    ensures |s| == k && AllDigits(s)
  {
    if k == 0 then "" else "0" + Zeros(k - 1)
  }

  function Padded(n: nat, width: nat): (s: string)
    ensures |s| >= width && |s| > 0 && AllDigits(s)
  {
    var d := Digits(n);
    if |d| < width then Zeros(width - |d|) + d else d
  }

  function Value(s: string): nat
    requires AllDigits(s)
  {
    if s == "" then 0 else 10 * Value(s[..|s| - 1]) + (s[|s| - 1] as nat - '0' as nat)
  }

  lemma {:induction false} ZerosHaveNoValue(k: nat)
    ensures Value(Zeros(k)) == 0
  {
    if k > 0 {
      ZerosHaveNoValue(k - 1);
      ZerosAppend(k - 1);
      assert Zeros(k)[..k - 1] == Zeros(k - 1);
    }
  }

  lemma {:induction false} ZerosAppend(k: nat)
    ensures Zeros(k + 1) == Zeros(k) + "0"
  {
    if k > 0 {
      ZerosAppend(k - 1);
    }
  }

  lemma {:induction false} ZerosThenDigits(k: nat, n: nat)
    ensures Value(Zeros(k) + Digits(n)) == n
    decreases n
  {
    var s := Zeros(k) + Digits(n);
    if n < 10 {
      ZerosHaveNoValue(k);
      assert s[..|s| - 1] == Zeros(k);
    } else {
      ZerosThenDigits(k, n / 10);
      assert s[..|s| - 1] == Zeros(k) + Digits(n / 10);
    }
  }

  /** Padding loses nothing: a padded number can be read back. */
  lemma PaddedValue(n: nat, width: nat)
    ensures Value(Padded(n, width)) == n
  {
    hide Value, Digits, Zeros;
    var k := if |Digits(n)| < width then width - |Digits(n)| else 0;
    ZerosThenDigits(k, n);
    assert k == 0 ==> Zeros(k) + Digits(n) == Digits(n);
  }

  /** Lexicographic order of strings, as sorted() compares file names. */
  predicate Less(s: string, t: string) {
    if t == "" then false
    else if s == "" then true
    else if s[0] == t[0] then Less(s[1..], t[1..])
    else s[0] < t[0]
  }

  lemma {:induction false} LessAfter(p: string, s: string, t: string)
    ensures Less(p + s, p + t) <==> Less(s, t)
  {
    if p == "" {
      assert p + s == s && p + t == t;
    } else {
      assert (p + s)[1..] == p[1..] + s && (p + t)[1..] == p[1..] + t;
      LessAfter(p[1..], s, t);
    }
  }

  /** Strings that differ at some position below the lengths of both compare by their first difference. */
  lemma {:induction false} LessAt(s: string, t: string, k: nat)
    requires k < |s| && k < |t| && s[..k] == t[..k] && s[k] < t[k]
    ensures Less(s, t)
  {
    if k > 0 {
      assert s[0] == s[..k][0] == t[..k][0] == t[0];
      assert s[1..][..k - 1] == s[..k][1..] && t[1..][..k - 1] == t[..k][1..];
      LessAt(s[1..], t[1..], k - 1);
    }
  }
}
