/**
 * The pieces of Go's standard library the core relies on for text:
 * strings.ToLower (on ASCII letters), strings.Join, strconv.FormatInt in
 * base 10 and strconv.Atoi on a 64-bit platform.
 */
module GoStrings {
  import opened Wrappers

  /** Lower-cases one ASCII letter; every other character is kept. */
  function LowerChar(c: char): char {
    if 'A' <= c <= 'Z' then (c as int + 32) as char else c
  }

  /** strings.ToLower, restricted to ASCII case mapping. */
  function ToLower(s: string): (r: string)
    ensures |r| == |s|
    ensures forall i :: 0 <= i < |r| ==> !('A' <= r[i] <= 'Z')
    ensures forall i :: 0 <= i < |r| ==> (r[i] == s[i] || ('A' <= s[i] <= 'Z' && r[i] == LowerChar(s[i])))
  {
    seq(|s|, i requires 0 <= i < |s| => LowerChar(s[i]))
  }

  /** strings.Join: the parts with `sep` between consecutive ones. */
  function Join(parts: seq<string>, sep: string): string
  {
    if |parts| == 0 then ""
    else if |parts| == 1 then parts[0]
    else parts[0] + sep + Join(parts[1..], sep)
  }

  /** Joining non-empty parts gives "" exactly when there is no part. */
  lemma JoinEmptyIff(parts: seq<string>, sep: string)
    requires forall i :: 0 <= i < |parts| ==> parts[i] != ""
    ensures Join(parts, sep) == "" <==> parts == []
  {
    if |parts| > 1 {
      assert Join(parts, sep)[..|parts[0]|] == parts[0];
    }
  }

  predicate IsDigit(c: char) {
    '0' <= c <= '9'
  }

  predicate AllDigits(s: string) {
    forall i :: 0 <= i < |s| ==> IsDigit(s[i])
  }

  function DigitChar(d: int): (c: char)
    requires 0 <= d < 10
    ensures IsDigit(c)
  {
    ('0' as int + d) as char
  }

  function DigitValue(c: char): (d: int)
    requires IsDigit(c)
    ensures 0 <= d < 10 && DigitChar(d) == c
  {
    c as int - '0' as int
  }

  /** Decimal digits of a natural number, most significant first, no leading zero. */
  function FormatNat(n: nat): (r: string)
    ensures |r| >= 1 && AllDigits(r)
    ensures |r| > 1 ==> r[0] != '0'
    decreases n
  {
    if n < 10 then [DigitChar(n)] else FormatNat(n / 10) + [DigitChar(n % 10)]
  }

  /** strconv.FormatInt(n, 10) and the %d verb: a minus sign for negative values. */
  function FormatInt(n: int): (r: string)
    ensures |r| >= 1
    ensures r[0] == '-' <==> n < 0
    ensures forall i :: 0 < i < |r| ==> IsDigit(r[i])
  {
    if n < 0 then "-" + FormatNat(-n) else FormatNat(n)
  }

  /** The value of a string of decimal digits, most significant first. */
  function DigitsValue(ds: string): nat
    requires AllDigits(ds)
    decreases |ds|
  {
    if ds == [] then 0 else DigitsValue(ds[..|ds| - 1]) * 10 + DigitValue(ds[|ds| - 1])
  }

  lemma {:induction false} DigitsValueOfFormatNat(n: nat)
    ensures DigitsValue(FormatNat(n)) == n
    decreases n
  {
    if n >= 10 {
      var r := FormatNat(n);
      assert r[..|r| - 1] == FormatNat(n / 10);
      DigitsValueOfFormatNat(n / 10);
    }
  }

  const MinInt64: int := -0x8000_0000_0000_0000
  const MaxInt64: int := 0x7fff_ffff_ffff_ffff

  /** The digits of `s` once an optional leading sign is removed. */
  function Unsigned(s: string): string {
    if |s| > 0 && (s[0] == '-' || s[0] == '+') then s[1..] else s
  }

  /** The signed value of an optional sign followed by decimal digits. */
  function SignedValue(s: string): int
    requires AllDigits(Unsigned(s))
  {
    if |s| > 0 && s[0] == '-' then -(DigitsValue(Unsigned(s)) as int) else DigitsValue(Unsigned(s))
  }

  /**
   * strconv.Atoi with a 64-bit int: an optional '+' or '-' followed by at least
   * one decimal digit, whose value lies in the int64 range; anything else is an
   * error (None).
   */
  function Atoi(s: string): (r: Option<int>)
    ensures r.Some? <==> Unsigned(s) != "" && AllDigits(Unsigned(s))
                         && MinInt64 <= SignedValue(s) <= MaxInt64
    ensures r.Some? ==> r.value == SignedValue(s) && MinInt64 <= r.value <= MaxInt64
    ensures r.Some? ==> s != "" && s[0] != '-' ==> r.value >= 0
  {
    var ds := Unsigned(s);
    if ds == [] || !AllDigits(ds) then None
    else
      var v := SignedValue(s);
      if MinInt64 <= v <= MaxInt64 then Some(v) else None
  }

  /** Parsing what FormatInt prints gives the number back, across the int64 range. */
  lemma AtoiFormatInt(n: int)
    requires MinInt64 <= n <= MaxInt64
    ensures Atoi(FormatInt(n)) == Some(n)
  {
    var s := FormatInt(n);
    if n < 0 {
      assert Unsigned(s) == FormatNat(-n);
      DigitsValueOfFormatNat(-n);
    } else {
      assert Unsigned(s) == FormatNat(n);
      DigitsValueOfFormatNat(n);
    }
  }

  lemma FormatNatInjective(a: nat, b: nat)
    requires FormatNat(a) == FormatNat(b)
    ensures a == b
  {
    DigitsValueOfFormatNat(a);
    DigitsValueOfFormatNat(b);
  }

  /** Distinct numbers print differently. */
  lemma FormatIntInjective(a: int, b: int)
    requires FormatInt(a) == FormatInt(b)
    ensures a == b
  {
    if a < 0 && b < 0 {
      assert FormatNat(-a) == FormatInt(a)[1..];
      assert FormatNat(-b) == FormatInt(b)[1..];
      FormatNatInjective(-a, -b);
    } else if a >= 0 && b >= 0 {
      FormatNatInjective(a, b);
    }
  }

  /** The index of the first d in s, or |s| when there is none. */
  function IndexOf(s: string, d: char): (k: nat)
    ensures k <= |s|
  {
    if s == [] || s[0] == d then 0 else 1 + IndexOf(s[1..], d)
  }

  lemma {:induction false} IndexOfAfterFreePrefix(a: string, x: string, d: char)
    requires forall i :: 0 <= i < |a| ==> a[i] != d
    ensures IndexOf(a + [d] + x, d) == |a|
  {
    if a != [] {
      assert (a + [d] + x)[1..] == a[1..] + [d] + x;
      IndexOfAfterFreePrefix(a[1..], x, d);
    }
  }

  /** Two strings that each start with a d-free prefix followed by d split the same way. */
  lemma SplitAtFirst(a: string, x: string, b: string, y: string, d: char)
    requires forall i :: 0 <= i < |a| ==> a[i] != d
    requires forall i :: 0 <= i < |b| ==> b[i] != d
    requires a + [d] + x == b + [d] + y
    ensures a == b && x == y
  {
    var s := a + [d] + x;
    IndexOfAfterFreePrefix(a, x, d);
    IndexOfAfterFreePrefix(b, y, d);
    assert a == s[..|a|] == b;
    assert x == s[|a| + 1..] == y;
  }

  lemma FormatIntHasNo(n: int, d: char)
    requires d != '-' && !IsDigit(d)
    ensures forall i :: 0 <= i < |FormatInt(n)| ==> FormatInt(n)[i] != d
  {
  }

  /** A tail that starts with a d-free piece, then d, decides that piece. */
  lemma SplitLeading(a: string, rest1: string, b: string, rest2: string, d: char)
    requires forall i :: 0 <= i < |a| ==> a[i] != d
    requires forall i :: 0 <= i < |b| ==> b[i] != d
    requires a + ([d] + rest1) == b + ([d] + rest2)
    ensures a == b && rest1 == rest2
  {
    assert a + ([d] + rest1) == a + [d] + rest1;
    assert b + ([d] + rest2) == b + [d] + rest2;
    SplitAtFirst(a, rest1, b, rest2, d);
  }
}
