// Splitting, joining and decimal numerals, as Go's strings, fmt and strconv do them.
module Text {

  datatype Option<T> = None | Some(value: T)

  // One byte of a Go string.
  type Byte = c: char | c as int < 0x100 witness 'a'
  type Bytes = seq<Byte>

  // ---- Splitting ----

  function Split(s: string, sep: char): (parts: seq<string>)
    ensures |parts| >= 1
  {
    if s == "" then [""]
    else
      var rest := Split(s[1..], sep);
      if s[0] == sep then [""] + rest else [[s[0]] + rest[0]] + rest[1..]
  }

  function Join(parts: seq<string>, sep: char): string
    requires parts != []
  {
    if |parts| == 1 then parts[0] else parts[0] + [sep] + Join(parts[1..], sep)
  }

  lemma {:induction false} SplitPlain(s: string, sep: char)
    requires sep !in s
    ensures Split(s, sep) == [s]
  {
    if s != "" {
      SplitPlain(s[1..], sep);
      assert [s[0]] + s[1..] == s;
    }
  }

  lemma OntoFirst(c: char, xs: seq<string>, ys: seq<string>)
    requires xs != []
    ensures [[c] + (xs + ys)[0]] + (xs + ys)[1..] == [[c] + xs[0]] + xs[1..] + ys
    ensures [""] + (xs + ys) == [""] + xs + ys
  {
  }

  lemma {:induction false} SplitConcat(a: string, b: string, sep: char)
    ensures Split(a + [sep] + b, sep) == Split(a, sep) + Split(b, sep)
  {
    if a == "" {
      assert a + [sep] + b == [sep] + b;
      assert ([sep] + b)[1..] == b;
    } else {
      assert (a + [sep] + b)[1..] == a[1..] + [sep] + b;
      SplitConcat(a[1..], b, sep);
      OntoFirst(a[0], Split(a[1..], sep), Split(b, sep));
    }
  }

  lemma {:induction false} SplitPartsPlain(s: string, sep: char)
    ensures forall i :: 0 <= i < |Split(s, sep)| ==> sep !in Split(s, sep)[i]
  {
    if s != "" {
      SplitPartsPlain(s[1..], sep);
    }
  }

  lemma {:induction false} JoinSplit(s: string, sep: char)
    ensures Join(Split(s, sep), sep) == s
  {
    if s != "" {
      JoinSplit(s[1..], sep);
      var rest := Split(s[1..], sep);
      if s[0] == sep {
        assert ([""] + rest)[1..] == rest;
        assert "" + [sep] + s[1..] == s;
      } else if |rest| == 1 {
        assert [[s[0]] + rest[0]] + rest[1..] == [[s[0]] + rest[0]];
        assert [s[0]] + s[1..] == s;
      } else {
        var parts := [[s[0]] + rest[0]] + rest[1..];
        assert parts[1..] == rest[1..];
        assert parts[0] + [sep] + Join(rest[1..], sep) == [s[0]] + (rest[0] + [sep] + Join(rest[1..], sep));
      }
    }
  }

  // Splitting what was joined gives the parts back exactly when none of them
  // holds the separator.
  lemma {:induction false} SplitJoin(parts: seq<string>, sep: char)
    requires parts != []
    ensures Split(Join(parts, sep), sep) == parts <==> forall p :: p in parts ==> sep !in p
  {
    if forall p :: p in parts ==> sep !in p {
      SplitPlain(parts[0], sep);
      if |parts| > 1 {
        SplitConcat(parts[0], Join(parts[1..], sep), sep);
        SplitJoin(parts[1..], sep);
        assert [parts[0]] + parts[1..] == parts;
      } else {
        assert parts == [parts[0]];
      }
    } else {
      SplitPartsPlain(Join(parts, sep), sep);
    }
  }

  lemma {:induction false} OnePart(s: string, sep: char)
    ensures |Split(s, sep)| == 1 <==> sep !in s
  {
    if s != "" {
      OnePart(s[1..], sep);
    }
  }

  function Occurrences(s: string, sep: char): nat {
    if s == "" then 0 else (if s[0] == sep then 1 else 0) + Occurrences(s[1..], sep)
  }

  lemma {:induction false} SplitLength(s: string, sep: char)
    ensures |Split(s, sep)| == 1 + Occurrences(s, sep)
  {
    if s != "" {
      SplitLength(s[1..], sep);
    }
  }

  // ---- Decimal numerals ----

  predicate IsDigit(c: char) { '0' <= c <= '9' }

  predicate AllDigits(s: string) { forall i :: 0 <= i < |s| ==> IsDigit(s[i]) }

  function DigitChar(d: nat): (c: char)
    requires d < 10
    ensures IsDigit(c)
  {
    '0' + d as char
  }

  function DigitValue(c: char): (d: nat)
    requires IsDigit(c)
    ensures d < 10
  {
    (c - '0') as nat
  }

  function PrintNat(n: nat): (s: string)
    ensures s != "" && AllDigits(s)
  {
    if n < 10 then [DigitChar(n)] else PrintNat(n / 10) + [DigitChar(n % 10)]
  }

  function PrintInt(z: int): (s: string)
    ensures s != "" && forall i :: 0 <= i < |s| ==> IsDigit(s[i]) || s[i] == '-'
  {
    if z < 0 then "-" + PrintNat(-z) else PrintNat(z)
  }

  function Value(s: string): nat
    requires AllDigits(s)
  {
    if s == "" then 0 else 10 * Value(s[..|s| - 1]) + DigitValue(s[|s| - 1])
  }

  // strconv.ParseUint(s, 10, bits) with `bound` = 2^bits.
  function ParseUint(s: string, bound: nat): Option<nat> {
    if s != "" && AllDigits(s) && Value(s) < bound then Some(Value(s)) else None
  }

  const TWO_TO_32: nat := 0x1_0000_0000
  const TWO_TO_63: int := 0x8000_0000_0000_0000

  // strconv.ParseInt(s, 10, 64)
  function ParseInt64(s: string): Option<int> {
    if s == "" then None
    else
      var signed := s[0] == '+' || s[0] == '-';
      var digits := if signed then s[1..] else s;
      if digits == "" || !AllDigits(digits) then None
      else
        var v: int := Value(digits);
        if s[0] == '-' then (if v <= TWO_TO_63 then Some(-v) else None)
        else if v < TWO_TO_63 then Some(v) else None
  }

  lemma {:induction false} ValuePrintNat(n: nat)
    ensures Value(PrintNat(n)) == n
  {
    if n < 10 {
      assert [DigitChar(n)][..0] == "";
    } else {
      ValuePrintNat(n / 10);
      var s := PrintNat(n / 10) + [DigitChar(n % 10)];
      assert s[..|s| - 1] == PrintNat(n / 10);
    }
  }

  // A numeral is its digits from the highest to the lowest, without a leading
  // zero.
  lemma {:induction false} NumeralDigits(n: nat, d: nat)
    requires d < 10
    ensures PrintNat(d) == ["0123456789"[d]]
    ensures n > 0 ==> PrintNat(10 * n + d) == PrintNat(n) + ["0123456789"[d]] && PrintNat(n)[0] != '0'
  {
    if n >= 10 {
      NumeralDigits(n / 10, n % 10);
    }
  }

  lemma PrintNatInjective(m: nat, n: nat)
    requires PrintNat(m) == PrintNat(n)
    ensures m == n
  {
    ValuePrintNat(m);
    ValuePrintNat(n);
  }

  // A printed number parses back exactly when it fits the width.
  lemma ParseUintPrintNat(n: nat, bound: nat)
    ensures ParseUint(PrintNat(n), bound) == if n < bound then Some(n) else None
  {
    ValuePrintNat(n);
  }

  lemma ParseInt64Digits(d: string)
    requires d != "" && AllDigits(d)
    ensures ParseInt64(d) == if Value(d) < TWO_TO_63 then Some(Value(d)) else None
    ensures ParseInt64("-" + d) == if Value(d) <= TWO_TO_63 then Some(-(Value(d) as int)) else None
  {
    assert IsDigit(d[0]);
    assert ("-" + d)[1..] == d;
  }

  lemma ParseInt64PrintInt(z: int)
    ensures ParseInt64(PrintInt(z)) == if -TWO_TO_63 <= z < TWO_TO_63 then Some(z) else None
  {
    var n: nat := if z < 0 then -z else z;
    ValuePrintNat(n);
    ParseInt64Digits(PrintNat(n));
  }
}
