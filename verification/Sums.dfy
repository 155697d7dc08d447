// Sums of a weight over a sequence, used to count goroutines by program point.
module Sums {

  function Sum<T>(s: seq<T>, f: T -> int): int {
    if s == [] then 0 else f(s[0]) + Sum(s[1..], f)
  }

  lemma {:induction false} SumUpdate<T>(s: seq<T>, i: nat, x: T, f: T -> int)
    requires i < |s|
    ensures Sum(s[i := x], f) == Sum(s, f) - f(s[i]) + f(x)
  {
    if i == 0 {
      assert s[0 := x][1..] == s[1..];
    } else {
      assert s[i := x][1..] == s[1..][i - 1 := x];
      SumUpdate(s[1..], i - 1, x, f);
    }
  }

  lemma {:induction false} SumConstant<T>(s: seq<T>, f: T -> int, c: int)
    requires forall i :: 0 <= i < |s| ==> f(s[i]) == c
    ensures Sum(s, f) == |s| * c
  {
    if s != [] {
      forall i | 0 <= i < |s[1..]| ensures f(s[1..][i]) == c { assert s[1..][i] == s[i + 1]; }
      SumConstant(s[1..], f, c);
    }
  }

  lemma {:induction false} SumAtLeast<T>(s: seq<T>, i: nat, f: T -> int)
    requires forall x :: x in s ==> f(x) >= 0
    requires i < |s|
    ensures Sum(s, f) >= f(s[i])
  {
    SumNonNegative(s[1..], f);
    if i > 0 {
      SumAtLeast(s[1..], i - 1, f);
    }
  }

  lemma {:induction false} SumNonNegative<T>(s: seq<T>, f: T -> int)
    requires forall x :: x in s ==> f(x) >= 0
    ensures Sum(s, f) >= 0
  {
    if s != [] {
      SumNonNegative(s[1..], f);
    }
  }

  lemma {:induction false} SumPointwise<T>(s: seq<T>, f: T -> int, g: T -> int, h: T -> int)
    requires forall x :: x in s ==> f(x) + g(x) == h(x)
    ensures Sum(s, f) + Sum(s, g) == Sum(s, h)
  {
    if s != [] {
      SumPointwise(s[1..], f, g, h);
    }
  }

  lemma {:induction false} SumIncrease<T>(s: seq<T>, f: T -> int, g: T -> int, c: nat)
    requires forall x :: x in s ==> g(x) <= f(x) + c
    ensures Sum(s, g) <= Sum(s, f) + |s| * c
  {
    if s != [] {
      SumIncrease(s[1..], f, g, c);
    }
  }

  lemma {:induction false} SumPositive<T>(s: seq<T>, f: T -> int) returns (i: nat)
    requires Sum(s, f) > 0
    ensures i < |s| && f(s[i]) > 0
  {
    if f(s[0]) > 0 {
      i := 0;
    } else {
      i := SumPositive(s[1..], f);
      i := i + 1;
    }
  }
}
