/** Sums over sequences of integers, the larger of two, and a step of multiplication. */
module Arithmetic {

  function Max(a: int, b: int): (m: int)
    ensures m >= a && m >= b && (m == a || m == b)
  {
    if a < b then b else a
  }

  function Min(a: int, b: int): (m: int)
    ensures m <= a && m <= b && (m == a || m == b)
  {
    if a < b then a else b
  }

  function Sum(list: seq<int>): int {
    if list == [] then 0 else list[0] + Sum(list[1..])
  }

  lemma {:induction false} SumAppend(a: seq<int>, b: seq<int>)
    ensures Sum(a + b) == Sum(a) + Sum(b)
  {
    if a == [] {
      assert a + b == b;
    } else {
      assert (a + b)[1..] == a[1..] + b;
      SumAppend(a[1..], b);
    }
  }

  lemma SumWithout(list: seq<int>, k: nat)
    requires k < |list|
    ensures Sum(list[..k] + list[k + 1..]) == Sum(list) - list[k]
  {
    assert list == list[..k] + list[k..];
    SumAppend(list[..k], list[k..]);
    assert list[k..][1..] == list[k + 1..];
    SumAppend(list[..k], list[k + 1..]);
  }

  lemma SumUpdate(list: seq<int>, k: nat, x: int)
    requires k < |list|
    ensures Sum(list[k := x]) == Sum(list) - list[k] + x
  {
    SumWithout(list, k);
    SumWithout(list[k := x], k);
    assert list[k := x][..k] + list[k := x][k + 1..] == list[..k] + list[k + 1..];
  }

  lemma {:induction false} MulGap(m: int, n: int, i: int)
    requires i > 0
    ensures m > n ==> m * i >= n * i + i
    decreases m - n
  {
    if m > n {
      assert m * i == (m - 1) * i + i;
      MulGap(m - 1, n, i);
    }
  }
}
