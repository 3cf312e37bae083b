/** Splitting an amount of damage into a falling list of hits. */
module DamageList {
  import opened Arithmetic

  function Abs(x: int): nat {
    if x < 0 then -x else x
  }

  /** The share of amount that should have been dealt once every hit of at least i is through. */
  function Share(amount: nat, start: int, i: int): int
    requires 1 <= i <= start
  {
    ((start + 1 - i) * amount) / start
  }

  // ----- The reference: each value is dealt as often as fits its share best --------------------------

  /** How often i is dealt when gap is missing to its share: at least once, and then for as long as
      another i brings the total nearer. */
  function Repeats(gap: int, i: int): nat
    requires i > 0
    decreases if gap > 0 then gap else 0
  {
    if 2 * (gap - i) > i then 1 + Repeats(gap - i, i) else 1
  }

  function Copies(i: int, n: nat): seq<int> {
    seq(n, k => i)
  }

  /** The hits from i down to 1, when the hits above i add up to sum. */
  function Hits(amount: nat, start: int, i: int, sum: int): seq<int>
    requires 0 <= i <= start
    decreases i
  {
    if i == 0 then []
    else
      var gap := Share(amount, start, i) - sum;
      Copies(i, Repeats(gap, i)) + Hits(amount, start, i - 1, sum + Dealt(gap, i))
  }

  /** What those repetitions of i add up to. */
  function Dealt(gap: int, i: int): (d: int)
    requires i > 0
    ensures d >= i && 2 * (gap - d) <= i && (d > i ==> 2 * (d - gap) < i)
    decreases if gap > 0 then gap else 0
  {
    if 2 * (gap - i) > i then i + Dealt(gap - i, i) else i
  }

  lemma {:induction false} DealtIsRepeats(gap: int, i: int)
    requires i > 0
    ensures Repeats(gap, i) >= 1 && Dealt(gap, i) == Repeats(gap, i) * i
    decreases if gap > 0 then gap else 0
  {
    if 2 * (gap - i) > i { DealtIsRepeats(gap - i, i); }
  }

  /** The chosen count is the best one: no other count of i ends nearer to the share. */
  lemma RepeatsNearest(gap: int, i: int, m: nat)
    requires i > 0 && m >= 1
    ensures Abs(gap - Repeats(gap, i) * i) <= Abs(gap - m * i)
  {
    hide Dealt;
    DealtIsRepeats(gap, i);
    MulGap(m, Repeats(gap, i), i);
    MulGap(Repeats(gap, i), m, i);
    MulGap(Repeats(gap, i), 1, i);
  }

  lemma {:induction false} SumCopies(i: int, n: nat)
    ensures Sum(Copies(i, n)) == n * i
  {
    if n > 0 {
      assert Copies(i, n)[1..] == Copies(i, n - 1);
      SumCopies(i, n - 1);
      assert n * i == (n - 1) * i + i;
    }
  }

  lemma HitsSum(amount: nat, start: int, i: int, sum: int)
    requires 1 <= i <= start
    ensures var next := sum + Dealt(Share(amount, start, i) - sum, i);
            sum + Sum(Hits(amount, start, i, sum)) == next + Sum(Hits(amount, start, i - 1, next))
  {
    hide Share, Dealt, Repeats, Copies, Sum;
    var gap := Share(amount, start, i) - sum;
    SumAppend(Copies(i, Repeats(gap, i)), Hits(amount, start, i - 1, sum + Dealt(gap, i)));
    SumCopies(i, Repeats(gap, i));
    DealtIsRepeats(gap, i);
  }

  lemma NoMoreHits(amount: nat, start: int, sum: int)
    requires start >= 1
    ensures Sum(Hits(amount, start, 0, sum)) == 0
  {
  }

  // ----- How shares grow -----------------------------------------------------------------------------

  lemma LastShare(amount: nat, start: int)
    requires start >= 1
    ensures Share(amount, start, 1) == amount
  {
    var q := (start * amount) / start;
    MulGap(amount, q, start);
    MulGap(q, amount, start);
    assert q * start <= start * amount < q * start + start;
  }

  lemma ShareNotNegative(amount: nat, start: int, i: int)
    requires 1 <= i <= start
    ensures Share(amount, start, i) >= 0
  {
    var product := (start + 1 - i) * amount;
    assert product >= 0;
    assert product < (product / start) * start + start;
    MulGap(0, product / start, start);
  }

  /** From one value to the next lower one the share grows by an equal part, rounded down. */
  lemma ShareGrows(amount: nat, start: int, i: int)
    requires 1 <= i <= start
    ensures i < start ==> Share(amount, start, i) >= Share(amount, start, i + 1)
    ensures i < start && amount >= start * start ==> Share(amount, start, i) >= Share(amount, start, i + 1) + start
    ensures i == start && amount >= start * start ==> Share(amount, start, i) >= start
  {
    var j := start - i;
    OneMore(j, amount);
    AddedQuotient(j * amount, amount, start, 0);
    if amount >= start * start { AddedQuotient(j * amount, amount, start, start); }
    QuotientFrom(j * amount, 0, start);
  }

  lemma OneMore(j: nat, amount: nat)
    ensures (j + 1) * amount == j * amount + amount && j * amount >= 0
  {
  }

  lemma QuotientFrom(x: int, k: int, b: int)
    requires b >= 1 && x >= k * b
    ensures x / b >= k
  {
    MulGap(k, x / b, b);
  }

  lemma AddedQuotient(x: nat, y: nat, b: int, k: nat)
    requires b >= 1 && y >= k * b
    ensures (x + y) / b >= x / b + k
  {
    var q := x / b;
    assert q * b <= x;
    assert (q + k) * b == q * b + k * b;
    QuotientFrom(x + y, q + k, b);
  }

  // ----- The promises ---------------------------------------------------------------------------------

  /** 1 + ... + i */
  function Triangle(i: nat): nat {
    if i == 0 then 0 else i + Triangle(i - 1)
  }

  lemma {:induction false} TriangleIs(i: nat)
    ensures 2 * Triangle(i) == i * (i + 1)
  {
    if i > 0 {
      TriangleIs(i - 1);
      assert i * (i + 1) == (i - 1) * i + 2 * i;
    }
  }

  /** The hits bring the total at least to amount, and beyond it by no more than each value once. */
  lemma {:induction false} HitsTotal(amount: nat, start: int, i: int, sum: int, over: nat)
    requires 0 <= i <= start && start >= 1 && (i == 0 ==> sum >= amount)
    requires if i == start then sum == 0 else sum <= Share(amount, start, i + 1) + over
    ensures amount <= sum + Sum(Hits(amount, start, i, sum)) <= amount + over + Triangle(i)
    decreases i
  {
    hide Share, Dealt, Hits, Sum;
    LastShare(amount, start);
    NoMoreHits(amount, start, sum);
    if i > 0 {
      ShareGrows(amount, start, i);
      ShareNotNegative(amount, start, i);
      HitsSum(amount, start, i, sum);
      HitsTotal(amount, start, i - 1, sum + Dealt(Share(amount, start, i) - sum, i), over + i);
    }
  }

  /** A large enough amount is met exactly. */
  lemma {:induction false} HitsExact(amount: nat, start: int, i: int, sum: int)
    requires 0 <= i <= start && start >= 1 && amount >= start * start && (i == 0 ==> sum >= amount)
    requires if i == start then sum == 0 else 2 * (sum - Share(amount, start, i + 1)) <= i + 1
    ensures sum + Sum(Hits(amount, start, i, sum)) == amount
    decreases i
  {
    hide Share, Dealt, Hits, Sum;
    LastShare(amount, start);
    NoMoreHits(amount, start, sum);
    if i > 0 {
      ShareGrows(amount, start, i);
      HitsSum(amount, start, i, sum);
      HitsExact(amount, start, i - 1, sum + Dealt(Share(amount, start, i) - sum, i));
    }
  }

  ghost predicate Falling(list: seq<int>) {
    forall j, k :: 0 <= j < k < |list| ==> list[j] >= list[k]
  }

  lemma HitsAt(amount: nat, start: int, i: int, sum: int)
    requires 0 <= i <= start
    ensures i == 0 ==> Hits(amount, start, i, sum) == []
    ensures i > 0 ==>
              var gap := Share(amount, start, i) - sum;
              Hits(amount, start, i, sum) == Copies(i, Repeats(gap, i)) + Hits(amount, start, i - 1, sum + Dealt(gap, i))
  {
    hide Share, Dealt, Repeats, Copies;
  }

  lemma NothingFalls()
    ensures Falling([])
  {
  }

  lemma {:induction false} HitsFall(amount: nat, start: int, i: int, sum: int)
    requires 0 <= i <= start
    ensures Falling(Hits(amount, start, i, sum))
    ensures forall v :: v in Hits(amount, start, i, sum) <==> 1 <= v <= i
    decreases i
  {
    hide Share, Dealt, Repeats, Copies, Hits, Falling;
    HitsAt(amount, start, i, sum);
    if i == 0 {
      NothingFalls();
    } else {
      var gap := Share(amount, start, i) - sum;
      DealtIsRepeats(gap, i);
      HitsFall(amount, start, i - 1, sum + Dealt(gap, i));
      CopiesFirst(i, Repeats(gap, i), Hits(amount, start, i - 1, sum + Dealt(gap, i)));
    }
  }

  lemma CopiesFirst(i: int, n: nat, rest: seq<int>)
    requires n >= 1 && Falling(rest) && forall v :: v in rest ==> v <= i
    ensures Falling(Copies(i, n) + rest)
    ensures forall v :: v in Copies(i, n) + rest <==> v == i || v in rest
  {
    var list := Copies(i, n) + rest;
    assert list[0] == i;
    forall k | n <= k < |list| ensures list[k] == rest[k - n] && list[k] in rest {}
    forall v | v in rest ensures v in list {}
  }

  // ----- The algorithm -----------------------------------------------------------------------------------

  function Distance(x: real): real {
    if x < 0.0 then -x else x
  }

  /** x1 < x2: both are infinite when med is zero. */
  predicate Nearer(sum: int, i: int, med: int) {
    med != 0 && Distance(1.0 - (sum + i) as real / med as real) < Distance(1.0 - sum as real / med as real)
  }

  /** Over exact quotients the comparison asks whether more than half of i is missing. */
  lemma NearerMeans(sum: int, i: int, med: int)
    requires sum > 0 && i > 0 && med >= 0
    ensures Nearer(sum, i, med) <==> 2 * (med - sum) > i
  {
    if med > 0 {
      var m := med as real;
      QuotientOfSum(sum as real, i as real, m);
      assert (sum + i) as real == sum as real + i as real;
      QuotientPositive(i as real, m);
      NearerQuotients(sum as real / m, i as real / m);
      HalfMissing(sum as real, i as real, m);
    }
  }

  lemma QuotientOfSum(a: real, b: real, m: real)
    requires m > 0.0
    ensures (a + b) / m == a / m + b / m
  {
  }

  lemma QuotientPositive(a: real, m: real)
    requires m > 0.0 && a > 0.0
    ensures a / m > 0.0
  {
  }

  lemma NearerQuotients(q: real, r: real)
    requires r > 0.0
    ensures Distance(1.0 - (q + r)) < Distance(1.0 - q) <==> 1.0 - q - q + 1.0 - r > 0.0
  {
  }

  lemma HalfMissing(sum: real, i: real, m: real)
    requires m > 0.0
    ensures 1.0 - sum / m - sum / m + 1.0 - i / m > 0.0 <==> m - sum - sum + m - i > 0.0
  {
    var (q, r) := (sum / m, i / m);
    QuotientTimes(sum, m);
    QuotientTimes(i, m);
    Distribute(1.0 - q, 1.0 - q - r, m);
    Distribute(1.0, -q, m);
    Distribute(1.0 - q, -r, m);
    Negate(q, m);
    Negate(r, m);
    SignOfProduct(1.0 - q + (1.0 - q - r), m);
  }

  lemma QuotientTimes(a: real, m: real)
    requires m > 0.0
    ensures (a / m) * m == a
  {
  }

  lemma Distribute(a: real, b: real, m: real)
    ensures (a + b) * m == a * m + b * m
  {
  }

  lemma Negate(a: real, m: real)
    ensures (-a) * m == -(a * m)
  {
  }

  lemma SignOfProduct(z: real, m: real)
    requires m > 0.0
    ensures z * m > 0.0 <==> z > 0.0
  {
  }

  lemma CopiesMore(i: int, n: nat)
    ensures Copies(i, n) + [i] == Copies(i, n + 1)
  {
  }

  lemma DealStep(gap: int, i: int)
    requires i > 0
    ensures Dealt(gap, i) == if 2 * (gap - i) > i then i + Dealt(gap - i, i) else i
    ensures Repeats(gap, i) == if 2 * (gap - i) > i then 1 + Repeats(gap - i, i) else 1
  {
  }

  /** The inner loop: i is dealt once, and again for as long as that brings the total nearer. */
  method DealValue(i: int, med: int, sum0: int, list0: seq<int>) returns (sum: int, list: seq<int>)
    requires i > 0 && med >= 0 && sum0 >= 0
    ensures sum == sum0 + Dealt(med - sum0, i) && list == list0 + Copies(i, Repeats(med - sum0, i))
  {
    hide Dealt, Repeats, Nearer;
    sum, list := sum0 + i, list0 + [i];
    assert [i] == Copies(i, 1);
    DealStep(med - sum0, i);
    ghost var n := 1;
    NearerMeans(sum, i, med);
    while Nearer(sum, i, med)
      invariant n >= 1 && sum > 0 && list == list0 + Copies(i, n)
      invariant Nearer(sum, i, med) <==> 2 * (med - sum) > i
      invariant Dealt(med - sum0, i) == if Nearer(sum, i, med) then sum - sum0 + Dealt(med - sum, i) else sum - sum0
      invariant Repeats(med - sum0, i) == if Nearer(sum, i, med) then n + Repeats(med - sum, i) else n
      decreases med - sum
    {
      CopiesMore(i, n);
      DealStep(med - sum, i);
      sum, list := sum + i, list + [i];
      n := n + 1;
      NearerMeans(sum, i, med);
    }
  }

  // ----- How the damage is spread -------------------------------------------------------------------------

  /** The hits of at least v, added up. */
  function SumFrom(list: seq<int>, v: int): int {
    if list == [] then 0 else (if list[0] >= v then list[0] else 0) + SumFrom(list[1..], v)
  }

  function Count(list: seq<int>, v: int): nat {
    if list == [] then 0 else (if list[0] == v then 1 else 0) + Count(list[1..], v)
  }

  /** Once the hits down to v are through, no more than half of v is missing to the share of the amount that
      is due by then, rounded down; and unless v is dealt only once, less than half of v is too much. */
  ghost predicate Spread(amount: nat, start: int, list: seq<int>, v: int)
    requires start >= 1
  {
    var due := ((start + 1 - v) * amount) / start;
    && Count(list, v) >= 1 && 2 * (due - SumFrom(list, v)) <= v
    && (Count(list, v) > 1 ==> 2 * (SumFrom(list, v) - due) < v)
  }

  lemma {:induction false} FromAppend(a: seq<int>, b: seq<int>, v: int)
    ensures SumFrom(a + b, v) == SumFrom(a, v) + SumFrom(b, v)
    ensures Count(a + b, v) == Count(a, v) + Count(b, v)
  {
    if a == [] {
      assert a + b == b;
    } else {
      assert (a + b)[1..] == a[1..] + b;
      FromAppend(a[1..], b, v);
    }
  }

  lemma {:induction false} FromCopies(i: int, n: nat, v: int)
    ensures SumFrom(Copies(i, n), v) == (if i >= v then n * i else 0) && Count(Copies(i, n), v) == if i == v then n else 0
  {
    if n > 0 {
      assert Copies(i, n)[1..] == Copies(i, n - 1);
      FromCopies(i, n - 1, v);
      assert n * i == (n - 1) * i + i;
    }
  }

  lemma {:induction false} FromBelow(list: seq<int>, v: int)
    requires forall x :: x in list ==> x < v
    ensures SumFrom(list, v) == 0 && Count(list, v) == 0
  {
    if list != [] {
      assert list[0] in list && forall x :: x in list[1..] ==> x in list;
      FromBelow(list[1..], v);
    }
  }

  /** Behind hits above i that add up to sum, the hits from i down spread the amount. */
  lemma {:induction false} HitsSpread(amount: nat, start: int, i: int, sum: int, v: int)
    requires 1 <= v <= i <= start
    ensures var (list, due) := (Hits(amount, start, i, sum), Share(amount, start, v));
            && Count(list, v) >= 1 && 2 * (due - sum - SumFrom(list, v)) <= v
            && (Count(list, v) > 1 ==> 2 * (sum + SumFrom(list, v) - due) < v)
    decreases i
  {
    hide Share, Dealt, Repeats, Copies, Hits, SumFrom, Count;
    var gap := Share(amount, start, i) - sum;
    var (head, rest) := (Copies(i, Repeats(gap, i)), Hits(amount, start, i - 1, sum + Dealt(gap, i)));
    HitsAt(amount, start, i, sum);
    DealtIsRepeats(gap, i);
    FromAppend(head, rest, v);
    FromCopies(i, Repeats(gap, i), v);
    if v == i {
      HitsFall(amount, start, i - 1, sum + Dealt(gap, i));
      FromBelow(rest, v);
      if Repeats(gap, i) > 1 { MulGap(Repeats(gap, i), 1, i); }
    } else {
      HitsSpread(amount, start, i - 1, sum + Dealt(gap, i), v);
    }
  }

  // The spread leaves no choice: there is only one such list.

  lemma {:induction false} SumFromStep(list: seq<int>, v: int)
    ensures SumFrom(list, v) == SumFrom(list, v + 1) + v * Count(list, v)
  {
    if list != [] {
      SumFromStep(list[1..], v);
      assert v * (Count(list[1..], v) + 1) == v * Count(list[1..], v) + v;
    }
  }

  lemma {:induction false} CountIn(list: seq<int>, v: int)
    ensures Count(list, v) >= 1 <==> v in list
  {
    if list != [] { CountIn(list[1..], v); }
  }

  lemma {:induction false} NoneAbove(list: seq<int>, v: int)
    requires forall x :: x in list ==> x < v
    ensures SumFrom(list, v) == 0
  {
    FromBelow(list, v);
  }

  /** Given the total of the higher values, only one count of v is near enough. */
  lemma OneCount(due: int, above: int, v: int, m: nat, n: nat)
    requires v >= 1 && m >= 1 && n >= 1
    requires 2 * (due - (above + v * m)) <= v && (m > 1 ==> 2 * (above + v * m - due) < v)
    requires 2 * (due - (above + v * n)) <= v && (n > 1 ==> 2 * (above + v * n - due) < v)
    ensures m == n
  {
    assert v * m == m * v && v * n == n * v;
    MulGap(m, n, v);
    MulGap(n, m, v);
  }

  lemma {:induction false} SameCounts(amount: nat, start: int, a: seq<int>, b: seq<int>, v: int)
    requires 1 <= v <= start + 1 && (forall x :: x in a ==> x <= start) && forall x :: x in b ==> x <= start
    requires forall u :: 1 <= u <= start ==> Spread(amount, start, a, u) && Spread(amount, start, b, u)
    ensures SumFrom(a, v) == SumFrom(b, v) && (v <= start ==> Count(a, v) == Count(b, v))
    decreases start + 1 - v
  {
    hide SumFrom, Count;
    if v == start + 1 {
      NoneAbove(a, v);
      NoneAbove(b, v);
    } else {
      SameCounts(amount, start, a, b, v + 1);
      SumFromStep(a, v);
      SumFromStep(b, v);
      var due := ((start + 1 - v) * amount) / start;
      assert Spread(amount, start, a, v) && Spread(amount, start, b, v);
      hide Spread;
      OneCount(due, SumFrom(a, v + 1), v, Count(a, v), Count(b, v));
    }
  }

  lemma FirstIsMost(list: seq<int>, x: int)
    requires Falling(list) && x in list
    ensures list != [] && list[0] >= x && Falling(list[1..])
  {
  }

  lemma {:induction false} FallingByCounts(a: seq<int>, b: seq<int>)
    requires Falling(a) && Falling(b) && forall v :: Count(a, v) == Count(b, v)
    ensures a == b
  {
    if b != [] {
      CountIn(b, b[0]);
      CountIn(a, b[0]);
    }
    if a != [] {
      CountIn(a, a[0]);
      CountIn(b, a[0]);
      FirstIsMost(b, a[0]);
      FirstIsMost(a, b[0]);
      forall v ensures Count(a[1..], v) == Count(b[1..], v) {
        assert Count(a, v) == Count(b, v);
      }
      FallingByCounts(a[1..], b[1..]);
      assert a == [a[0]] + a[1..] && b == [b[0]] + b[1..];
    }
  }

  /** Two falling lists of the values from start to 1 that spread the same amount are the same list. */
  lemma OnlyOneSpread(amount: nat, start: int, a: seq<int>, b: seq<int>)
    requires start >= 1 && Falling(a) && Falling(b)
    requires (forall x :: x in a <==> 1 <= x <= start) && forall x :: x in b <==> 1 <= x <= start
    requires forall v :: 1 <= v <= start ==> Spread(amount, start, a, v) && Spread(amount, start, b, v)
    ensures a == b
  {
    hide Falling, Spread, Count;
    forall v ensures Count(a, v) == Count(b, v) {
      CountIn(a, v);
      CountIn(b, v);
      if 1 <= v <= start { SameCounts(amount, start, a, b, v); }
    }
    FallingByCounts(a, b);
  }

  lemma AllSpread(amount: nat, start: int, v: int)
    requires 1 <= v <= start
    ensures Spread(amount, start, Hits(amount, start, start, 0), v)
  {
    hide Hits, SumFrom, Count;
    HitsSpread(amount, start, start, 0, v);
  }

  /** A large enough amount is spread evenly: by the time that v is through, the total is within half of v,
      and the rounding, of its exact share. */
  lemma SpreadEvenly(amount: nat, start: int, v: int)
    requires 1 <= v <= start && amount >= start * start
    ensures 2 * Abs(start * SumFrom(Hits(amount, start, start, 0), v) - (start + 1 - v) * amount) <= start * (v + 2)
  {
    hide Hits, SumFrom, Count, Share;
    var t := SumFrom(Hits(amount, start, start, 0), v);
    HitsNear(amount, start, start, 0, v);
    ShareIs(amount, start, v);
    Near(t, Share(amount, start, v), (start + 1 - v) * amount, start, v);
  }

  lemma ShareIs(amount: nat, start: int, v: int)
    requires 1 <= v <= start
    ensures start * Share(amount, start, v) <= (start + 1 - v) * amount < start * Share(amount, start, v) + start
  {
    var x := (start + 1 - v) * amount;
    assert x == start * (x / start) + x % start;
  }

  lemma Near(t: int, q: int, x: int, start: int, v: int)
    requires start >= 1 && v >= 1 && 2 * Abs(t - q) <= v && start * q <= x < start * q + start
    ensures 2 * Abs(start * t - x) <= start * (v + 2)
  {
    assert start * t - start * q == start * (t - q);
    assert start * (2 * (t - q)) <= start * v && start * (2 * (q - t)) <= start * v by {
      Scale(2 * (t - q), v, start);
      Scale(2 * (q - t), v, start);
    }
    assert start * (v + 2) == start * v + 2 * start;
    assert start * (2 * (t - q)) == 2 * (start * (t - q)) && start * (2 * (q - t)) == -(2 * (start * (t - q)));
  }

  lemma Scale(a: int, b: int, k: int)
    requires a <= b && k >= 1
    ensures k * a <= k * b
  {
    if a < b { MulGap(b, a, k); }
  }

  /** Behind a sum that is near enough to its share, every total is. */
  lemma {:induction false} HitsNear(amount: nat, start: int, i: int, sum: int, v: int)
    requires 1 <= v <= i <= start && amount >= start * start
    requires if i == start then sum == 0 else 2 * (sum - Share(amount, start, i + 1)) <= i + 1
    ensures 2 * Abs(sum + SumFrom(Hits(amount, start, i, sum), v) - Share(amount, start, v)) <= v
    decreases i
  {
    hide Share, Dealt, Repeats, Copies, Hits, SumFrom, Count;
    var gap := Share(amount, start, i) - sum;
    var (head, rest) := (Copies(i, Repeats(gap, i)), Hits(amount, start, i - 1, sum + Dealt(gap, i)));
    HitsAt(amount, start, i, sum);
    DealtIsRepeats(gap, i);
    FromAppend(head, rest, v);
    FromCopies(i, Repeats(gap, i), v);
    ShareGrows(amount, start, i);
    if v == i {
      HitsFall(amount, start, i - 1, sum + Dealt(gap, i));
      FromBelow(rest, v);
    } else {
      HitsNear(amount, start, i - 1, sum + Dealt(gap, i), v);
    }
  }

  /** What a list of hits promises: it falls through every value from start to 1, and adds up to the
      amount, or a little more when the amount is small, and spreads it over the values by their shares. */
  ghost predicate Promised(amount: nat, start: int, list: seq<int>)
    requires start >= 1
  {
    && Falling(list) && (forall v :: v in list <==> 1 <= v <= start)
    && amount <= Sum(list) <= amount + Triangle(start)
    && (amount >= start * start ==> Sum(list) == amount)
    && (forall v :: 1 <= v <= start ==> Spread(amount, start, list, v))
    && (amount >= start * start ==>
        forall v :: 1 <= v <= start ==> 2 * Abs(start * SumFrom(list, v) - (start + 1 - v) * amount) <= start * (v + 2))
  }

  lemma HitsPromised(amount: nat, start: int)
    requires start >= 1
    ensures Promised(amount, start, Hits(amount, start, start, 0))
  {
    hide Hits, Sum, Triangle, Falling, Spread, SumFrom;
    HitsFall(amount, start, start, 0);
    HitsTotal(amount, start, start, 0, 0);
    if amount >= start * start { HitsExact(amount, start, start, 0); }
    forall v | 1 <= v <= start ensures Spread(amount, start, Hits(amount, start, start, 0), v) {
      AllSpread(amount, start, v);
    }
    if amount >= start * start {
      forall v | 1 <= v <= start
        ensures 2 * Abs(start * SumFrom(Hits(amount, start, start, 0), v) - (start + 1 - v) * amount) <= start * (v + 2)
      {
        SpreadEvenly(amount, start, v);
      }
    }
  }

  /** ConditionDamage::generateDamageList */
  method GenerateDamageList(amount: int, start: int) returns (list: seq<int>)
    ensures start <= 0 ==> list == []
    ensures start >= 1 ==> list == Hits(Abs(amount), start, start, 0) && Promised(Abs(amount), start, list)
  {
    hide Share, Dealt, Repeats, Copies, Promised, Hits;
    var total := Abs(amount);
    var sum, i := 0, start;
    list := [];
    if start >= 1 { HitsPromised(total, start); }
    while i > 0
      invariant i <= start && sum >= 0 && (start >= 1 ==> 0 <= i)
      invariant if start <= 0 then list == [] else list + Hits(total, start, i, sum) == Hits(total, start, start, 0)
    {
      var med := Share(total, start, i);
      ShareNotNegative(total, start, i);
      HitsAt(total, start, i, sum);
      sum, list := DealValue(i, med, sum, list);
      i := i - 1;
    }
    if start >= 1 { HitsAt(total, start, 0, sum); }
  }
}
