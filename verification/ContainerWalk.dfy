/** The breadth-first walk over everything inside a container, as a fact about the forest. */
module ContainerWalk {
  import opened Options
  import opened ContainerForest

  /** The item lists of a run of containers, one after the other. */
  ghost function Expand<T>(f: Forest<T>, s: seq<T>): seq<T> {
    if s == [] then [] else Items(f, s[0]) + Expand(f, s[1..])
  }

  lemma {:induction false} ExpandAppend<T>(f: Forest<T>, a: seq<T>, b: seq<T>)
    ensures Expand(f, a + b) == Expand(f, a) + Expand(f, b)
  {
    if a == [] {
      assert a + b == b;
    } else {
      assert (a + b)[1..] == a[1..] + b;
      ExpandAppend(f, a[1..], b);
    }
  }

  lemma ExpandOne<T>(f: Forest<T>, e: T)
    ensures Expand(f, [e]) == Items(f, e)
  {
    assert [e][1..] == [] && Expand(f, []) == [];
  }

  /** How deep each item lies. */
  ghost predicate Levels<T>(f: Forest<T>, level: map<T, nat>) {
    forall x :: x in f.parent ==> x in level && DepthIs(f.parent, x, level[x])
  }

  function Level<T>(level: map<T, nat>, x: T): nat {
    if x in level then level[x] else 0
  }

  lemma FindLevels<T>(f: Forest<T>) returns (level: map<T, nat>)
    requires Acyclic(f.parent)
    ensures Levels(f, level)
  {
    level := map x | x in f.parent :: var n: nat :| DepthIs(f.parent, x, n); n;
  }

  /** After visiting v, the items come upon so far are those of c and of the visited containers. */
  ghost function Found<T>(f: Forest<T>, c: T, v: seq<T>): seq<T> {
    Items(f, c) + Expand(f, v)
  }

  /** A walk under way: it visits in the order of finding, never an item twice, only items inside
      c, each after the container that holds it, and shallower items before deeper ones. */
  ghost predicate Walk<T>(f: Forest<T>, c: T, v: seq<T>, level: map<T, nat>)
    requires Linked(f) && Levels(f, level)
  {
    var d := Found(f, c, v);
    && v <= d
    && Distinct(d)
    && (forall x :: x in d ==> x in Below(f.parent, c) && f.parent[x].Some?)
    && (forall x :: x in d ==> f.parent[x].value == c || f.parent[x].value in v)
    && (forall i, j :: 0 <= i <= j < |d| ==> Level(level, d[i]) <= Level(level, d[j]))
    && (forall i :: |v| <= i < |d| ==> Level(level, d[i]) <= Level(level, d[|v|]) + 1)
  }

  lemma ItemFacts<T>(f: Forest<T>, c: T, level: map<T, nat>, x: T)
    requires Linked(f) && Levels(f, level) && c in f.parent && x in Items(f, c)
    ensures x in Below(f.parent, c) && f.parent[x] == Some(c) && Level(level, x) == Level(level, c) + 1
  {
    assert x in f.parent && f.parent[x] == Some(c);
    hide Under, Acyclic;
    UnderStep(f.parent, c, c);
    UnderStep(f.parent, x, c);
    UnderStep(f.parent, x, x);
    HolderOutside(f.parent, x);
    assert DepthIs(f.parent, c, Level(level, x) - 1);
    DepthUnique(f.parent, c, Level(level, c), Level(level, x) - 1);
  }

  lemma ItemsFacts<T>(f: Forest<T>, c: T, level: map<T, nat>)
    requires Linked(f) && Levels(f, level) && c in f.parent
    ensures Distinct(Items(f, c))
    ensures forall x :: x in Items(f, c) ==>
                          x in Below(f.parent, c) && f.parent[x] == Some(c) && Level(level, x) == Level(level, c) + 1
  {
    assert Distinct(Items(f, c));
    hide Linked, Levels, Under;
    forall x | x in Items(f, c)
      ensures x in Below(f.parent, c) && f.parent[x] == Some(c) && Level(level, x) == Level(level, c) + 1
    {
      ItemFacts(f, c, level, x);
    }
  }

  lemma WalkStart<T>(f: Forest<T>, c: T, level: map<T, nat>)
    requires Linked(f) && Levels(f, level) && c in f.parent
    ensures Found(f, c, []) == Items(f, c) && Walk(f, c, [], level)
  {
    assert Found(f, c, []) == Items(f, c);
    ItemsFacts(f, c, level);
  }

  lemma FoundStep<T>(f: Forest<T>, c: T, v: seq<T>, e: T)
    ensures Found(f, c, v + [e]) == Found(f, c, v) + Items(f, e)
  {
    hide Items, Expand;
    ExpandAppend(f, v, [e]);
    ExpandOne(f, e);
    Assoc(Items(f, c), Expand(f, v), Items(f, e));
  }

  lemma Assoc<T>(a: seq<T>, b: seq<T>, c: seq<T>)
    ensures (a + b) + c == a + (b + c)
  {
  }

  /** Visiting the next item keeps the walk a walk. */
  lemma WalkStep<T>(f: Forest<T>, c: T, v: seq<T>, level: map<T, nat>)
    requires Linked(f) && Levels(f, level) && c in f.parent && Walk(f, c, v, level) && |v| < |Found(f, c, v)|
    ensures Walk(f, c, v + [Found(f, c, v)[|v|]], level)
  {
    hide Linked, Levels, Found, Under, Below, Items, Acyclic;
    var d := Found(f, c, v);
    var e := d[|v|];
    var kids := Items(f, e);
    assert e in d;
    InsideFacts(f, c, e);
    FoundStep(f, c, v, e);
    ItemsFacts(f, e, level);
    forall x | x in d + kids ensures x in Below(f.parent, c) && x in f.parent {
      if x in d {
        InsideFacts(f, c, x);
      } else {
        InsideFacts(f, e, x);
        InsideInside(f, c, e, x);
      }
    }
    WalkAppend(f.parent, c, d, v, e, kids, level);
  }

  lemma InsideFacts<T>(f: Forest<T>, c: T, x: T)
    requires x in Below(f.parent, c)
    ensures x in f.parent && x != c
  {
  }

  lemma InsideInside<T>(f: Forest<T>, c: T, e: T, x: T)
    requires Linked(f) && c in f.parent && e in Below(f.parent, c) && x in Below(f.parent, e)
    ensures x in Below(f.parent, c)
  {
    UnderTrans(f.parent, x, e, c);
    NoLoop(f.parent, x, e);
  }

  /** Appending the items of e to what was found: no duplicates, parents visited, levels sorted. */
  lemma WalkAppend<T>(p: map<T, Option<T>>, c: T, d: seq<T>, v: seq<T>, e: T, kids: seq<T>, level: map<T, nat>)
    requires |v| < |d| && v <= d && d[|v|] == e && Distinct(d) && Distinct(kids) && e != c
    requires forall x :: x in d ==> x in p && p[x].Some? && (p[x].value == c || p[x].value in v)
    requires forall x :: x in kids ==> x in p && p[x] == Some(e) && Level(level, x) == Level(level, e) + 1
    requires forall i, j :: 0 <= i <= j < |d| ==> Level(level, d[i]) <= Level(level, d[j])
    requires forall i :: |v| <= i < |d| ==> Level(level, d[i]) <= Level(level, e) + 1
    ensures v + [e] <= d + kids && Distinct(d + kids)
    ensures forall x :: x in d + kids ==> p[x].Some? && (p[x].value == c || p[x].value in v + [e])
    ensures var g := d + kids;
            && (forall i, j :: 0 <= i <= j < |g| ==> Level(level, g[i]) <= Level(level, g[j]))
            && (forall i :: |v| + 1 <= i < |g| ==> Level(level, g[i]) <= Level(level, g[|v| + 1]) + 1)
  {
    var g := d + kids;
    forall i | 0 <= i < |v| ensures v[i] != e {
      assert v[i] == d[i];
    }
    assert forall x :: x in kids ==> x !in d;
    forall i, j | 0 <= i < j < |g| ensures g[i] != g[j] {
      if j >= |d| { assert g[j] in kids; }
      if i < |d| { assert g[i] in d; }
    }
    forall x | x in g ensures p[x].Some? && (p[x].value == c || p[x].value in v + [e]) {
      assert x in d || x in kids;
    }
    forall i, j | 0 <= i <= j < |g| ensures Level(level, g[i]) <= Level(level, g[j]) {
      if j >= |d| {
        assert g[j] in kids;
        if i >= |d| {
          assert g[i] in kids;
        } else if i >= |v| {
          assert Level(level, d[i]) <= Level(level, e) + 1;
        } else {
          assert Level(level, d[i]) <= Level(level, d[|v|]);
        }
      }
    }
    forall i | |v| + 1 <= i < |g| ensures Level(level, g[i]) <= Level(level, g[|v| + 1]) + 1 {
      assert Level(level, g[|v|]) <= Level(level, g[|v| + 1]);
      if i >= |d| { assert g[i] in kids; }
    }
  }

  lemma {:induction false} DistinctCount<T>(v: seq<T>, s: set<T>)
    requires Distinct(v) && forall x :: x in v ==> x in s
    ensures |v| <= |s| && ((forall x :: x in s ==> x in v) ==> |v| == |s|)
    decreases |v|
  {
    if v == [] {
      if forall x :: x in s ==> x in v { assert s == {}; }
    } else {
      var (x, rest) := (v[0], v[1..]);
      forall y | y in rest ensures y in s - {x} {}
      DistinctCount(rest, s - {x});
      if forall y :: y in s ==> y in v {
        forall y | y in s - {x} ensures y in rest {
          var i :| 0 <= i < |v| && v[i] == y;
          assert rest[i - 1] == y;
        }
      }
    }
  }

  /** Once nothing is left to visit, everything inside c has been visited. */
  lemma {:induction false} WalkComplete<T>(f: Forest<T>, c: T, v: seq<T>, x: T, steps: nat)
    requires Linked(f) && c in f.parent && v == Found(f, c, v)
    requires x in f.parent && x != c && UnderIn(f.parent, x, c, steps)
    ensures x in v
    decreases steps
  {
    var up := f.parent[x].value;
    if up == c {
      assert x in Items(f, c);
    } else {
      WalkComplete(f, c, v, up, steps - 1);
      ExpandHolds(f, v, up, x);
    }
  }

  lemma WalkReaches<T>(f: Forest<T>, c: T, v: seq<T>, x: T)
    requires Linked(f) && c in f.parent && v == Found(f, c, v) && x in Below(f.parent, c)
    ensures x in v
  {
    var steps: nat :| UnderIn(f.parent, x, c, steps);
    WalkComplete(f, c, v, x, steps);
  }

  lemma {:induction false} ExpandHolds<T>(f: Forest<T>, s: seq<T>, e: T, x: T)
    requires e in s && x in Items(f, e)
    ensures x in Expand(f, s)
  {
    if s[0] != e { ExpandHolds(f, s[1..], e, x); }
  }

  /** A finished walk is a breadth-first enumeration without repetition of everything inside c. */
  lemma WalkEnd<T>(f: Forest<T>, c: T, v: seq<T>, level: map<T, nat>)
    requires Linked(f) && Levels(f, level) && c in f.parent && Walk(f, c, v, level) && |v| == |Found(f, c, v)|
    ensures Distinct(v) && (forall x :: x in v <==> x in Below(f.parent, c)) && |v| == |Below(f.parent, c)|
    ensures forall i, j :: 0 <= i <= j < |v| ==> Level(level, v[i]) <= Level(level, v[j])
  {
    hide Linked, Levels, Found, Under, Distinct;
    assert v == Found(f, c, v);
    forall x | x in Below(f.parent, c) ensures x in v {
      WalkReaches(f, c, v, x);
    }
    DistinctCount(v, Below(f.parent, c));
  }

  // ----- The queue behind the walk ------------------------------------------------------------------

  /** In sight but not visited: the front list from position k on, then the other queued lists. */
  ghost function Ahead<T>(f: Forest<T>, over: seq<T>, k: nat): seq<T> {
    if over == [] || k > |Items(f, over[0])| then [] else Items(f, over[0])[k..] + Expand(f, over[1..])
  }

  /** The queue once e is queued if it holds something. */
  ghost function Queued<T>(f: Forest<T>, over: seq<T>, e: T): seq<T> {
    if Items(f, e) == [] then over else over + [e]
  }

  /** A walk together with its queue: what is ahead completes what was visited. */
  ghost predicate Going<T>(f: Forest<T>, c: T, v: seq<T>, over: seq<T>, k: nat, level: map<T, nat>) {
    && Linked(f) && Levels(f, level) && c in f.parent && Walk(f, c, v, level)
    && v + Ahead(f, over, k) == Found(f, c, v)
    && (forall x :: x in over ==> Items(f, x) != [])
    && (over != [] ==> k < |Items(f, over[0])|)
  }

  lemma GoingStart<T>(f: Forest<T>, c: T, level: map<T, nat>)
    requires Linked(f) && Levels(f, level) && c in f.parent
    ensures Going(f, c, [], Queued(f, [], c), 0, level)
  {
    hide Linked, Levels, Walk, Found, Items, Ahead;
    WalkStart(f, c, level);
    FirstQueue(f, c);
    assert [] + Items(f, c) == Items(f, c);
  }

  lemma FirstQueue<T>(f: Forest<T>, c: T)
    ensures Queued(f, [], c) == if Items(f, c) == [] then [] else [c]
    ensures Ahead(f, Queued(f, [], c), 0) == Items(f, c)
  {
    hide Items;
    assert [] + [c] == [c] && [c][1..] == [] && Expand(f, []) == [];
  }

  lemma AheadFirst<T>(f: Forest<T>, c: T, v: seq<T>, over: seq<T>, k: nat, level: map<T, nat>)
    requires Going(f, c, v, over, k, level) && over != []
    ensures k < |Items(f, over[0])| && |v| < |Found(f, c, v)|
    ensures var e := Items(f, over[0])[k];
            Found(f, c, v)[|v|] == e && e in Below(f.parent, c) && e in f.parent
  {
    var (a, d) := (Ahead(f, over, k), Found(f, c, v));
    assert over[0] in over;
    assert a[0] == Items(f, over[0])[k];
    assert d[|v|] == (v + a)[|v|] == a[0];
    assert d[|v|] in d;
  }

  /** What is ahead after stepping past e, before an exhausted front list is dropped. */
  lemma AheadStep<T>(f: Forest<T>, over: seq<T>, k: nat)
    requires over != [] && k < |Items(f, over[0])|
    ensures var e := Items(f, over[0])[k];
            var queue := Queued(f, over, e);
            queue != [] && queue[0] == over[0] && [e] + Ahead(f, queue, k + 1) == Ahead(f, over, k) + Items(f, e)
  {
    hide Items, Expand;
    var (first, others) := (Items(f, over[0]), over[1..]);
    var e := first[k];
    assert first[k..] == [e] + first[k + 1..];
    Assoc([e], first[k + 1..], Expand(f, others));
    if Items(f, e) != [] {
      assert (over + [e])[1..] == others + [e];
      ExpandAppend(f, others, [e]);
      ExpandOne(f, e);
      Assoc(first[k + 1..], Expand(f, others), Items(f, e));
      Assoc([e], first[k + 1..] + Expand(f, others), Items(f, e));
    }
  }

  lemma AheadDrop<T>(f: Forest<T>, queue: seq<T>)
    requires queue != [] && forall x :: x in queue ==> Items(f, x) != []
    ensures Ahead(f, queue, |Items(f, queue[0])|) == Ahead(f, queue[1..], 0)
  {
    var (first, others) := (Items(f, queue[0]), queue[1..]);
    assert first[|first|..] + Expand(f, others) == Expand(f, others);
    if others != [] {
      assert Items(f, others[0])[0..] == Items(f, others[0]);
    }
  }

  lemma GoingStep<T>(f: Forest<T>, c: T, v: seq<T>, over: seq<T>, k: nat, level: map<T, nat>)
    requires Going(f, c, v, over, k, level) && over != []
    ensures k < |Items(f, over[0])|
    ensures var e := Items(f, over[0])[k];
            var queue := Queued(f, over, e);
            if k + 1 == |Items(f, over[0])| then Going(f, c, v + [e], queue[1..], 0, level)
            else Going(f, c, v + [e], queue, k + 1, level)
  {
    hide Linked, Levels, Walk, Found, Ahead, Expand;
    AheadFirst(f, c, v, over, k, level);
    var e := Items(f, over[0])[k];
    var queue := Queued(f, over, e);
    WalkStep(f, c, v, level);
    FoundStep(f, c, v, e);
    AheadStep(f, over, k);
    var a := Ahead(f, queue, k + 1);
    assert (v + [e]) + a == v + ([e] + a) == v + (Ahead(f, over, k) + Items(f, e)) == (v + Ahead(f, over, k)) + Items(f, e);
    if k + 1 == |Items(f, over[0])| {
      AheadDrop(f, queue);
    }
  }

  /** When the queue is empty everything inside c has been visited, breadth first, each once. */
  lemma GoingEnd<T>(f: Forest<T>, c: T, v: seq<T>, k: nat, level: map<T, nat>)
    requires Going(f, c, v, [], k, level)
    ensures Distinct(v) && (forall x :: x in v <==> x in Below(f.parent, c)) && |v| == |Below(f.parent, c)|
    ensures forall i, j :: 0 <= i <= j < |v| ==> Level(level, v[i]) <= Level(level, v[j])
    ensures v == Found(f, c, v)
  {
    assert v + [] == v;
    WalkEnd(f, c, v, level);
  }

  lemma GoingBound<T>(f: Forest<T>, c: T, v: seq<T>, over: seq<T>, k: nat, level: map<T, nat>)
    requires Going(f, c, v, over, k, level)
    ensures Distinct(v) && |v| <= |Below(f.parent, c)| && (over != [] ==> |v| < |Below(f.parent, c)|)
    ensures forall x :: x in v ==> x in Below(f.parent, c)
  {
    var d := Found(f, c, v);
    DistinctCount(d, Below(f.parent, c));
    if over != [] { AheadFirst(f, c, v, over, k, level); }
    forall i | 0 <= i < |v| ensures v[i] == d[i] && v[i] in d {}
  }
}
