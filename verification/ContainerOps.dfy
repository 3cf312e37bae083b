/** What the container operations do to the forest, and that each keeps every cached weight equal
    to the weight of the contents. */
module ContainerOps {
  import opened Options
  import opened ContainerForest

  // ----- Adding ---------------------------------------------------------------------------------

  /** The loose item becomes the first item of c. */
  ghost function Attach<T>(f: Forest<T>, c: T, item: T): Forest<T> {
    f.(parent := f.parent[item := Some(c)], kids := f.kids[c := [item] + Items(f, c)])
  }

  /** __addThing and __internalAddThing. */
  ghost function Added<T>(f: Forest<T>, c: T, item: T): Forest<T> {
    Raised(Attach(f, c, item), c, Weight(f, item))
  }

  lemma ConsDistinct<T>(list: seq<T>, item: T)
    requires Distinct(list)
    ensures item !in list ==> Distinct([item] + list)
  {
  }

  lemma AttachParents<T>(f: Forest<T>, c: T, item: T)
    requires SameKeys(f) && ParentsList(f) && c in f.parent
    ensures ParentsList(Attach(f, c, item))
  {
    var g := Attach(f, c, item);
    assert g.kids[c][0] == item;
    assert forall x :: x in Items(f, c) ==> x in g.kids[c];
  }

  lemma AttachKids<T>(f: Forest<T>, c: T, item: T)
    requires SameKeys(f) && KidsPoint(f) && c in f.parent && item in f.parent && f.parent[item].None?
    ensures KidsPoint(Attach(f, c, item)) && item !in Items(f, c)
  {
    var g := Attach(f, c, item);
    assert forall d :: d in f.kids ==> item !in f.kids[d];
    assert forall x :: x in g.kids[c] ==> x == item || x in f.kids[c];
  }

  lemma AttachLinked<T>(f: Forest<T>, c: T, item: T)
    requires Linked(f) && c in f.parent && item in f.parent && f.parent[item].None? && !Under(f.parent, c, item)
    ensures Linked(Attach(f, c, item))
  {
    hide Under, Acyclic, Distinct, ParentsList, KidsPoint;
    AttachAcyclic(f.parent, item, c);
    AttachParents(f, c, item);
    AttachKids(f, c, item);
    ConsDistinct(Items(f, c), item);
    assert NoDuplicates(Attach(f, c, item));
  }

  lemma AddValid<T>(f: Forest<T>, c: T, item: T)
    requires Valid(f) && c in f.parent && item in f.parent && f.parent[item].None? && !Under(f.parent, c, item)
    ensures Valid(Added(f, c, item))
  {
    hide Under, Linked;
    AttachLinked(f, c, item);
    LinkedKeys(f);
    var g := Attach(f, c, item);
    forall x | x in g.total
      ensures g.total[x] + (if x == c then Weight(f, item) else 0.0) == KidsWeight(g, g.kids[x])
    {
      KidsUnchanged(f, g, f.kids[x]);
      if x == c {
        assert g.kids[c][1..] == f.kids[c];
      }
    }
    RaiseRestores(g, c, Weight(f, item));
  }

  lemma LinkedKeys<T>(f: Forest<T>)
    requires Linked(f)
    ensures f.kids.Keys == f.own.Keys == f.total.Keys == f.parent.Keys
  {
  }

  // ----- Changing an item in place --------------------------------------------------------------

  ghost function Reowned<T>(f: Forest<T>, item: T, own: real): Forest<T> {
    f.(own := f.own[item := own])
  }

  /** The item's own weight changes: another type, another count. */
  ghost function Reweighed<T>(f: Forest<T>, c: T, item: T, own: real): Forest<T> {
    Raised(Reowned(f, item, own), c, own - Own(f, item))
  }

  lemma ReweighValid<T>(f: Forest<T>, c: T, item: T, own: real)
    requires Valid(f) && item in f.parent && f.parent[item] == Some(c)
    ensures Valid(Reweighed(f, c, item, own))
  {
    hide Linked, Weighed, WeighedBut, Raised;
    OnlyIn(f, c, item);
    ReweighBut(f, c, item, own);
    RaiseRestores(Reowned(f, item, own), c, own - Own(f, item));
  }

  lemma ReweighBut<T>(f: Forest<T>, c: T, item: T, own: real)
    requires Valid(f) && item in f.parent && f.parent[item] == Some(c)
    ensures var g := Reowned(f, item, own); Linked(g) && WeighedBut(g, c, own - Own(f, item))
  {
    var g := Reowned(f, item, own);
    SameNesting(f, g);
    hide Linked, KidsWeight;
    forall x | x in g.total
      ensures g.total[x] + (if x == c then own - Own(f, item) else 0.0) == KidsWeight(g, g.kids[x])
    {
      ReweighAt(f, c, item, own, x);
    }
  }

  lemma ReweighAt<T>(f: Forest<T>, c: T, item: T, own: real, x: T)
    requires Valid(f) && item in f.parent && f.parent[item] == Some(c) && x in f.total
    ensures f.total[x] + (if x == c then own - Own(f, item) else 0.0) ==
            KidsWeight(Reowned(f, item, own), f.kids[x])
  {
    OnlyIn(f, c, item);
    LinkedKeys(f);
    hide Linked, KidsWeight;
    var (g, diff) := (Reowned(f, item, own), own - Own(f, item));
    assert forall y :: Weight(g, y) == Weight(f, y) + (if y == item then diff else 0.0);
    if x == c {
      var k :| 0 <= k < |f.kids[c]| && f.kids[c][k] == item;
      KidsOneChanged(f, g, f.kids[c], k, diff);
    } else {
      KidsUnchanged(f, g, f.kids[x]);
    }
  }

  /** A held item is in its container's list, once, and in no other list. */
  lemma OnlyIn<T>(f: Forest<T>, c: T, item: T)
    requires Linked(f) && item in f.parent && f.parent[item] == Some(c)
    ensures c in f.kids && c in f.parent && item in f.kids[c] && Distinct(f.kids[c])
    ensures forall x :: x in f.kids && x != c ==> item !in f.kids[x]
  {
  }

  // ----- Removing -------------------------------------------------------------------------------

  ghost function Detach<T>(f: Forest<T>, c: T, k: nat): Forest<T>
    requires k < |Items(f, c)|
  {
    f.(parent := f.parent[Items(f, c)[k] := None], kids := f.kids[c := Items(f, c)[..k] + Items(f, c)[k + 1..]])
  }

  /** __removeThing of a whole item. */
  ghost function Removed<T>(f: Forest<T>, c: T, k: nat): Forest<T>
    requires k < |Items(f, c)|
  {
    Raised(Detach(f, c, k), c, -Weight(f, Items(f, c)[k]))
  }

  lemma DropOne<T>(list: seq<T>, k: nat)
    requires Distinct(list) && k < |list|
    ensures Distinct(list[..k] + list[k + 1..])
    ensures forall x :: x in list[..k] + list[k + 1..] <==> x in list && x != list[k]
  {
    var rest := list[..k] + list[k + 1..];
    forall x | x in list && x != list[k] ensures x in rest {
      var j :| 0 <= j < |list| && list[j] == x;
      assert x == rest[if j < k then j else j - 1];
    }
  }

  lemma DetachLinked<T>(f: Forest<T>, c: T, k: nat)
    requires Linked(f) && c in f.parent && k < |Items(f, c)|
    ensures Linked(Detach(f, c, k)) && Items(f, c)[k] in f.parent && f.parent[Items(f, c)[k]] == Some(c)
  {
    var (item, list) := (f.kids[c][k], f.kids[c]);
    assert item in list;
    DetachAcyclic(f.parent, item);
    DropOne(list, k);
    hide Acyclic, Distinct;
    var g := Detach(f, c, k);
    assert NoDuplicates(g);
    hide NoDuplicates;
    DetachParents(f, c, k);
    DetachKids(f, c, k);
  }

  lemma DetachParents<T>(f: Forest<T>, c: T, k: nat)
    requires SameKeys(f) && ParentsList(f) && c in f.parent && k < |Items(f, c)| && Distinct(f.kids[c])
    ensures ParentsList(Detach(f, c, k))
  {
    DropOne(f.kids[c], k);
    hide Distinct;
  }

  lemma DetachKids<T>(f: Forest<T>, c: T, k: nat)
    requires SameKeys(f) && KidsPoint(f) && c in f.parent && k < |Items(f, c)| && Distinct(f.kids[c])
    ensures KidsPoint(Detach(f, c, k))
  {
    var (g, list) := (Detach(f, c, k), f.kids[c]);
    DropOne(list, k);
    assert list[k] in list && f.parent[list[k]] == Some(c);
    hide Distinct;
    forall d, x | d in g.kids && x in g.kids[d] ensures x in g.parent && g.parent[x] == Some(d) {
      assert x in f.kids[d] && x != list[k];
    }
  }

  lemma KidsSingle<T>(f: Forest<T>, x: T)
    ensures KidsWeight(f, [x]) == Weight(f, x)
  {
    assert [x][1..] == [];
  }

  lemma RemoveValid<T>(f: Forest<T>, c: T, k: nat)
    requires Valid(f) && c in f.parent && k < |Items(f, c)|
    ensures Valid(Removed(f, c, k))
  {
    hide Under, Linked, Raised, KidsWeight;
    DetachLinked(f, c, k);
    LinkedKeys(f);
    var (g, list) := (Detach(f, c, k), f.kids[c]);
    forall x | x in g.total
      ensures g.total[x] + (if x == c then -Weight(f, list[k]) else 0.0) == KidsWeight(g, g.kids[x])
    {
      KidsUnchanged(f, g, g.kids[x]);
      if x == c {
        assert list == list[..k] + ([list[k]] + list[k + 1..]);
        KidsSplit(f, list[..k], [list[k]] + list[k + 1..]);
        KidsSplit(f, [list[k]], list[k + 1..]);
        KidsSplit(f, list[..k], list[k + 1..]);
        KidsSingle(f, list[k]);
      }
    }
    RaiseRestores(g, c, -Weight(f, list[k]));
  }

  // ----- Replacing ------------------------------------------------------------------------------

  ghost function Swap<T>(f: Forest<T>, c: T, k: nat, item: T): Forest<T>
    requires k < |Items(f, c)|
  {
    f.(parent := f.parent[item := Some(c)][Items(f, c)[k] := None], kids := f.kids[c := Items(f, c)[k := item]])
  }

  /** __replaceThing. */
  ghost function Replaced<T>(f: Forest<T>, c: T, k: nat, item: T): Forest<T>
    requires k < |Items(f, c)|
  {
    Raised(Swap(f, c, k, item), c, Weight(f, item) - Weight(f, Items(f, c)[k]))
  }

  lemma SetOne<T>(list: seq<T>, k: nat, item: T)
    requires Distinct(list) && k < |list| && item !in list
    ensures Distinct(list[k := item])
    ensures forall x :: x in list[k := item] <==> x == item || (x in list && x != list[k])
  {
    var rest := list[k := item];
    assert rest[k] == item;
    forall x | x in list && x != list[k] ensures x in rest {
      var j :| 0 <= j < |list| && list[j] == x;
      assert x == rest[j];
    }
  }

  lemma SwapLinked<T>(f: Forest<T>, c: T, k: nat, item: T)
    requires Linked(f) && c in f.parent && k < |Items(f, c)|
    requires item in f.parent && f.parent[item].None? && !Under(f.parent, c, item)
    ensures Linked(Swap(f, c, k, item))
  {
    var (g, list) := (Swap(f, c, k, item), f.kids[c]);
    assert list[k] in list && item !in list;
    AttachAcyclic(f.parent, item, c);
    DetachAcyclic(f.parent[item := Some(c)], list[k]);
    SetOne(list, k, item);
    hide Under, Acyclic, Distinct;
    assert NoDuplicates(g);
    SwapPoints(f, c, k, item);
  }

  lemma SwapParents<T>(f: Forest<T>, c: T, k: nat, item: T)
    requires SameKeys(f) && ParentsList(f) && c in f.parent && k < |Items(f, c)| && Distinct(f.kids[c])
    requires item in f.parent && f.parent[item].None? && item !in f.kids[c]
    ensures ParentsList(Swap(f, c, k, item))
  {
    SetOne(f.kids[c], k, item);
    hide Distinct;
  }

  lemma SwapPoints<T>(f: Forest<T>, c: T, k: nat, item: T)
    requires SameKeys(f) && ParentsList(f) && KidsPoint(f) && c in f.parent && k < |Items(f, c)| && Distinct(f.kids[c])
    requires item in f.parent && f.parent[item].None?
    ensures ParentsList(Swap(f, c, k, item)) && KidsPoint(Swap(f, c, k, item))
  {
    hide Distinct, ParentsList;
    var (g, list) := (Swap(f, c, k, item), f.kids[c]);
    assert list[k] in list && item !in list;
    SetOne(list, k, item);
    assert f.parent[list[k]] == Some(c);
    assert forall d :: d in f.kids ==> item !in f.kids[d];
    assert g.parent == f.parent[item := Some(c)][list[k] := None] && g.kids == f.kids[c := list[k := item]];
    SwapParents(f, c, k, item);
    forall d, x | d in g.kids && x in g.kids[d] ensures x in g.parent && g.parent[x] == Some(d) {
      if x == item {
        assert d == c;
      } else {
        assert x in f.kids[d] && f.parent[x] == Some(d);
        assert x != list[k];
      }
    }
  }

  lemma ReplaceValid<T>(f: Forest<T>, c: T, k: nat, item: T)
    requires Valid(f) && c in f.parent && k < |Items(f, c)|
    requires item in f.parent && f.parent[item].None? && !Under(f.parent, c, item)
    ensures Valid(Replaced(f, c, k, item))
  {
    hide Under, Linked, Raised, KidsWeight;
    SwapLinked(f, c, k, item);
    LinkedKeys(f);
    var (g, list) := (Swap(f, c, k, item), f.kids[c]);
    var diff := Weight(f, item) - Weight(f, list[k]);
    forall x | x in g.total
      ensures g.total[x] + (if x == c then diff else 0.0) == KidsWeight(g, g.kids[x])
    {
      KidsUnchanged(f, g, g.kids[x]);
      if x == c {
        var (a, b) := (list[..k], list[k + 1..]);
        KidsReplaced(f, a, list[k], item, b);
        assert list == a + [list[k]] + b && list[k := item] == a + [item] + b;
      }
    }
    RaiseRestores(g, c, diff);
  }

  lemma KidsReplaced<T>(f: Forest<T>, a: seq<T>, x: T, y: T, b: seq<T>)
    ensures KidsWeight(f, a + [y] + b) == KidsWeight(f, a + [x] + b) + Weight(f, y) - Weight(f, x)
  {
    KidsSplit(f, a + [x], b);
    KidsSplit(f, a + [y], b);
    KidsSplit(f, a, [x]);
    KidsSplit(f, a, [y]);
    assert [x][1..] == [] && [y][1..] == [];
  }

  // ----- The cached weight is the weight of the whole subtree --------------------------------------

  /** The sum of the own weights of a set of items. */
  ghost function OwnSum<T>(own: map<T, real>, s: set<T>): real {
    if s == {} then 0.0
    else var x :| x in s; (if x in own then own[x] else 0.0) + OwnSum(own, s - {x})
  }

  lemma {:induction false} OwnSumMinus<T>(own: map<T, real>, s: set<T>, x: T)
    requires x in s
    ensures OwnSum(own, s) == (if x in own then own[x] else 0.0) + OwnSum(own, s - {x})
    decreases s
  {
    var y :| y in s && OwnSum(own, s) == (if y in own then own[y] else 0.0) + OwnSum(own, s - {y});
    if y != x {
      OwnSumMinus(own, s - {y}, x);
      OwnSumMinus(own, s - {x}, y);
      assert s - {y} - {x} == s - {x} - {y};
    }
  }

  lemma {:induction false} OwnSumUnion<T>(own: map<T, real>, a: set<T>, b: set<T>)
    requires a !! b
    ensures OwnSum(own, a + b) == OwnSum(own, a) + OwnSum(own, b)
    decreases a
  {
    if a == {} {
      assert a + b == b;
    } else {
      var x :| x in a;
      OwnSumMinus(own, a, x);
      OwnSumMinus(own, a + b, x);
      assert a + b - {x} == (a - {x}) + b;
      OwnSumUnion(own, a - {x}, b);
    }
  }

  /** An item and everything inside it. */
  ghost function Sub<T>(p: map<T, Option<T>>, r: T): set<T> {
    Below(p, r) + {r}
  }

  /** Everything at or inside one of the listed items. */
  ghost function SubAll<T>(p: map<T, Option<T>>, list: seq<T>): set<T> {
    if list == [] then {} else Sub(p, list[0]) + SubAll(p, list[1..])
  }

  lemma {:induction false} SubAllContents<T>(p: map<T, Option<T>>, list: seq<T>)
    ensures forall x :: x in SubAll(p, list) ==> exists k :: k in list && x in Sub(p, k)
    ensures forall k :: k in list ==> Sub(p, k) <= SubAll(p, list)
  {
    if list != [] {
      SubAllContents(p, list[1..]);
      forall x | x in SubAll(p, list) ensures exists k :: k in list && x in Sub(p, k) {
        if x in Sub(p, list[0]) {
          assert list[0] in list;
        } else {
          var k :| k in list[1..] && x in Sub(p, k);
          assert k in list;
        }
      }
      forall k | k in list ensures Sub(p, k) <= SubAll(p, list) {
        assert k == list[0] || k in list[1..];
      }
    }
  }

  /** What a container holds is what its items are and hold. */
  lemma BelowIsSubAll<T>(f: Forest<T>, c: T)
    requires Linked(f) && c in f.parent
    ensures Below(f.parent, c) == SubAll(f.parent, f.kids[c])
  {
    var p := f.parent;
    SubAllContents(p, f.kids[c]);
    forall x | x in Below(p, c) ensures x in SubAll(p, f.kids[c]) {
      PathEntersKid(f, x, c);
      var k :| k in f.kids[c] && Under(p, x, k);
      assert x in Sub(p, k);
    }
    forall x | x in SubAll(p, f.kids[c]) ensures x in Below(p, c) {
      var k :| k in f.kids[c] && x in Sub(p, k);
      KidInside(f, c, k, x);
    }
  }

  lemma KidInside<T>(f: Forest<T>, c: T, k: T, x: T)
    requires Linked(f) && c in f.parent && k in f.kids[c] && x in Sub(f.parent, k)
    ensures x in Below(f.parent, c) && k in f.parent
  {
    UnderStep(f.parent, k, k);
    UnderStep(f.parent, c, c);
    UnderStep(f.parent, k, c);
    UnderTrans(f.parent, x, k, c);
    NoLoop(f.parent, k, k);
    NoLoop(f.parent, x, k);
  }

  /** totalWeight is the sum of the own weights of everything inside, at any depth. */
  lemma {:induction false} TotalIsSubtreeWeight<T>(f: Forest<T>, c: T)
    requires Valid(f) && c in f.parent
    ensures f.total[c] == OwnSum(f.own, Below(f.parent, c))
    decreases |Below(f.parent, c)|, 1
  {
    hide Under, Linked, Weighed, KidsWeight, OwnSum;
    WeighedAt(f, c);
    BelowIsSubAll(f, c);
    ListWeight(f, c, f.kids[c], |f.kids[c]|);
    assert f.kids[c][|f.kids[c]| - |f.kids[c]|..] == f.kids[c];
  }

  lemma WeighedAt<T>(f: Forest<T>, c: T)
    requires Valid(f) && c in f.parent
    ensures c in f.kids && c in f.total && f.total[c] == KidsWeight(f, f.kids[c])
  {
  }

  /** The last n items of c weigh as much as everything at or inside them. */
  lemma {:induction false} ListWeight<T>(f: Forest<T>, c: T, list: seq<T>, n: nat)
    requires Valid(f) && c in f.parent && c in f.kids && list == f.kids[c] && n <= |list|
    ensures KidsWeight(f, list[|list| - n..]) == OwnSum(f.own, SubAll(f.parent, list[|list| - n..]))
    decreases |Below(f.parent, c)|, 0, n
  {
    hide Linked, Weighed, KidsWeight, OwnSum, SubAll, Below;
    var rest := list[|list| - n..];
    if n == 0 {
      assert rest == [];
      NothingWeighs(f);
    } else {
      RestOf(f, c, list, n);
      ListWeight(f, c, list, n - 1);
      KidSmaller(f, c, rest[0]);
      TotalIsSubtreeWeight(f, rest[0]);
      ListStep(f, c, rest);
    }
  }

  lemma NothingWeighs<T>(f: Forest<T>)
    ensures KidsWeight(f, []) == 0.0 && SubAll(f.parent, []) == {} && OwnSum(f.own, {}) == 0.0
  {
  }

  lemma RestOf<T>(f: Forest<T>, c: T, list: seq<T>, n: nat)
    requires Linked(f) && c in f.kids && list == f.kids[c] && 0 < n <= |list|
    ensures var rest := list[|list| - n..];
            && rest != [] && Distinct(rest) && (forall k :: k in rest ==> k in f.kids[c])
            && rest[0] in f.parent && rest[1..] == list[|list| - (n - 1)..]
  {
    var rest := list[|list| - n..];
    assert Distinct(list);
    assert rest[0] == list[|list| - n] && rest[1..] == list[|list| - (n - 1)..];
    assert rest[0] in list && rest[0] in f.parent;
  }

  lemma ListStep<T>(f: Forest<T>, c: T, rest: seq<T>)
    requires Linked(f) && c in f.parent && rest != [] && Distinct(rest) && forall k :: k in rest ==> k in f.kids[c]
    requires rest[0] in f.parent && f.total[rest[0]] == OwnSum(f.own, Below(f.parent, rest[0]))
    requires KidsWeight(f, rest[1..]) == OwnSum(f.own, SubAll(f.parent, rest[1..]))
    ensures KidsWeight(f, rest) == OwnSum(f.own, SubAll(f.parent, rest))
  {
    hide Under, OwnSum, Acyclic;
    var k := rest[0];
    assert k in Sub(f.parent, k) && Sub(f.parent, k) - {k} == Below(f.parent, k);
    OwnSumMinus(f.own, Sub(f.parent, k), k);
    SubtreesApart(f, c, rest);
    OwnSumUnion(f.own, Sub(f.parent, k), SubAll(f.parent, rest[1..]));
  }

  lemma KidSmaller<T>(f: Forest<T>, c: T, k: T)
    requires Linked(f) && c in f.parent && k in f.kids[c]
    ensures k in f.parent && |Below(f.parent, k)| < |Below(f.parent, c)|
  {
    KidInside(f, c, k, k);
    forall x | x in Below(f.parent, k) ensures x in Below(f.parent, c) {
      KidInside(f, c, k, x);
    }
    assert Below(f.parent, k) <= Below(f.parent, c) - {k};
    CardinalitySubset(Below(f.parent, k), Below(f.parent, c) - {k});
  }

  lemma {:induction false} CardinalitySubset<T>(a: set<T>, b: set<T>)
    requires a <= b
    ensures |a| <= |b|
  {
    if a != {} {
      var x :| x in a;
      CardinalitySubset(a - {x}, b - {x});
    }
  }

  lemma BelowInside<T>(f: Forest<T>, c: T, x: T)
    requires x in Below(f.parent, c)
    ensures x in f.parent
  {
  }

  lemma InSub<T>(f: Forest<T>, x: T, r: T)
    requires x in Sub(f.parent, r)
    ensures Under(f.parent, x, r)
  {
    UnderStep(f.parent, r, r);
  }

  lemma SubtreesApart<T>(f: Forest<T>, c: T, rest: seq<T>)
    requires Linked(f) && c in f.parent && rest != [] && Distinct(rest) && forall k :: k in rest ==> k in f.kids[c]
    ensures Sub(f.parent, rest[0]) !! SubAll(f.parent, rest[1..])
  {
    hide Acyclic, NoDuplicates, ParentsList, Under, Below;
    var p := f.parent;
    SubAllContents(p, rest[1..]);
    forall x | x in Sub(p, rest[0]) && x in SubAll(p, rest[1..]) ensures false {
      var k :| k in rest[1..] && x in Sub(p, k);
      var i :| 1 <= i < |rest| && rest[i] == k;
      KidInside(f, c, k, x);
      BelowInside(f, c, x);
      InSub(f, x, k);
      InSub(f, x, rest[0]);
      SiblingsApart(f, c, rest[0], k, x);
    }
  }
}
