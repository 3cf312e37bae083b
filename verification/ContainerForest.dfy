/** Containers nested in containers, seen as a value: who holds whom, in which order, and the
    weight each container has cached. The objects of module Container are tied to this value. */
module ContainerForest {
  import opened Options

  /** parent[x] is the container holding x, or None; kids[x] is its item list. */
  datatype Forest<T(==)> = Forest(
    parent: map<T, Option<T>>,
    kids: map<T, seq<T>>,
    own: map<T, real>,     // what Item::getWeight answers without the contents
    total: map<T, real>)   // totalWeight, the cached weight of the contents

  // ----- Reaching upwards -----------------------------------------------------------------------

  ghost predicate UnderIn<T>(p: map<T, Option<T>>, x: T, r: T, steps: nat) {
    x == r || (steps > 0 && x in p && p[x].Some? && UnderIn(p, p[x].value, r, steps - 1))
  }

  /** x is r or lies somewhere inside r. */
  ghost predicate Under<T>(p: map<T, Option<T>>, x: T, r: T) {
    exists steps: nat :: UnderIn(p, x, r, steps)
  }

  lemma UnderStep<T>(p: map<T, Option<T>>, x: T, r: T)
    ensures Under(p, x, r) <==> x == r || (x in p && p[x].Some? && Under(p, p[x].value, r))
  {
    if Under(p, x, r) && x != r {
      var steps: nat :| UnderIn(p, x, r, steps);
      assert UnderIn(p, p[x].value, r, steps - 1);
    }
    if x in p && p[x].Some? && Under(p, p[x].value, r) {
      var steps: nat :| UnderIn(p, p[x].value, r, steps);
      assert UnderIn(p, x, r, steps + 1);
    }
    if x == r {
      assert UnderIn(p, x, r, 0);
    }
  }

  lemma {:induction false} UnderTrans<T>(p: map<T, Option<T>>, x: T, y: T, z: T)
    requires Under(p, x, y) && Under(p, y, z)
    ensures Under(p, x, z)
  {
    var steps: nat :| UnderIn(p, x, y, steps);
    UnderTransIn(p, x, y, z, steps);
  }

  lemma {:induction false} UnderTransIn<T>(p: map<T, Option<T>>, x: T, y: T, z: T, steps: nat)
    requires UnderIn(p, x, y, steps) && Under(p, y, z)
    ensures Under(p, x, z)
    decreases steps
  {
    if x != y {
      UnderTransIn(p, p[x].value, y, z, steps - 1);
      UnderStep(p, x, z);
    }
  }

  /** Two containers around the same item are nested in one another. */
  lemma {:induction false} UnderLinear<T>(p: map<T, Option<T>>, x: T, y: T, z: T, steps: nat)
    requires UnderIn(p, x, y, steps) && Under(p, x, z)
    ensures Under(p, y, z) || Under(p, z, y)
    decreases steps
  {
    if x == y {
    } else {
      UnderStep(p, x, z);
      UnderStep(p, x, y);
      if x == z {
        assert UnderIn(p, x, y, steps);
      } else {
        UnderLinear(p, p[x].value, y, z, steps - 1);
      }
    }
  }

  /** A depth that grows strictly from every container to its contents. */
  ghost predicate Grounded<T>(p: map<T, Option<T>>, depth: map<T, nat>) {
    forall x :: x in p ==>
                  x in depth && (p[x].Some? ==> p[x].value in p && p[x].value in depth && depth[p[x].value] < depth[x])
  }

  /** x lies inside exactly this many containers. */
  ghost predicate DepthIs<T>(p: map<T, Option<T>>, x: T, n: nat) {
    x in p && if n == 0 then p[x].None? else p[x].Some? && DepthIs(p, p[x].value, n - 1)
  }

  /** Going outwards from any item ends at a container that nothing holds. */
  ghost predicate Acyclic<T>(p: map<T, Option<T>>) {
    forall x :: x in p ==> exists n: nat :: DepthIs(p, x, n)
  }

  lemma {:induction false} DepthUnique<T>(p: map<T, Option<T>>, x: T, m: nat, n: nat)
    requires DepthIs(p, x, m) && DepthIs(p, x, n)
    ensures m == n
    decreases m
  {
    if m > 0 && n > 0 { DepthUnique(p, p[x].value, m - 1, n - 1); }
  }

  lemma Depths<T>(p: map<T, Option<T>>) returns (depth: map<T, nat>)
    requires Acyclic(p)
    ensures Grounded(p, depth)
  {
    depth := map x | x in p :: var n: nat :| DepthIs(p, x, n); n;
    forall x | x in p && p[x].Some?
      ensures p[x].value in p && depth[p[x].value] < depth[x]
    {
      assert DepthIs(p, x, depth[x]);
      assert DepthIs(p, p[x].value, depth[x] - 1);
      DepthUnique(p, p[x].value, depth[p[x].value], depth[x] - 1);
    }
  }

  lemma {:induction false} GroundedDepth<T>(p: map<T, Option<T>>, depth: map<T, nat>, x: T)
    requires Grounded(p, depth) && x in p
    ensures exists n: nat :: DepthIs(p, x, n)
    decreases depth[x]
  {
    if p[x].None? {
      assert DepthIs(p, x, 0);
    } else {
      GroundedDepth(p, depth, p[x].value);
      var n: nat :| DepthIs(p, p[x].value, n);
      assert DepthIs(p, x, n + 1);
    }
  }

  lemma GroundedAcyclic<T>(p: map<T, Option<T>>, depth: map<T, nat>)
    requires Grounded(p, depth)
    ensures Acyclic(p)
  {
    forall x | x in p ensures exists n: nat :: DepthIs(p, x, n) {
      GroundedDepth(p, depth, x);
    }
  }

  lemma {:induction false} UnderDepth<T>(p: map<T, Option<T>>, depth: map<T, nat>, x: T, r: T, steps: nat)
    requires Grounded(p, depth) && x in p && UnderIn(p, x, r, steps)
    ensures r in p && (x == r || depth[r] < depth[x])
    decreases steps
  {
    if x != r { UnderDepth(p, depth, p[x].value, r, steps - 1); }
  }

  /** No container lies inside its own contents. */
  lemma NoLoop<T>(p: map<T, Option<T>>, x: T, r: T)
    requires Acyclic(p) && x in p && Under(p, x, r)
    ensures r in p && (Under(p, r, x) ==> x == r)
    ensures p[x].Some? ==> !Under(p, p[x].value, x)
  {
    var depth := Depths(p);
    var steps: nat :| UnderIn(p, x, r, steps);
    UnderDepth(p, depth, x, r, steps);
    if Under(p, r, x) {
      var back: nat :| UnderIn(p, r, x, back);
      UnderDepth(p, depth, r, x, back);
    }
    if p[x].Some? && Under(p, p[x].value, x) {
      var back: nat :| UnderIn(p, p[x].value, x, back);
      UnderDepth(p, depth, p[x].value, x, back);
    }
  }

  /** Nor does the container of an item lie inside the item. */
  lemma HolderOutside<T>(p: map<T, Option<T>>, x: T)
    requires Acyclic(p) && x in p
    ensures p[x].Some? ==> !Under(p, p[x].value, x)
  {
    UnderStep(p, x, x);
    NoLoop(p, x, x);
  }

  /** Everything inside r, at any depth. */
  ghost function Below<T>(p: map<T, Option<T>>, r: T): set<T> {
    set x | x in p && x != r && Under(p, x, r)
  }

  /** The containers around x, x included. */
  ghost function Above<T>(p: map<T, Option<T>>, x: T): set<T> {
    set r | r in p && Under(p, x, r)
  }

  lemma AboveShrinks<T>(p: map<T, Option<T>>, x: T)
    requires Acyclic(p) && x in p && p[x].Some?
    ensures p[x].value in p && Above(p, p[x].value) < Above(p, x)
  {
    UnderStep(p, x, x);
    NoLoop(p, x, x);
    UnderStep(p, p[x].value, p[x].value);
    UnderStep(p, x, p[x].value);
    NoLoop(p, x, p[x].value);
    forall r | r in Above(p, p[x].value) ensures r in Above(p, x) {
      UnderStep(p, x, r);
    }
    assert x in Above(p, x) && x !in Above(p, p[x].value);
  }

  // ----- Attaching ------------------------------------------------------------------------------

  /** Hanging a loose item into a container changes reachability only through that container. */
  lemma {:induction false} AttachUnderIn<T>(p: map<T, Option<T>>, item: T, c: T, x: T, r: T, steps: nat)
    requires item in p && p[item].None? && !Under(p, c, item)
    requires UnderIn(p[item := Some(c)], x, r, steps)
    ensures Under(p, x, r) || (Under(p, x, item) && Under(p, c, r))
    decreases steps
  {
    UnderStep(p, x, r);
    UnderStep(p, x, item);
    if x != r {
      if x == item {
        AttachUnderIn(p, item, c, c, r, steps - 1);
      } else {
        AttachUnderIn(p, item, c, p[x].value, r, steps - 1);
        UnderStep(p, p[x].value, r);
      }
    }
  }

  lemma {:induction false} AttachKeeps<T>(p: map<T, Option<T>>, item: T, c: T, x: T, r: T, steps: nat)
    requires item in p && p[item].None? && UnderIn(p, x, r, steps)
    ensures Under(p[item := Some(c)], x, r)
    decreases steps
  {
    UnderStep(p[item := Some(c)], x, r);
    if x != r { AttachKeeps(p, item, c, p[x].value, r, steps - 1); }
  }

  lemma AttachUnder<T>(p: map<T, Option<T>>, item: T, c: T, x: T, r: T)
    requires item in p && c in p && p[item].None? && !Under(p, c, item)
    ensures Under(p[item := Some(c)], x, r) <==> Under(p, x, r) || (Under(p, x, item) && Under(p, c, r))
  {
    var q := p[item := Some(c)];
    if Under(q, x, r) {
      var steps: nat :| UnderIn(q, x, r, steps);
      AttachUnderIn(p, item, c, x, r, steps);
    }
    if Under(p, x, r) {
      var steps: nat :| UnderIn(p, x, r, steps);
      AttachKeeps(p, item, c, x, r, steps);
    }
    if Under(p, x, item) && Under(p, c, r) {
      var steps: nat :| UnderIn(p, x, item, steps);
      AttachKeeps(p, item, c, x, item, steps);
      var more: nat :| UnderIn(p, c, r, more);
      AttachKeeps(p, item, c, c, r, more);
      UnderStep(q, item, r);
      UnderTrans(q, x, item, r);
    }
  }

  /** Hanging an item into a container keeps the forest acyclic exactly when the container does
      not lie inside the item; __queryAdd refuses the other case. */
  lemma AttachAcyclic<T>(p: map<T, Option<T>>, item: T, c: T)
    requires Acyclic(p) && item in p && c in p && p[item].None?
    ensures Acyclic(p[item := Some(c)]) <==> !Under(p, c, item)
  {
    var q := p[item := Some(c)];
    if !Under(p, c, item) {
      var depth := Depths(p);
      var lifted := map x | x in p :: if Under(p, x, item) then depth[x] + depth[c] + 1 else depth[x];
      forall x | x in q
        ensures x in lifted && (q[x].Some? ==> q[x].value in q && q[x].value in lifted && lifted[q[x].value] < lifted[x])
      {
        UnderStep(p, x, item);
        UnderStep(p, item, item);
      }
      GroundedAcyclic(q, lifted);
    } else {
      var steps: nat :| UnderIn(p, c, item, steps);
      AttachKeeps(p, item, c, c, item, steps);
      if Acyclic(q) {
        UnderStep(q, item, item);
        NoLoop(q, item, item);
      }
    }
  }

  lemma DetachAcyclic<T>(p: map<T, Option<T>>, item: T)
    requires Acyclic(p) && item in p
    ensures Acyclic(p[item := None])
  {
    var depth := Depths(p);
    GroundedAcyclic(p[item := None], depth);
  }

  /** What a container holds after a loose item with all its contents was hung into something at
      or inside it, or elsewhere. */
  lemma AttachBelow<T>(p: map<T, Option<T>>, item: T, c: T, r: T)
    requires Acyclic(p) && item in p && c in p && p[item].None? && !Under(p, c, item) && r != item
    ensures Below(p[item := Some(c)], r) ==
            if Under(p, c, r) then Below(p, r) + Below(p, item) + {item} else Below(p, r)
    ensures r in p && Under(p, c, r) ==> Below(p, r) !! Below(p, item) + {item}
  {
    var q := p[item := Some(c)];
    forall x | x in p
      ensures Under(q, x, r) <==> Under(p, x, r) || (Under(p, x, item) && Under(p, c, r))
    {
      AttachUnder(p, item, c, x, r);
    }
    UnderStep(p, item, item);
    UnderStep(p, item, r);
    if r in p && Under(p, c, r) {
      forall x | x in Below(p, r) ensures x !in Below(p, item) && x != item {
        if Under(p, x, item) {
          var steps: nat :| UnderIn(p, x, item, steps);
          UnderLinear(p, x, item, r, steps);
          UnderTrans(p, c, r, item);
        }
      }
    }
    assert forall x :: x in q <==> x in p;
    if Under(p, c, r) && Under(p, r, item) {
      UnderTrans(p, c, r, item);
    }
    assert Under(p, c, r) ==> !Under(p, r, item);
    forall x | x in p
      ensures x in Below(q, r) <==> x in if Under(p, c, r) then Below(p, r) + Below(p, item) + {item} else Below(p, r)
    {
    }
  }

  /** The item list of c. */
  ghost function Items<T>(f: Forest<T>, c: T): seq<T> {
    if c in f.kids then f.kids[c] else []
  }

  ghost function Own<T>(f: Forest<T>, x: T): real {
    if x in f.own then f.own[x] else 0.0
  }

  /** Taking a held item out of its container changes reachability only through that container. */
  lemma DetachParts<T>(p: map<T, Option<T>>, source: T, target: T, item: T, r: T)
    requires Acyclic(p) && item in p && source in p && target in p && r in p && r != item
    requires p[item] == Some(source) && !Under(p, target, item)
    ensures var q := p[item := None];
            && Acyclic(q) && !Under(q, target, item) && !Under(q, source, item)
            && (Under(q, target, r) <==> Under(p, target, r)) && (Under(q, source, r) <==> Under(p, item, r))
            && Below(q, item) == Below(p, item)
  {
    hide Under, Acyclic;
    var q := p[item := None];
    DetachAcyclic(p, item);
    assert q[item := Some(source)] == p;
    UnderStep(p, item, r);
    UnderStep(p, item, item);
    NoLoop(p, item, item);
    if Under(q, source, item) { KeepsUnder(q, item, source, source, item); }
    if Under(q, target, item) { KeepsUnder(q, item, source, target, item); }
    AttachUnder(q, item, source, target, r);
    AttachUnder(q, item, source, source, r);
    forall x | x in p ensures Under(p, x, item) <==> Under(q, x, item) {
      AttachUnder(q, item, source, x, item);
    }
  }

  lemma KeepsUnder<T>(p: map<T, Option<T>>, item: T, c: T, x: T, r: T)
    requires item in p && p[item].None? && Under(p, x, r)
    ensures Under(p[item := Some(c)], x, r)
  {
    var steps: nat :| UnderIn(p, x, r, steps);
    AttachKeeps(p, item, c, x, r, steps);
  }

  // ----- Weights --------------------------------------------------------------------------------

  ghost function Weight<T>(f: Forest<T>, x: T): real {
    if x in f.own && x in f.total then f.own[x] + f.total[x] else 0.0
  }

  /** The sum of getWeight over an item list. */
  ghost function KidsWeight<T>(f: Forest<T>, list: seq<T>): real {
    if list == [] then 0.0 else Weight(f, list[0]) + KidsWeight(f, list[1..])
  }

  ghost predicate Distinct<T>(list: seq<T>) {
    forall i, j :: 0 <= i < j < |list| ==> list[i] != list[j]
  }

  ghost predicate SameKeys<T>(f: Forest<T>) {
    f.kids.Keys == f.parent.Keys && f.own.Keys == f.parent.Keys && f.total.Keys == f.parent.Keys
  }

  ghost predicate ParentsList<T>(f: Forest<T>) {
    forall x :: x in f.parent && f.parent[x].Some? ==>
                  f.parent[x].value in f.kids && x in f.kids[f.parent[x].value]
  }

  ghost predicate KidsPoint<T>(f: Forest<T>) {
    forall c, x :: c in f.kids && x in f.kids[c] ==> x in f.parent && f.parent[x] == Some(c)
  }

  ghost predicate NoDuplicates<T>(f: Forest<T>) {
    forall c :: c in f.kids ==> Distinct(f.kids[c])
  }

  /** Parents and item lists describe the same nesting, without duplicates and without loops. */
  ghost predicate Linked<T>(f: Forest<T>) {
    SameKeys(f) && ParentsList(f) && KidsPoint(f) && NoDuplicates(f) && Acyclic(f.parent)
  }

  /** Every cached weight is the sum over the item list, except that c is still short of diff. */
  ghost predicate WeighedBut<T>(f: Forest<T>, c: T, diff: real)
    requires Linked(f)
  {
    forall x :: x in f.total ==> f.total[x] + (if x == c then diff else 0.0) == KidsWeight(f, f.kids[x])
  }

  ghost predicate Weighed<T>(f: Forest<T>)
    requires Linked(f)
  {
    forall x :: x in f.total ==> f.total[x] == KidsWeight(f, f.kids[x])
  }

  ghost predicate Valid<T>(f: Forest<T>) {
    Linked(f) && Weighed(f)
  }

  /** updateItemWeight(diff) on c: every container around c, c included, gains diff. */
  ghost function Raised<T>(f: Forest<T>, c: T, diff: real): Forest<T> {
    f.(total := map x | x in f.total :: if Under(f.parent, c, x) then f.total[x] + diff else f.total[x])
  }

  lemma {:induction false} KidsUnchanged<T>(f: Forest<T>, g: Forest<T>, list: seq<T>)
    requires forall x :: x in list ==> Weight(f, x) == Weight(g, x)
    ensures KidsWeight(f, list) == KidsWeight(g, list)
  {
    if list != [] { KidsUnchanged(f, g, list[1..]); }
  }

  /** Changing the weight of one list member changes the sum by as much. */
  lemma {:induction false} KidsOneChanged<T>(f: Forest<T>, g: Forest<T>, list: seq<T>, k: nat, diff: real)
    requires k < |list| && Distinct(list) && Weight(g, list[k]) == Weight(f, list[k]) + diff
    requires forall x :: x in list && x != list[k] ==> Weight(f, x) == Weight(g, x)
    ensures KidsWeight(g, list) == KidsWeight(f, list) + diff
  {
    if k == 0 {
      KidsUnchanged(f, g, list[1..]);
    } else {
      KidsOneChanged(f, g, list[1..], k - 1, diff);
    }
  }

  lemma {:induction false} KidsSplit<T>(f: Forest<T>, a: seq<T>, b: seq<T>)
    ensures KidsWeight(f, a + b) == KidsWeight(f, a) + KidsWeight(f, b)
  {
    if a == [] {
      assert a + b == b;
    } else {
      assert (a + b)[1..] == a[1..] + b;
      KidsSplit(f, a[1..], b);
    }
  }

  lemma SameNesting<T>(f: Forest<T>, g: Forest<T>)
    requires Linked(f) && g.parent == f.parent && g.kids == f.kids && SameKeys(g)
    ensures Linked(g)
  {
    hide Acyclic, Distinct;
  }

  /** Pushing the missing weight up the parent chain makes every cached weight right again. */
  lemma RaiseRestores<T>(f: Forest<T>, c: T, diff: real)
    requires Linked(f) && c in f.parent && WeighedBut(f, c, diff)
    ensures Valid(Raised(f, c, diff))
  {
    hide Under, KidsWeight, Acyclic, Distinct;
    var g := Raised(f, c, diff);
    SameNesting(f, g);
    forall x | x in g.total ensures g.total[x] == KidsWeight(g, g.kids[x]) {
      RaisedAt(f, c, diff, x);
    }
  }

  lemma RaisedAt<T>(f: Forest<T>, c: T, diff: real, x: T)
    requires Linked(f) && c in f.parent && x in f.parent && WeighedBut(f, c, diff)
    ensures Raised(f, c, diff).total[x] == KidsWeight(Raised(f, c, diff), f.kids[x])
  {
    hide Under, KidsWeight, Acyclic, Distinct;
    var g := Raised(f, c, diff);
    var list := f.kids[x];
    forall k | k in list
      ensures Weight(g, k) == Weight(f, k) + (if Under(f.parent, c, k) then diff else 0.0)
      ensures Under(f.parent, c, k) ==> c != x && Under(f.parent, c, x)
    {
      UnderStep(f.parent, k, x);
      UnderStep(f.parent, x, x);
      if Under(f.parent, c, k) {
        UnderTrans(f.parent, c, k, x);
        UnderStep(f.parent, k, k);
        NoLoop(f.parent, k, k);
      }
    }
    if exists k :: k in list && Under(f.parent, c, k) {
      var k :| k in list && Under(f.parent, c, k);
      forall j | j in list && j != k ensures !Under(f.parent, c, j) {
        if Under(f.parent, c, j) {
          SiblingsApart(f, x, j, k, c);
        }
      }
      var i :| 0 <= i < |list| && list[i] == k;
      KidsOneChanged(f, g, list, i, diff);
    } else {
      if c != x && Under(f.parent, c, x) {
        PathEntersKid(f, c, x);
      }
      UnderStep(f.parent, c, c);
      KidsUnchanged(f, g, list);
    }
  }

  /** Nothing lies inside two different items of one container. */
  lemma SiblingsApart<T>(f: Forest<T>, x: T, j: T, k: T, c: T)
    requires Linked(f) && x in f.kids && j in f.kids[x] && k in f.kids[x] && c in f.parent
    requires Under(f.parent, c, j) && Under(f.parent, c, k)
    ensures j == k
  {
    var steps: nat :| UnderIn(f.parent, c, j, steps);
    UnderLinear(f.parent, c, j, k, steps);
    hide Under, UnderIn, Acyclic, Distinct;
    UnderStep(f.parent, j, k);
    UnderStep(f.parent, k, j);
    UnderStep(f.parent, x, x);
    UnderStep(f.parent, j, j);
    UnderStep(f.parent, k, k);
    UnderStep(f.parent, j, x);
    UnderStep(f.parent, k, x);
    if j != k {
      if Under(f.parent, j, k) {
        NoLoop(f.parent, k, k);
      } else {
        NoLoop(f.parent, j, j);
      }
    }
  }

  /** What lies strictly inside x lies at or inside one of its items. */
  lemma PathEntersKid<T>(f: Forest<T>, c: T, x: T)
    requires Linked(f) && c in f.parent && x in f.parent && c != x && Under(f.parent, c, x)
    ensures exists k :: k in f.kids[x] && Under(f.parent, c, k)
  {
    var steps: nat :| UnderIn(f.parent, c, x, steps);
    EntersKidIn(f, c, x, steps);
  }

  lemma {:induction false} EntersKidIn<T>(f: Forest<T>, c: T, x: T, steps: nat)
    requires Linked(f) && c in f.parent && x in f.parent && c != x && UnderIn(f.parent, c, x, steps)
    ensures exists k :: k in f.kids[x] && Under(f.parent, c, k)
    decreases steps
  {
    var up := f.parent[c].value;
    if up == x {
      UnderStep(f.parent, c, c);
    } else {
      EntersKidIn(f, up, x, steps - 1);
      var k :| k in f.kids[x] && Under(f.parent, up, k);
      UnderStep(f.parent, c, k);
    }
  }
}
