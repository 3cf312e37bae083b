/** __queryAdd for containers and depots: what it answers, and what its answer means for the limit. */
module Depots {
  import opened Options
  import opened ContainerForest
  import opened Containers
  import opened ContainerIterators

  // ----- The items as a value ---------------------------------------------------------------------

  /** What may change about an item besides its place among the containers. */
  datatype Info = Info(unitWeight: real, stackable: bool, count: nat, placed: bool)

  datatype World = World(f: Forest<Item>, info: map<Item, Info>)

  ghost function Infos(all: set<Item>): map<Item, Info>
    reads all`unitWeight, all`stackable, all`count, all`placed
  {
    map x | x in all :: Info(x.unitWeight, x.stackable, x.count, x.placed)
  }

  ghost function WorldOf(all: set<Item>): World
    reads all
  {
    World(Snap(all), Infos(all))
  }

  ghost function InfoOf(w: World, x: Item): Info {
    if x in w.info then w.info[x] else Info(0.0, false, 0, false)
  }

  lemma InfoAt(all: set<Item>, x: Item)
    requires x in all
    ensures var w := WorldOf(all);
            && x in w.info && InfoOf(w, x) == Info(x.unitWeight, x.stackable, x.count, x.placed)
            && w.f == Snap(all)
  {
  }

  lemma ForestOf(all: set<Item>)
    ensures WorldOf(all).f == Snap(all)
  {
  }

  /** Only containers hold anything, and all is linked and weighed as it should be. */
  ghost predicate Sound(w: World) {
    Valid(w.f) && forall x :: x in w.f.kids && !x.isContainer ==> w.f.kids[x] == []
  }

  lemma ConsistentSound(all: set<Item>)
    requires Consistent(all)
    ensures Sound(WorldOf(all)) && Linked(WorldOf(all).f)
  {
  }

  // ----- The top parent ---------------------------------------------------------------------------

  /** What getTopParent answers: an item, or the tile or other cylinder outside the containers. */
  datatype Top = Outside | TopItem(item: Item) | Nothing

  /** The climb from aux, with prev the cylinder just below. */
  ghost function TopFrom(w: World, prev: Item, aux: Item): Top
    decreases Above(w.f.parent, aux)
  {
    var p := w.f.parent;
    if aux in p && p[aux].Some? && Above(p, p[aux].value) < Above(p, aux) then TopFrom(w, aux, p[aux].value)
    else if InfoOf(w, aux).placed || !prev.isContainer then TopItem(aux)
    else TopItem(prev)
  }

  ghost function TopOf(w: World, x: Item): Top {
    var p := w.f.parent;
    if x in p && p[x].Some? then TopFrom(w, x, p[x].value)
    else if x.isContainer then TopItem(x)
    else if InfoOf(w, x).placed then Outside
    else Nothing
  }

  /** The outermost container around x. */
  ghost predicate IsRoot(p: map<Item, Option<Item>>, x: Item, r: Item) {
    Under<Item>(p, x, r) && r in p && p[r].None?
  }

  lemma HolderIsContainer(f: Forest<Item>, x: Item)
    requires Linked(f) && x in f.parent && f.parent[x].Some?
    ensures f.parent[x].value in f.parent && x in f.kids[f.parent[x].value]
  {
  }

  lemma Climbs(w: World, prev: Item, aux: Item)
    requires Linked(w.f) && aux in w.f.parent
    ensures TopFrom(w, prev, aux) ==
            if w.f.parent[aux].Some? then TopFrom(w, aux, w.f.parent[aux].value)
            else if InfoOf(w, aux).placed || !prev.isContainer then TopItem(aux)
            else TopItem(prev)
  {
    hide Above;
    if w.f.parent[aux].Some? { AboveShrinks<Item>(w.f.parent, aux); }
  }

  /** The outermost container r is found exactly when it is placed somewhere; otherwise the answer for
      its contents is the container just inside it. */
  lemma {:induction false} TopFromIs(w: World, prev: Item, aux: Item, r: Item)
    requires Sound(w) && prev in w.f.parent && w.f.parent[prev] == Some(aux) && IsRoot(w.f.parent, aux, r)
    ensures TopFrom(w, prev, aux).TopItem?
    ensures InfoOf(w, r).placed ==> TopFrom(w, prev, aux) == TopItem(r)
    ensures !InfoOf(w, r).placed && prev.isContainer ==>
              var top := TopFrom(w, prev, aux).item;
              top in w.f.parent && w.f.parent[top] == Some(r) && Under<Item>(w.f.parent, prev, top) && top.isContainer
    ensures Under<Item>(w.f.parent, prev, TopFrom(w, prev, aux).item)
    decreases Above(w.f.parent, aux)
  {
    hide Under, Above, Weighed, KidsWeight;
    var p := w.f.parent;
    HolderIsContainer(w.f, prev);
    Climbs(w, prev, aux);
    UnderStep<Item>(p, aux, r);
    UnderStep<Item>(p, prev, prev);
    if p[aux].Some? {
      var up := p[aux].value;
      HolderIsContainer(w.f, aux);
      assert aux.isContainer;
      AboveShrinks<Item>(p, aux);
      UnderStep<Item>(p, aux, r);
      HolderOutside<Item>(p, aux);
      RootAbove(p, aux, r);
      TopFromIs(w, aux, up, r);
      UnderStep<Item>(p, prev, TopFrom(w, aux, up).item);
    } else {
      UnderStep<Item>(p, prev, aux);
      UnderStep<Item>(p, aux, aux);
    }
  }

  /** The root of a held item is the root of its container. */
  lemma RootAbove(p: map<Item, Option<Item>>, x: Item, r: Item)
    requires x in p && p[x].Some?
    ensures IsRoot(p, x, r) <==> IsRoot(p, p[x].value, r)
  {
    UnderStep<Item>(p, x, r);
  }

  /** getTopParent */
  method GetTopParent(x: Item, ghost all: set<Item>) returns (top: Top)
    requires Consistent(all) && x in all
    ensures top == TopOf(WorldOf(all), x)
    ensures top.TopItem? ==> top.item in all && (x.isContainer ==> top.item.isContainer)
    ensures x.isContainer ==> top.TopItem?
  {
    hide Linked, Weighed, Under, Snap, Infos, Above, TopFrom;
    ghost var w := WorldOf(all);
    SnapAt(all, x);
    InfoAt(all, x);
    if x.parent == null {
      return if x.isContainer then TopItem(x) else if x.placed then Outside else Nothing;
    }
    Holder(all, x);
    var prev: Item, aux: Item := x, x.parent;
    while aux.parent != null
      invariant prev in all && aux in all && aux.isContainer && (x.isContainer ==> prev.isContainer)
      invariant w == WorldOf(all) && TopOf(w, x) == TopFrom(w, prev, aux)
      decreases Above(Snap(all).parent, aux)
    {
      ClimbsAt(all, prev, aux);
      Holder(all, aux);
      prev, aux := aux, aux.parent;
    }
    ClimbsAt(all, prev, aux);
    InfoAt(all, aux);
    if aux.placed {
      return TopItem(aux);
    }
    if prev.isContainer { return TopItem(prev); }
    return TopItem(aux);
  }

  lemma Holder(all: set<Item>, x: Item)
    requires Consistent(all) && x in all && x.parent != null
    ensures x.parent in all && x.parent.isContainer && x in x.parent.itemlist
    ensures Above<Item>(Snap(all).parent, x.parent) < Above<Item>(Snap(all).parent, x)
  {
    hide KidsWeight, Above;
    SnapAt(all, x);
    SnapKeys(all);
    assert x in Snap(all).kids[x.parent];
    SnapAt(all, x.parent);
    AboveShrinks<Item>(Snap(all).parent, x);
  }

  lemma ClimbsAt(all: set<Item>, prev: Item, aux: Item)
    requires Consistent(all) && aux in all
    ensures var w := WorldOf(all);
            TopFrom(w, prev, aux) ==
            if aux.parent != null then TopFrom(w, aux, aux.parent)
            else if aux.placed || !prev.isContainer then TopItem(aux)
            else TopItem(prev)
  {
    SnapAt(all, aux);
    InfoAt(all, aux);
    SnapKeys(all);
    Climbs(WorldOf(all), prev, aux);
  }

  // ----- Asking --------------------------------------------------------------------------------------

  /** How many items Depot::__queryAdd reckons an add to bring: none for an item that has the depot as
      its top parent already, unless part of a stack becomes an item of its own. */
  ghost function Brought(w: World, depot: Item, item: Item, count: nat): nat {
    if TopOf(w, item) == TopItem(depot) then (if InfoOf(w, item).stackable && InfoOf(w, item).count != count then 1 else 0)
    else if item.isContainer then |Below<Item>(w.f.parent, item)| + 1
    else 1
  }

  ghost predicate FullFor(w: World, depot: Item, item: Item, count: nat) {
    |Below<Item>(w.f.parent, depot)| + Brought(w, depot, item, count) > depot.depotLimit
  }

  /** The answer of a top parent, asked on behalf of a container inside it. */
  ghost function AsOwner(w: World, c: Item, item: Item, count: nat, noLimit: bool): ReturnValue {
    if c.isDepot && !noLimit && FullFor(w, c, item, count) then DEPOTISFULL else NOERROR
  }

  /** The answer of a container as such. */
  ghost function Admits(w: World, c: Item, index: int, item: Item, count: nat, noLimit: bool): ReturnValue {
    if !item.pickupable then CANNOTPICKUP
    else if Under<Item>(w.f.parent, c, item) then THISISIMPOSSIBLE
    else if index == INDEX_WHEREEVER && !noLimit && |Items(w.f, c)| >= c.maxSize then CONTAINERNOTENOUGHROOM
    else
      var top := TopOf(w, c);
      if top.TopItem? && top.item != c then AsOwner(w, top.item, item, count, noLimit) else NOERROR
  }

  /** The answer of the container or depot c to an add. */
  ghost function Answer(w: World, c: Item, index: int, item: Item, count: nat, noLimit: bool): ReturnValue {
    if AsOwner(w, c, item, count, noLimit) == DEPOTISFULL then DEPOTISFULL else Admits(w, c, index, item, count, noLimit)
  }

  /** Whether item is c or one of the containers around c: the walk up the parents in __queryAdd. */
  method HoldsOrIs(c: Item, item: Item, ghost all: set<Item>) returns (found: bool)
    requires Consistent(all) && c in all && item in all
    ensures found <==> Under<Item>(Snap(all).parent, c, item)
  {
    hide Linked, Weighed, Under, Snap, Above;
    ghost var p := Snap(all).parent;
    var cylinder: Item := c;
    while true
      invariant p == Snap(all).parent && cylinder in all
      invariant Under<Item>(p, c, item) <==> Under<Item>(p, cylinder, item)
      decreases Above<Item>(p, cylinder)
    {
      UnderStep<Item>(p, cylinder, item);
      SnapAt(all, cylinder);
      if cylinder == item { return true; }
      if cylinder.parent == null { return false; }
      Holder(all, cylinder);
      cylinder := cylinder.parent;
    }
  }

  /** Container::__queryAdd: refuses an item that is, or holds, the container; refuses a full
      container; then asks the top parent. */
  method ContainerQueryAdd(c: Item, index: int, item: Item, count: nat, noLimit: bool, childIsOwner: bool, ghost all: set<Item>)
    returns (r: ReturnValue)
    requires Consistent(all) && c in all && item in all && c.isContainer
    ensures r == if childIsOwner then NOERROR else Admits(WorldOf(all), c, index, item, count, noLimit)
    decreases if childIsOwner then 0 else 1, 0
  {
    hide Consistent, Under, Snap, Infos, FullFor, TopOf;
    ForestOf(all);
    if childIsOwner { return NOERROR; }
    if !item.pickupable { return CANNOTPICKUP; }
    var held := HoldsOrIs(c, item, all);
    if held { return THISISIMPOSSIBLE; }
    SnapAt(all, c);
    if index == INDEX_WHEREEVER && !noLimit && c.Full() { return CONTAINERNOTENOUGHROOM; }
    var top := GetTopParent(c, all);
    if top != TopItem(c) {
      r := QueryAdd(top.item, INDEX_WHEREEVER, item, count, noLimit, true, all);
    } else {
      r := NOERROR;
    }
  }

  /** Depot::__queryAdd: counts what the add would bring in, then asks as a container. */
  method DepotQueryAdd(d: Item, index: int, item: Item, count: nat, noLimit: bool, childIsOwner: bool, ghost all: set<Item>)
    returns (r: ReturnValue)
    requires Consistent(all) && d in all && item in all && d.isContainer && d.isDepot
    ensures var w := WorldOf(all);
            r == if childIsOwner then AsOwner(w, d, item, count, noLimit) else Answer(w, d, index, item, count, noLimit)
    decreases if childIsOwner then 0 else 1, 1
  {
    hide Consistent, Under, Snap, Infos, Below, TopOf, Admits;
    ForestOf(all);
    InfoAt(all, item);
    if noLimit {
      r := ContainerQueryAdd(d, index, item, count, noLimit, childIsOwner, all);
      return;
    }
    var addCount := 0;
    if item.stackable && item.count != count {
      addCount := 1;
    }
    var top := GetTopParent(item, all);
    if top != TopItem(d) {
      if item.isContainer {
        var holding := GetItemHoldingCount(item, all);
        addCount := holding + 1;
      } else {
        addCount := 1;
      }
    }
    var held := GetItemHoldingCount(d, all);
    if held + addCount > d.depotLimit { return DEPOTISFULL; }
    r := ContainerQueryAdd(d, index, item, count, noLimit, childIsOwner, all);
  }

  /** The virtual call. */
  method QueryAdd(c: Item, index: int, item: Item, count: nat, noLimit: bool, childIsOwner: bool, ghost all: set<Item>)
    returns (r: ReturnValue)
    requires Consistent(all) && c in all && item in all && c.isContainer
    ensures var w := WorldOf(all);
            r == if childIsOwner then AsOwner(w, c, item, count, noLimit) else Answer(w, c, index, item, count, noLimit)
    ensures var over := c.isDepot && !noLimit && FullFor(WorldOf(all), c, item, count);
            var loop := Under<Item>(Snap(all).parent, c, item);
            !childIsOwner ==>
              && r != NOTPOSSIBLE && (over ==> r == DEPOTISFULL)
              && (r == CANNOTPICKUP <==> !over && !item.pickupable)
              && (r == THISISIMPOSSIBLE <==> !over && item.pickupable && loop)
              && (r == CONTAINERNOTENOUGHROOM <==>
                  !over && item.pickupable && !loop && index == -1 && !noLimit && |c.itemlist| >= c.maxSize)
    ensures childIsOwner ==> (r == DEPOTISFULL <==> c.isDepot && !noLimit && FullFor(WorldOf(all), c, item, count))
    decreases if childIsOwner then 0 else 1, 2
  {
    hide Consistent, WorldOf, Admits, FullFor, Under;
    RefusalsAre(WorldOf(all), c, index, item, count, noLimit);
    ForestOf(all);
    SnapAt(all, c);
    if c.isDepot {
      r := DepotQueryAdd(c, index, item, count, noLimit, childIsOwner, all);
    } else {
      r := ContainerQueryAdd(c, index, item, count, noLimit, childIsOwner, all);
    }
  }

  // ----- What the answers mean ---------------------------------------------------------------------

  /** Each refusal in its case, and which comes first. */
  lemma RefusalsAre(w: World, c: Item, index: int, item: Item, count: nat, noLimit: bool)
    ensures var r := Answer(w, c, index, item, count, noLimit);
            var over := c.isDepot && !noLimit && FullFor(w, c, item, count);
            var loop := Under<Item>(w.f.parent, c, item);
            && r != NOTPOSSIBLE && (over ==> r == DEPOTISFULL)
            && (r == CANNOTPICKUP <==> !over && !item.pickupable)
            && (r == THISISIMPOSSIBLE <==> !over && item.pickupable && loop)
            && (r == CONTAINERNOTENOUGHROOM <==>
                !over && item.pickupable && !loop && index == -1 && !noLimit && |Items(w.f, c)| >= c.maxSize)
            && (r == DEPOTISFULL && !over ==>
                exists t :: TopOf(w, c) == TopItem(t) && t != c && t.isDepot && !noLimit && FullFor(w, t, item, count))
  {
    hide Under, FullFor, TopOf;
  }

  lemma RootUnique(p: map<Item, Option<Item>>, x: Item, r: Item, s: Item)
    requires IsRoot(p, x, r) && IsRoot(p, x, s)
    ensures r == s
  {
    var steps: nat :| UnderIn(p, x, r, steps);
    UnderLinear<Item>(p, x, r, s, steps);
    UnderStep<Item>(p, r, s);
    UnderStep<Item>(p, s, r);
  }

  /** t is the container itself that nothing holds; or the outermost one, which is placed, or holds the plain
      item directly; or the container just inside an outermost one that is not placed. */
  ghost predicate IsTop(w: World, x: Item, t: Item) {
    var p := w.f.parent;
    t in p && Under<Item>(p, x, t) &&
    (|| (p[t].None? && x == t && x.isContainer)
     || (p[t].None? && x != t && (InfoOf(w, t).placed || (!x.isContainer && x in p && p[x] == Some(t))))
     || (p[t].Some? && p[t].value in p && p[p[t].value].None? && !InfoOf(w, p[t].value).placed && t.isContainer))
  }

  lemma IsTopUnique(w: World, x: Item, t: Item, u: Item)
    requires Sound(w) && x in w.f.parent && IsTop(w, x, t) && IsTop(w, x, u)
    ensures t == u
  {
    hide Under, Weighed, KidsWeight, Acyclic;
    var p := w.f.parent;
    var r := if p[t].None? then t else p[t].value;
    var s := if p[u].None? then u else p[u].value;
    UnderStep<Item>(p, t, r);
    UnderStep<Item>(p, r, r);
    UnderStep<Item>(p, u, s);
    UnderStep<Item>(p, s, s);
    UnderTrans<Item>(p, x, t, r);
    UnderTrans<Item>(p, x, u, s);
    RootUnique(p, x, r, s);
    if p[t].Some? && p[u].Some? {
      HolderIsContainer(w.f, t);
      HolderIsContainer(w.f, u);
      SiblingsApart<Item>(w.f, r, t, u, x);
    } else {
      UnderStep<Item>(p, x, t);
      UnderStep<Item>(p, x, u);
      UnderStep<Item>(p, r, t);
      UnderStep<Item>(p, r, u);
    }
  }

  /** getTopParent, exactly. */
  lemma TopOfIs(w: World, x: Item, t: Item)
    requires Sound(w) && x in w.f.parent
    ensures TopOf(w, x) == TopItem(t) <==> IsTop(w, x, t)
  {
    hide Under, Weighed, KidsWeight, TopFrom, IsTop;
    if TopOf(w, x).TopItem? {
      TopIsTop(w, x);
      if IsTop(w, x, t) { IsTopUnique(w, x, t, TopOf(w, x).item); }
    } else {
      HeldHasTop(w, x);
      NoTop(w, x, t);
    }
  }

  lemma HeldHasTop(w: World, x: Item)
    requires Sound(w) && x in w.f.parent
    ensures w.f.parent[x].Some? ==> TopOf(w, x).TopItem?
  {
    hide Under, Weighed, KidsWeight, TopFrom;
    if w.f.parent[x].Some? {
      HolderIsContainer(w.f, x);
      var r := Root(w.f, w.f.parent[x].value);
      TopFromIs(w, x, w.f.parent[x].value, r);
    }
  }

  lemma NoTop(w: World, x: Item, t: Item)
    requires x in w.f.parent && w.f.parent[x].None? && !x.isContainer
    ensures !IsTop(w, x, t)
  {
    UnderStep<Item>(w.f.parent, x, t);
  }

  lemma TopIsTop(w: World, x: Item)
    requires Sound(w) && x in w.f.parent && TopOf(w, x).TopItem?
    ensures IsTop(w, x, TopOf(w, x).item)
  {
    hide Under, Weighed, KidsWeight, TopFrom;
    var p := w.f.parent;
    UnderStep<Item>(p, x, x);
    if p[x].Some? {
      var up := p[x].value;
      HolderIsContainer(w.f, x);
      HolderOutside<Item>(p, x);
      var r := Root(w.f, up);
      UnderStep<Item>(p, x, r);
      TopFromIs(w, x, up, r);
      if !InfoOf(w, r).placed && !x.isContainer {
        PlainTop(w, x, up, r);
      }
    }
  }

  lemma PlainTop(w: World, x: Item, up: Item, r: Item)
    requires Sound(w) && x in w.f.parent && w.f.parent[x] == Some(up) && IsRoot(w.f.parent, up, r)
    requires !InfoOf(w, r).placed && !x.isContainer
    ensures TopFrom(w, x, up).TopItem? && IsTop(w, x, TopFrom(w, x, up).item)
  {
    hide Under, Weighed, KidsWeight, TopFrom;
    var p := w.f.parent;
    HolderIsContainer(w.f, x);
    Climbs(w, x, up);
    UnderStep<Item>(p, up, r);
    UnderStep<Item>(p, up, up);
    UnderStep<Item>(p, x, up);
    HolderOutside<Item>(p, x);
    if p[up].Some? {
      HolderIsContainer(w.f, up);
      RootAbove(p, up, r);
      TopFromIs(w, up, p[up].value, r);
      var t := TopFrom(w, up, p[up].value).item;
      UnderStep<Item>(p, x, t);
    }
  }

  /** The depot is the outermost container, on a tile. */
  ghost predicate TopDepot(w: World, d: Item) {
    d.isDepot && d.isContainer && d in w.f.parent && w.f.parent[d].None? && InfoOf(w, d).placed
  }

  /** Every item has a root. */
  lemma {:induction false} HasRoot(p: map<Item, Option<Item>>, x: Item, n: nat)
    requires DepthIs(p, x, n)
    ensures exists r :: IsRoot(p, x, r)
    decreases n
  {
    UnderStep<Item>(p, x, x);
    if n == 0 {
      assert IsRoot(p, x, x);
    } else {
      HasRoot(p, p[x].value, n - 1);
      var r :| IsRoot(p, p[x].value, r);
      RootAbove(p, x, r);
    }
  }

  lemma Root(f: Forest<Item>, x: Item) returns (r: Item)
    requires Linked(f) && x in f.parent
    ensures IsRoot(f.parent, x, r)
  {
    var n: nat :| DepthIs(f.parent, x, n);
    HasRoot(f.parent, x, n);
    r :| IsRoot(f.parent, x, r);
  }

  /** The top parent is at or around the item. */
  lemma TopInside(w: World, x: Item)
    requires Sound(w) && x in w.f.parent && TopOf(w, x).TopItem?
    ensures Under<Item>(w.f.parent, x, TopOf(w, x).item)
  {
    hide Under, Weighed, KidsWeight, TopFrom;
    var p := w.f.parent;
    UnderStep<Item>(p, x, x);
    if p[x].Some? {
      HolderIsContainer(w.f, x);
      var r := Root(w.f, p[x].value);
      TopFromIs(w, x, p[x].value, r);
    }
  }

  /** A depot on a tile is the top parent of all that lies inside it, and of nothing else. */
  lemma TopDepotTops(w: World, d: Item, x: Item)
    requires Sound(w) && TopDepot(w, d) && x in w.f.parent
    ensures TopOf(w, x) == TopItem(d) <==> Under<Item>(w.f.parent, x, d)
  {
    hide Under, Weighed, KidsWeight, TopFrom;
    var p := w.f.parent;
    if TopOf(w, x) == TopItem(d) { TopInside(w, x); }
    if Under<Item>(p, x, d) {
      UnderStep<Item>(p, x, d);
      if p[x].Some? {
        assert IsRoot(p, x, d);
        RootAbove(p, x, d);
        TopFromIs(w, x, p[x].value, d);
      }
    }
  }

  /** What an add really brings into d. */
  ghost function Entering(w: World, d: Item, item: Item, count: nat): nat {
    if Under<Item>(w.f.parent, item, d) then (if InfoOf(w, item).stackable && InfoOf(w, item).count != count then 1 else 0)
    else |Below<Item>(w.f.parent, item)| + 1
  }

  lemma PlainHoldsNothingBelow(w: World, x: Item)
    requires Sound(w) && x in w.f.parent && !x.isContainer
    ensures Below<Item>(w.f.parent, x) == {}
  {
    forall y | y in Below<Item>(w.f.parent, x) ensures false {
      PathEntersKid<Item>(w.f, y, x);
    }
  }

  lemma BroughtIs(w: World, d: Item, item: Item, count: nat)
    requires Sound(w) && TopDepot(w, d) && item in w.f.parent
    ensures Brought(w, d, item, count) == Entering(w, d, item, count)
  {
    hide Under, Sound, TopOf;
    TopDepotTops(w, d, item);
    if !item.isContainer { PlainHoldsNothingBelow(w, item); }
  }

  /** Whatever container inside a depot on a tile accepts an add, the depot has room for it. */
  lemma AcceptedFits(w: World, d: Item, c: Item, index: int, item: Item, count: nat)
    requires Sound(w) && TopDepot(w, d) && c in w.f.parent && item in w.f.parent && Under<Item>(w.f.parent, c, d)
    requires Answer(w, c, index, item, count, false) == NOERROR
    ensures |Below<Item>(w.f.parent, d)| + Entering(w, d, item, count) <= d.depotLimit
  {
    hide Under, Sound, TopOf;
    TopDepotTops(w, d, c);
    BroughtIs(w, d, item, count);
  }

  /** An add to a container inside the outermost depot d, with nothing else against it and no other
      depot on the way: it is refused for the limit if and only if d is placed and would overflow. */
  lemma LimitThroughNesting(w: World, d: Item, c: Item, index: int, item: Item, count: nat)
    requires Sound(w) && d.isDepot && d in w.f.parent && w.f.parent[d].None? && item in w.f.parent
    requires c in w.f.parent && c.isContainer && c != d && Under<Item>(w.f.parent, c, d)
    requires forall k :: Under<Item>(w.f.parent, c, k) && k != d ==> !k.isDepot
    requires item.pickupable && !Under<Item>(w.f.parent, c, item)
    requires index == INDEX_WHEREEVER ==> |Items(w.f, c)| < c.maxSize
    ensures Answer(w, c, index, item, count, false) ==
            if InfoOf(w, d).placed && |Below<Item>(w.f.parent, d)| + Entering(w, d, item, count) > d.depotLimit
            then DEPOTISFULL else NOERROR
  {
    hide Under, Weighed, KidsWeight, TopFrom, Brought, Below;
    var p := w.f.parent;
    UnderStep<Item>(p, c, c);
    UnderStep<Item>(p, c, d);
    assert IsRoot(p, c, d);
    RootAbove(p, c, d);
    HolderIsContainer(w.f, c);
    TopFromIs(w, c, p[c].value, d);
    if InfoOf(w, d).placed {
      DepotHolds(w.f, c, d);
      BroughtIs(w, d, item, count);
    } else {
      assert TopOf(w, c).item != d by { assert p[d].None?; }
    }
  }

  lemma DepotHolds(f: Forest<Item>, c: Item, d: Item)
    requires Linked(f) && c in f.parent && d in f.parent && c != d && Under<Item>(f.parent, c, d)
    ensures f.kids[d] != []
  {
    PathEntersKid<Item>(f, c, d);
  }
}
