/** Containers, their iterator and depots as objects, tied to the forest they spell out. */
module Containers {
  import opened Options
  import opened ContainerForest
  import opened ContainerOps

  const INDEX_WHEREEVER: int := -1

  datatype ReturnValue =
    | NOERROR | NOTPOSSIBLE | CANNOTPICKUP | THISISIMPOSSIBLE | CONTAINERNOTENOUGHROOM | DEPOTISFULL

  /** An item; the fields of Container and Depot are used only by items of those classes. */
  class Item {
    const isContainer: bool
    const isDepot: bool
    const maxSize: nat
    const depotLimit: nat
    const pickupable: bool
    var unitWeight: real       // items[id].weight
    var stackable: bool        // items[id].stackable
    var count: nat
    var parent: Item?          // the container that holds it
    var placed: bool           // parent is a cylinder that is not a container, such as a tile
    var itemlist: seq<Item>
    var totalWeight: real

    constructor (isContainer: bool, isDepot: bool, maxSize: nat, depotLimit: nat, pickupable: bool,
                 unitWeight: real, stackable: bool, count: nat)
      ensures this.isContainer == isContainer && this.isDepot == isDepot && this.maxSize == maxSize
      ensures this.depotLimit == depotLimit && this.pickupable == pickupable
      ensures this.unitWeight == unitWeight && this.stackable == stackable && this.count == count
      ensures parent == null && !placed && itemlist == [] && totalWeight == 0.0
    {
      this.isContainer, this.isDepot, this.maxSize := isContainer, isDepot, maxSize;
      this.depotLimit, this.pickupable := depotLimit, pickupable;
      this.unitWeight, this.stackable, this.count := unitWeight, stackable, count;
      parent, placed, itemlist, totalWeight := null, false, [], 0.0;
    }

    /** Item::getWeight: a stack weighs at least as much as one unit. */
    function OwnWeight(): real
      reads `unitWeight, `stackable, `count
    {
      if stackable then unitWeight * (if count < 1 then 1 else count) as real else unitWeight
    }

    /** Container::getWeight adds the cached weight of the contents. */
    function GetWeight(): real
      reads this
    {
      if isContainer then OwnWeight() + totalWeight else OwnWeight()
    }

    predicate Full()
      reads this
    {
      |itemlist| >= maxSize
    }
  }

  ghost function Link(x: Item?): Option<Item> {
    if x == null then None else Some(x)
  }

  ghost function Parents(all: set<Item>): map<Item, Option<Item>>
    reads all`parent
  {
    map x | x in all :: Link(x.parent)
  }

  ghost function Lists(all: set<Item>): map<Item, seq<Item>>
    reads all`itemlist
  {
    map x | x in all :: x.itemlist
  }

  ghost function OwnWeights(all: set<Item>): map<Item, real>
    reads all`unitWeight, all`stackable, all`count
  {
    map x | x in all :: x.OwnWeight()
  }

  ghost function Totals(all: set<Item>): map<Item, real>
    reads all`totalWeight
  {
    map x | x in all :: x.totalWeight
  }

  /** The forest the objects spell out. */
  ghost function Snap(all: set<Item>): Forest<Item>
    reads all`parent, all`itemlist, all`totalWeight, all`unitWeight, all`stackable, all`count
  {
    Forest(Parents(all), Lists(all), OwnWeights(all), Totals(all))
  }

  /** Only containers hold items. */
  ghost predicate OnlyContainersHold(all: set<Item>)
    reads all`itemlist
  {
    forall x :: x in all && !x.isContainer ==> x.itemlist == []
  }

  ghost predicate Consistent(all: set<Item>)
    reads all`parent, all`itemlist, all`totalWeight, all`unitWeight, all`stackable, all`count
  {
    Valid(Snap(all)) && OnlyContainersHold(all)
  }

  lemma PlainItemsWeigh(all: set<Item>, x: Item)
    requires Consistent(all) && x in all
    ensures x.GetWeight() == Weight(Snap(all), x)
  {
    if !x.isContainer {
      assert KidsWeight(Snap(all), []) == 0.0;
      assert Snap(all).total[x] == KidsWeight(Snap(all), Snap(all).kids[x]);
    }
  }

  lemma SnapAt(all: set<Item>, x: Item)
    requires x in all
    ensures var f := Snap(all);
            && x in f.parent && x in f.kids && x in f.own && x in f.total
            && f.parent[x] == Link(x.parent) && f.kids[x] == x.itemlist && Items(f, x) == x.itemlist
            && f.own[x] == x.OwnWeight() && Own(f, x) == x.OwnWeight() && f.total[x] == x.totalWeight
  {
  }

  lemma SnapKeys(all: set<Item>)
    ensures Snap(all).parent.Keys == all
  {
  }

  lemma ListedIsHeld(f: Forest<Item>, c: Item, k: nat)
    requires Linked(f) && k < |Items(f, c)|
    ensures var item := Items(f, c)[k];
            item in f.parent && f.parent[item] == Some(c) && item != c && c in f.parent
  {
    var item := Items(f, c)[k];
    assert item in f.kids[c];
    UnderStep(f.parent, item, item);
    NoLoop(f.parent, item, item);
  }

  /** What Consistent says of one item: its cached weight is the weight of all it holds, at any depth. */
  lemma CachedWeightIsContents(all: set<Item>, c: Item)
    requires Consistent(all) && c in all
    ensures c.totalWeight == OwnSum<Item>(OwnWeights(all), Below<Item>(Snap(all).parent, c))
  {
    hide Linked, Weighed, Below, OwnSum, OwnWeights, Parents, Lists;
    SnapKeys(all);
    SnapAt(all, c);
    TotalIsSubtreeWeight<Item>(Snap(all), c);
  }

  // ----- Weights up the parent chain ------------------------------------------------------------

  lemma RaisedStep(f: Forest<Item>, c: Item, diff: real)
    requires Linked(f) && c in f.parent && c in f.total
    ensures var g := f.(total := f.total[c := f.total[c] + diff]);
            Raised(f, c, diff) == if f.parent[c].None? then g else Raised(g, f.parent[c].value, diff)
  {
    hide Under, Acyclic;
    HolderOutside<Item>(f.parent, c);
    if f.parent[c].None? {
      RaisedRoot(f, c, diff);
    } else {
      RaisedInner(f, c, f.parent[c].value, diff);
    }
  }

  lemma RaisedRoot(f: Forest<Item>, c: Item, diff: real)
    requires c in f.parent && c in f.total && f.parent[c].None?
    ensures Raised(f, c, diff) == f.(total := f.total[c := f.total[c] + diff])
  {
    hide Under;
    forall x | x in f.total ensures Under<Item>(f.parent, c, x) <==> x == c {
      UnderStep<Item>(f.parent, c, x);
    }
  }

  lemma RaisedInner(f: Forest<Item>, c: Item, up: Item, diff: real)
    requires c in f.parent && c in f.total && f.parent[c] == Some(up) && !Under<Item>(f.parent, up, c)
    ensures Raised(f, c, diff) == Raised(f.(total := f.total[c := f.total[c] + diff]), up, diff)
  {
    hide Under;
    forall x | x in f.total ensures Under<Item>(f.parent, c, x) <==> x == c || Under<Item>(f.parent, up, x) {
      UnderStep<Item>(f.parent, c, x);
    }
  }

  /** totalWeight += diff, and nothing else. */
  method Weigh(c: Item, diff: real, ghost all: set<Item>)
    requires c in all
    modifies c`totalWeight
    ensures var f := old(Snap(all)); Snap(all) == f.(total := f.total[c := f.total[c] + diff])
  {
    hide Parents, Lists, OwnWeights, Link, Item.OwnWeight;
    c.totalWeight := c.totalWeight + diff;
    assert Totals(all) == old(Totals(all))[c := old(c.totalWeight) + diff];
  }

  /** The container above c is one of the objects, and fewer containers are above it. */
  lemma StepUp(all: set<Item>, c: Item)
    requires Linked(Snap(all)) && c in all && c.parent != null
    ensures c.parent in all && Above<Item>(Snap(all).parent, c.parent) < Above<Item>(Snap(all).parent, c)
  {
    SnapAt(all, c);
    SnapKeys(all);
    AboveShrinks<Item>(Snap(all).parent, c);
  }

  lemma StillLinked(f: Forest<Item>, c: Item, w: real)
    requires Linked(f) && c in f.total
    ensures Linked(f.(total := f.total[c := w]))
  {
    SameNesting(f, f.(total := f.total[c := w]));
  }

  method UpdateItemWeight(c: Item, diff: real, ghost all: set<Item>)
    requires c in all && Linked(Snap(all))
    modifies all`totalWeight
    ensures Snap(all) == Raised(old(Snap(all)), c, diff)
    decreases Above(Snap(all).parent, c)
  {
    hide Raised, Snap, Linked, Above, Under, Item.OwnWeight;
    ghost var f := Snap(all);
    SnapAt(all, c);
    RaisedStep(f, c, diff);
    StillLinked(f, c, f.total[c] + diff);
    Weigh(c, diff, all);
    var up := c.parent;
    if up != null {
      StepUp(all, c);
      UpdateItemWeight(up, diff, all);
    }
  }

  // ----- The item lists ---------------------------------------------------------------------------

  /** setParent and push_front. */
  method PushFront(c: Item, item: Item, ghost all: set<Item>)
    requires c in all && item in all
    modifies c`itemlist, item`parent, item`placed
    ensures !item.placed
    ensures Parents(all) == old(Parents(all))[item := Some(c)]
    ensures Lists(all) == old(Lists(all))[c := c.itemlist]
    ensures c.itemlist == [item] + old(c.itemlist) && item.parent == c
  {
    hide Item.OwnWeight;
    item.parent, item.placed := c, false;
    c.itemlist := [item] + c.itemlist;
  }

  /** setParent(NULL) and erase. */
  method Erase(c: Item, k: nat, ghost all: set<Item>)
    requires c in all && k < |c.itemlist| && c.itemlist[k] in all
    modifies c`itemlist, all`parent
    ensures Parents(all) == old(Parents(all))[old(c.itemlist[k]) := None]
    ensures Lists(all) == old(Lists(all))[c := c.itemlist]
    ensures c.itemlist == old(c.itemlist[..k] + c.itemlist[k + 1..]) && old(c.itemlist[k]).parent == null
  {
    var item := c.itemlist[k];
    hide Item.OwnWeight;
    item.parent := null;
    c.itemlist := c.itemlist[..k] + c.itemlist[k + 1..];
  }

  lemma InsertErase<T>(list: seq<T>, k: nat, item: T)
    requires k < |list|
    ensures var longer := list[..k] + [item] + list[k..];
            longer[..k + 1] + longer[k + 2..] == list[k := item]
  {
  }

  /** insert before the old item, setParent on both, erase the old one. */
  method Exchange(c: Item, k: nat, item: Item, ghost all: set<Item>)
    requires c in all && item in all && k < |c.itemlist| && c.itemlist[k] in all && item != c.itemlist[k]
    modifies c`itemlist, all`parent, item`placed
    ensures Parents(all) == old(Parents(all))[item := Some(c)][old(c.itemlist[k]) := None]
    ensures Lists(all) == old(Lists(all))[c := c.itemlist]
    ensures c.itemlist == old(c.itemlist)[k := item] && !item.placed
  {
    hide Item.OwnWeight;
    var old_ := c.itemlist[k];
    InsertErase(c.itemlist, k, item);
    c.itemlist := c.itemlist[..k] + [item] + c.itemlist[k..];
    item.parent, item.placed := c, false;
    old_.parent := null;
    c.itemlist := c.itemlist[..k + 1] + c.itemlist[k + 2..];
  }

  /** setID and setSubType, or setItemCount. */
  method SetType(item: Item, unitWeight: real, stackable: bool, count: nat, ghost all: set<Item>)
    requires item in all
    modifies item`unitWeight, item`stackable, item`count
    ensures item.unitWeight == unitWeight && item.stackable == stackable && item.count == count
    ensures OwnWeights(all) == old(OwnWeights(all))[item := item.OwnWeight()]
  {
    hide Item.OwnWeight, Link;
    item.unitWeight, item.stackable, item.count := unitWeight, stackable, count;
  }

  // The same four changes, seen on the forest.

  method Hang(c: Item, item: Item, ghost all: set<Item>)
    requires c in all && item in all
    modifies c`itemlist, item`parent, item`placed
    ensures Snap(all) == Attach(old(Snap(all)), c, item) && !item.placed
    ensures c.itemlist == [item] + old(c.itemlist) && item.parent == c
  {
    SnapAt(all, c);
    hide Parents, Lists, OwnWeights, Totals;
    PushFront(c, item, all);
  }

  method Unhang(c: Item, k: nat, ghost all: set<Item>)
    requires c in all && k < |c.itemlist| && c.itemlist[k] in all
    modifies c`itemlist, all`parent
    ensures k < |Items(old(Snap(all)), c)| && Snap(all) == Detach(old(Snap(all)), c, k)
    ensures c.itemlist == old(c.itemlist[..k] + c.itemlist[k + 1..]) && old(c.itemlist[k]).parent == null
  {
    SnapAt(all, c);
    hide Parents, Lists, OwnWeights, Totals;
    Erase(c, k, all);
  }

  method Trade(c: Item, k: nat, item: Item, ghost all: set<Item>)
    requires c in all && item in all && k < |c.itemlist| && c.itemlist[k] in all && item != c.itemlist[k]
    modifies c`itemlist, all`parent, item`placed
    ensures k < |Items(old(Snap(all)), c)| && Snap(all) == Swap(old(Snap(all)), c, k, item) && !item.placed
    ensures c.itemlist == old(c.itemlist)[k := item]
  {
    SnapAt(all, c);
    hide Parents, Lists, OwnWeights, Totals;
    Exchange(c, k, item, all);
  }

  method Retype(item: Item, unitWeight: real, stackable: bool, count: nat, ghost all: set<Item>)
    requires item in all
    modifies item`unitWeight, item`stackable, item`count
    ensures item.unitWeight == unitWeight && item.stackable == stackable && item.count == count
    ensures Snap(all) == Reowned(old(Snap(all)), item, item.OwnWeight())
  {
    hide Parents, Lists, OwnWeights, Totals, Item.OwnWeight;
    SetType(item, unitWeight, stackable, count, all);
  }

  /** __getIndexOfThing */
  method GetIndexOfThing(c: Item, item: Item) returns (index: int)
    ensures index == -1 <==> item !in c.itemlist
    ensures index != -1 ==> 0 <= index < |c.itemlist| && c.itemlist[index] == item
  {
    index := 0;
    while index < |c.itemlist|
      invariant 0 <= index <= |c.itemlist| && item !in c.itemlist[..index]
    {
      if c.itemlist[index] == item { return; }
      index := index + 1;
    }
    index := -1;
  }

  // ----- The operations ---------------------------------------------------------------------------

  /** __addThing(actor, index, thing): the loose item goes to the front; an index beyond the
      capacity is refused silently. */
  method AddThing(c: Item, index: int, item: Item, ghost all: set<Item>)
    requires Consistent(all) && c in all && item in all && c.isContainer
    requires item.parent == null && !Under(Snap(all).parent, c, item)
    modifies all`totalWeight, c`itemlist, item`parent, item`placed
    ensures Consistent(all)
    ensures Snap(all) == if index >= c.maxSize then old(Snap(all)) else Added(old(Snap(all)), c, item)
    ensures item.placed == (index >= c.maxSize && old(item.placed))
  {
    hide Snap, Linked, Weighed, Raised, Weight, Attach, Item.GetWeight, KidsWeight, Under, Acyclic;
    if index >= c.maxSize { return; }
    SnapAt(all, c);
    SnapAt(all, item);
    ghost var f := Snap(all);
    PlainItemsWeigh(all, item);
    AddValid(f, c, item);
    AttachLinked(f, c, item);
    var weight := item.GetWeight();
    Hang(c, item, all);
    UpdateItemWeight(c, weight, all);
  }

  /** The weight of an item held by c changes with its type or count. */
  method ChangeItem(c: Item, item: Item, unitWeight: real, stackable: bool, count: nat, ghost all: set<Item>)
    requires Consistent(all) && c in all && item in all && item.parent == c
    modifies all`totalWeight, item`unitWeight, item`stackable, item`count
    ensures Consistent(all) && Snap(all) == Reweighed(old(Snap(all)), c, item, item.OwnWeight())
    ensures item.unitWeight == unitWeight && item.stackable == stackable && item.count == count
  {
    hide Snap, Linked, Weighed, Raised, OnlyContainersHold, Item.OwnWeight, Acyclic, KidsWeight, Under, Reowned;
    ghost var f := Snap(all);
    SnapAt(all, item);
    OnlyIn(f, c, item);
    var oldWeight := item.GetWeight();
    Retype(item, unitWeight, stackable, count, all);
    var diff := -oldWeight + item.GetWeight();
    ghost var own := item.OwnWeight();
    ReweighValid(f, c, item, own);
    ReownedLinked(f, item, own);
    assert diff == own - Own(f, item);
    UpdateItemWeight(c, diff, all);
  }

  lemma ReownedLinked(f: Forest<Item>, item: Item, own: real)
    requires Linked(f) && item in f.parent
    ensures Linked(Reowned(f, item, own))
  {
    SameNesting(f, Reowned(f, item, own));
  }

  /** __updateThing: another type or count for an item of this container. */
  method UpdateThing(c: Item, item: Item, unitWeight: real, stackable: bool, count: nat, ghost all: set<Item>)
    requires Consistent(all) && c in all && item in all && c.isContainer
    modifies all`totalWeight, item`unitWeight, item`stackable, item`count
    ensures Consistent(all)
    ensures Snap(all) == if item !in c.itemlist then old(Snap(all))
                         else Reweighed(old(Snap(all)), c, item, item.OwnWeight())
    ensures item in c.itemlist ==> item.unitWeight == unitWeight && item.stackable == stackable && item.count == count
    ensures item !in c.itemlist ==>
              item.unitWeight == old(item.unitWeight) && item.stackable == old(item.stackable) && item.count == old(item.count)
  {
    hide Consistent, Snap, Reweighed, Under, Linked, Weighed, Item.OwnWeight;
    var index := GetIndexOfThing(c, item);
    if index == -1 { return; }
    HeldBy(all, c, index);
    ChangeItem(c, item, unitWeight, stackable, count, all);
  }

  /** Listed items know their container, and the listing container is one. */
  lemma HeldBy(all: set<Item>, c: Item, k: nat)
    requires Consistent(all) && c in all && k < |c.itemlist|
    ensures c.itemlist[k] in all && c.itemlist[k].parent == c && c.itemlist[k] != c && c.isContainer
  {
    SnapAt(all, c);
    SnapKeys(all);
    ListedIsHeld(Snap(all), c, k);
    SnapAt(all, c.itemlist[k]);
  }

  /** __replaceThing: a loose item takes over the place of the item at index. */
  method ReplaceThing(c: Item, index: nat, item: Item, ghost all: set<Item>)
    requires Consistent(all) && c in all && item in all && c.isContainer
    requires item.parent == null && !Under(Snap(all).parent, c, item)
    modifies all`totalWeight, all`parent, c`itemlist, item`placed
    ensures Consistent(all)
    ensures Snap(all) == if index >= |old(c.itemlist)| then old(Snap(all)) else Replaced(old(Snap(all)), c, index, item)
    ensures item.placed == (index >= |old(c.itemlist)| && old(item.placed))
  {
    hide Snap, Linked, Weighed, Raised, Weight, Swap, Item.GetWeight, KidsWeight, Under, Acyclic;
    if index >= |c.itemlist| { return; }
    ghost var f := Snap(all);
    var old_ := c.itemlist[index];
    HeldBy(all, c, index);
    SnapAt(all, c);
    SnapAt(all, item);
    PlainItemsWeigh(all, item);
    PlainItemsWeigh(all, old_);
    ReplaceValid(f, c, index, item);
    SwapLinked(f, c, index, item);
    var diff := -old_.GetWeight() + item.GetWeight();
    Trade(c, index, item, all);
    UpdateItemWeight(c, diff, all);
  }

  lemma RemovedParent(f: Forest<Item>, c: Item, k: nat)
    requires k < |Items(f, c)|
    ensures Removed(f, c, k).parent == f.parent[Items(f, c)[k] := None]
  {
  }

  /** The whole item leaves c, with everything inside it. */
  method TakeOut(c: Item, index: nat, ghost all: set<Item>)
    requires Consistent(all) && c in all && index < |c.itemlist|
    modifies all`totalWeight, all`parent, c`itemlist
    ensures Consistent(all) && Snap(all) == Removed(old(Snap(all)), c, index)
    ensures Snap(all).parent == old(Snap(all)).parent[old(c.itemlist[index]) := None]
    ensures c.itemlist == old(c.itemlist[..index] + c.itemlist[index + 1..]) && old(c.itemlist[index]).parent == null
  {
    hide Snap, Linked, Weighed, Raised, Weight, Detach, Item.GetWeight, KidsWeight, Under, Acyclic;
    ghost var f := Snap(all);
    var item := c.itemlist[index];
    HeldBy(all, c, index);
    SnapAt(all, c);
    PlainItemsWeigh(all, item);
    RemoveValid(f, c, index);
    DetachLinked(f, c, index);
    RemovedParent(f, c, index);
    var weight := item.GetWeight();
    Unhang(c, index, all);
    UpdateItemWeight(c, -weight, all);
  }

  /** __removeThing: part of a stack, or the whole item. */
  method RemoveThing(c: Item, item: Item, count: nat, ghost all: set<Item>)
    requires Consistent(all) && c in all && item in all && c.isContainer
    modifies all`totalWeight, all`parent, c`itemlist, item`unitWeight, item`stackable, item`count
    ensures Consistent(all)
    ensures item.unitWeight == old(item.unitWeight) && item.stackable == old(item.stackable)
    ensures item !in old(c.itemlist) ==> Snap(all) == old(Snap(all)) && item.count == old(item.count)
    ensures item in old(c.itemlist) && old(item.stackable) && count != old(item.count) ==>
              item.count == (if old(item.count) < count then 0 else old(item.count) - count) &&
              item.parent == c && c.itemlist == old(c.itemlist) &&
              Snap(all) == Reweighed(old(Snap(all)), c, item, item.OwnWeight())
    ensures item in old(c.itemlist) && !(old(item.stackable) && count != old(item.count)) ==>
              item.count == old(item.count) && item.parent == null &&
              Snap(all).parent == old(Snap(all)).parent[item := None] &&
              exists k: nat :: k < |old(c.itemlist)| && old(c.itemlist)[k] == item &&
                               Snap(all) == Removed(old(Snap(all)), c, k)
  {
    hide Consistent, Snap, Reweighed, Removed, Item.OwnWeight, Under, Linked, Weighed;
    var index := GetIndexOfThing(c, item);
    if index == -1 { return; }
    HeldBy(all, c, index);
    SnapAt(all, c);
    if item.stackable && count != item.count {
      ChangeItem(c, item, item.unitWeight, item.stackable, if item.count < count then 0 else item.count - count, all);
    } else {
      TakeOut(c, index, all);
    }
  }
}
