/** Items moved, split, taken, changed, replaced and laid down, any number of times: what becomes of the
    containers, and of the limit of a depot. */
module DepotRuns {
  import opened Options
  import opened Arithmetic
  import opened ContainerForest
  import opened ContainerOps
  import opened Containers
  import opened Depots

  // ----- What a call does to the world ------------------------------------------------------------

  /** Item::getWeight */
  ghost function Weighs(i: Info): real {
    if i.stackable then i.unitWeight * (if i.count < 1 then 1 else i.count) as real else i.unitWeight
  }

  /** The loose item goes into c, to the front. */
  ghost function Hung(w: World, c: Item, item: Item): World {
    World(Added(w.f, c, item), w.info[item := InfoOf(w, item).(placed := false)])
  }

  /** The item gets another type or count; the containers around it, if any, weigh that much more. */
  ghost function Changed(w: World, item: Item, i: Info): World {
    World(if item in w.f.parent && w.f.parent[item].Some? then Reweighed(w.f, w.f.parent[item].value, item, Weighs(i))
          else Reowned(w.f, item, Weighs(i)),
          w.info[item := i])
  }

  ghost function Position(list: seq<Item>, item: Item): (k: nat)
    requires item in list
    ensures k < |list| && list[k] == item
  {
    if list[0] == item then 0 else 1 + Position(list[1..], item)
  }

  lemma PositionUnique(list: seq<Item>, k: nat)
    requires Distinct(list) && k < |list|
    ensures Position(list, list[k]) == k
  {
  }

  /** The item leaves the list of c with all that it holds. */
  ghost function TakenOut(w: World, c: Item, item: Item): World
    requires item in Items(w.f, c)
  {
    World(Removed(w.f, c, Position(Items(w.f, c), item)), w.info)
  }

  /** __removeThing: a stack is counted down, or the whole item leaves; an item of another list stays. */
  ghost function RemovedFrom(w: World, c: Item, item: Item, count: nat): World {
    var i := InfoOf(w, item);
    if item !in Items(w.f, c) then w
    else if i.stackable && count != i.count then Changed(w, item, i.(count := if i.count < count then 0 else i.count - count))
    else TakenOut(w, c, item)
  }

  /** __updateThing */
  ghost function UpdatedIn(w: World, c: Item, item: Item, unitWeight: real, stackable: bool, count: nat): World {
    if item !in Items(w.f, c) then w
    else Changed(w, item, InfoOf(w, item).(unitWeight := unitWeight, stackable := stackable, count := count))
  }

  /** __replaceThing */
  ghost function ReplacedIn(w: World, c: Item, place: nat, item: Item): World {
    if place >= |Items(w.f, c)| then w
    else World(Replaced(w.f, c, place, item), w.info[item := InfoOf(w, item).(placed := false)])
  }

  /** An empty, loose item comes into being. */
  ghost function Grown<T>(f: Forest<T>, x: T, own: real): Forest<T> {
    Forest(f.parent[x := None], f.kids[x := []], f.own[x := own], f.total[x := 0.0])
  }

  ghost function Born(w: World, x: Item, i: Info): World {
    World(Grown(w.f, x, Weighs(i)), w.info[x := i])
  }

  /** The item outside of every container. */
  ghost function Loosened(w: World, item: Item): World {
    if item in w.f.parent && w.f.parent[item].Some? && item in Items(w.f, w.f.parent[item].value)
    then TakenOut(w, w.f.parent[item].value, item)
    else w
  }

  /** Part of a stack becomes an item of its own. */
  ghost function Parted(w: World, item: Item, count: nat, x: Item): World {
    var i := InfoOf(w, item);
    Born(Changed(w, item, i.(count := if i.count < count then 0 else i.count - count)), x, i.(count := count, placed := false))
  }

  /** The index that __queryDestination passes on. */
  function Destination(target: Item, index: int): int {
    if index == 255 || index >= target.maxSize then INDEX_WHEREEVER else index
  }

  lemma Nested(w: World, c: Item, item: Item)
    ensures Hung(w, c, item).f.parent == w.f.parent[item := Some(c)]
    ensures forall i :: Changed(w, item, i).f.parent == w.f.parent
    ensures item in Items(w.f, c) ==> TakenOut(w, c, item).f.parent == w.f.parent[item := None]
  {
  }

  lemma PartedNested(w: World, item: Item, count: nat, x: Item)
    ensures Parted(w, item, count, x).f.parent == w.f.parent[x := None]
  {
  }

  // ----- The same on the objects ------------------------------------------------------------------

  method Add(c: Item, index: int, item: Item, ghost all: set<Item>)
    requires Consistent(all) && c in all && item in all && c.isContainer && index < c.maxSize
    requires item.parent == null && !Under<Item>(Snap(all).parent, c, item)
    modifies all
    ensures Consistent(all) && WorldOf(all) == Hung(old(WorldOf(all)), c, item)
  {
    hide Consistent, Snap, Under, Added;
    InfoAt(all, item);
    ghost var infos := Infos(all);
    AddThing(c, index, item, all);
    assert Infos(all) == infos[item := infos[item].(placed := false)];
  }

  method Remove(c: Item, item: Item, count: nat, ghost all: set<Item>)
    requires Consistent(all) && c in all && item in all && c.isContainer
    modifies all
    ensures Consistent(all) && WorldOf(all) == RemovedFrom(old(WorldOf(all)), c, item, count)
    ensures old(item in c.itemlist) && !old(item.stackable && count != item.count) ==> item.parent == null
  {
    hide Consistent, Snap, Removed, Reweighed, Item.OwnWeight, Position, Weighs, Items, Distinct;
    InfoAt(all, item);
    SnapAt(all, c);
    if item in c.itemlist { Listed(all, c, item); }
    SnapAt(all, item);
    ghost var infos := Infos(all);
    RemoveThing(c, item, count, all);
    assert Infos(all) == infos[item := infos[item].(count := item.count)];
    assert infos[item := infos[item]] == infos;
    hide Infos;
    InfoAt(all, item);
    WeighsOwn(item);
  }

  lemma WeighsOwn(x: Item)
    ensures x.OwnWeight() == Weighs(Info(x.unitWeight, x.stackable, x.count, x.placed))
  {
  }

  /** An item of the list of c is held by c, and once only. */
  lemma Listed(all: set<Item>, c: Item, item: Item)
    requires Consistent(all) && c in all && item in c.itemlist
    ensures item in all && item.parent == c && Distinct(c.itemlist)
    ensures Snap(all).parent[item] == Some(c)
    ensures forall k :: 0 <= k < |c.itemlist| && c.itemlist[k] == item ==> Position(c.itemlist, item) == k
  {
    SnapAt(all, c);
    SnapKeys(all);
    var k := Position(c.itemlist, item);
    HeldBy(all, c, k);
    SnapAt(all, item);
    PositionUnique(c.itemlist, k);
  }

  method Update(c: Item, item: Item, unitWeight: real, stackable: bool, count: nat, ghost all: set<Item>)
    requires Consistent(all) && c in all && item in all && c.isContainer
    modifies all
    ensures Consistent(all) && WorldOf(all) == UpdatedIn(old(WorldOf(all)), c, item, unitWeight, stackable, count)
  {
    hide Consistent, Snap, Reweighed, Item.OwnWeight, Position;
    InfoAt(all, item);
    SnapAt(all, c);
    if item in c.itemlist { Listed(all, c, item); }
    SnapAt(all, item);
    ghost var infos := Infos(all);
    UpdateThing(c, item, unitWeight, stackable, count, all);
    InfoAt(all, item);
    WeighsOwn(item);
    assert Infos(all) == infos[item := Info(item.unitWeight, item.stackable, item.count, infos[item].placed)];
    assert infos[item := infos[item]] == infos;
  }

  method Replace(c: Item, place: nat, item: Item, ghost all: set<Item>)
    requires Consistent(all) && c in all && item in all && c.isContainer
    requires item.parent == null && !Under<Item>(Snap(all).parent, c, item)
    modifies all
    ensures Consistent(all) && WorldOf(all) == ReplacedIn(old(WorldOf(all)), c, place, item)
  {
    hide Consistent, Snap, Under, Replaced;
    InfoAt(all, item);
    SnapAt(all, c);
    ghost var infos := Infos(all);
    ReplaceThing(c, place, item, all);
    assert Infos(all) == infos[item := infos[item].(placed := item.placed)];
    assert infos[item := infos[item]] == infos;
  }

  /** A loose item is laid on a tile or the like, or taken up. */
  method Lay(item: Item, on: bool, ghost all: set<Item>)
    requires Consistent(all) && item in all && item.parent == null
    modifies item`placed
    ensures Consistent(all)
    ensures var w := old(WorldOf(all)); WorldOf(all) == w.(info := w.info[item := InfoOf(w, item).(placed := on)])
  {
    hide Snap, Valid;
    InfoAt(all, item);
    ghost var infos := Infos(all);
    item.placed := on;
    assert Infos(all) == infos[item := infos[item].(placed := on)];
  }

  // ----- A new item -----------------------------------------------------------------------------------

  lemma GrownParents<T>(f: Forest<T>, x: T, own: real)
    requires SameKeys(f) && ParentsList(f) && Acyclic(f.parent) && x !in f.parent
    ensures ParentsList(Grown(f, x, own)) && Acyclic(Grown(f, x, own).parent)
  {
    hide Acyclic;
    var depth := Depths(f.parent);
    GroundedAcyclic(f.parent[x := None], depth[x := 0]);
  }

  lemma GrownKids<T>(f: Forest<T>, x: T, own: real)
    requires SameKeys(f) && KidsPoint(f) && NoDuplicates(f) && x !in f.parent
    ensures KidsPoint(Grown(f, x, own)) && NoDuplicates(Grown(f, x, own))
  {
  }

  lemma GrownValid<T>(f: Forest<T>, x: T, own: real)
    requires Valid(f) && x !in f.parent
    ensures Valid(Grown(f, x, own))
  {
    hide ParentsList, KidsPoint, NoDuplicates, Acyclic, KidsWeight, Weight;
    GrownParents(f, x, own);
    GrownKids(f, x, own);
    var g := Grown(f, x, own);
    forall y | y in g.total ensures g.total[y] == KidsWeight(g, g.kids[y]) {
      GrownWeight(f, x, own, y);
    }
  }

  lemma GrownWeight<T>(f: Forest<T>, x: T, own: real, y: T)
    requires Valid(f) && x !in f.parent && (y == x || y in f.total)
    ensures Grown(f, x, own).total[y] == KidsWeight(Grown(f, x, own), Grown(f, x, own).kids[y])
  {
    hide Acyclic, NoDuplicates, ParentsList;
    var g := Grown(f, x, own);
    if y != x {
      assert f.kids[y] == g.kids[y];
      forall k | k in f.kids[y] ensures Weight(f, k) == Weight(g, k) {
        assert k in f.parent;
      }
      hide Weight;
      KidsUnchanged(f, g, f.kids[y]);
    }
  }

  lemma {:induction false} GrownUnder<T>(p: map<T, Option<T>>, x: T, y: T, r: T, steps: nat)
    requires Acyclic(p) && x !in p && y in p
    ensures UnderIn(p[x := None], y, r, steps) <==> UnderIn(p, y, r, steps)
    ensures UnderIn(p, y, r, steps) ==> r in p
    decreases steps
  {
    if y != r && steps > 0 && p[y].Some? {
      var depth := Depths(p);
      GrownUnder(p, x, p[y].value, r, steps - 1);
    }
  }

  lemma GrownBelow<T>(p: map<T, Option<T>>, x: T, c: T, r: T)
    requires Acyclic(p) && x !in p && r in p && c in p
    ensures Below(p[x := None], r) == Below(p, r) && Below(p[x := None], x) == {}
    ensures (Under(p[x := None], c, r) <==> Under(p, c, r)) && !Under(p[x := None], c, x)
  {
    var q := p[x := None];
    hide Acyclic;
    forall y, s, steps: nat | y in p ensures UnderIn(q, y, s, steps) <==> UnderIn(p, y, s, steps) {
      GrownUnder(p, x, y, s, steps);
    }
    forall y, steps: nat | y in p ensures !UnderIn(p, y, x, steps) {
      GrownUnder(p, x, y, x, steps);
    }
    UnderStep(q, x, r);
    assert forall y :: y in p ==> (Under(q, y, r) <==> Under(p, y, r));
  }

  lemma NewItem(all: set<Item>, x: Item)
    requires Consistent(all) && x !in all && x.parent == null && x.itemlist == [] && x.totalWeight == 0.0
    ensures Consistent(all + {x})
    ensures WorldOf(all + {x}) == Born(WorldOf(all), x, Info(x.unitWeight, x.stackable, x.count, x.placed))
  {
    hide Linked, Weighed, Item.OwnWeight, Weighs;
    SnapKeys(all);
    WeighsOwn(x);
    GrownValid(Snap(all), x, x.OwnWeight());
    assert OnlyContainersHold(all + {x});
    NewItemSnap(all, x);
    assert Infos(all + {x}) == Infos(all)[x := Info(x.unitWeight, x.stackable, x.count, x.placed)];
  }

  lemma NewItemSnap(all: set<Item>, x: Item)
    requires x !in all && x.parent == null && x.itemlist == [] && x.totalWeight == 0.0
    ensures Snap(all + {x}) == Grown(Snap(all), x, x.OwnWeight())
  {
    hide Item.OwnWeight;
    assert Parents(all + {x}) == Parents(all)[x := None];
    assert Lists(all + {x}) == Lists(all)[x := []];
    assert OwnWeights(all + {x}) == OwnWeights(all)[x := x.OwnWeight()];
    assert Totals(all + {x}) == Totals(all)[x := 0.0];
  }

  /** The weight of an item that nothing holds is in no sum. */
  lemma LooseReowned(f: Forest<Item>, item: Item, own: real)
    requires Valid(f) && item in f.parent && f.parent[item].None?
    ensures Valid(Reowned(f, item, own))
  {
    var g := Reowned(f, item, own);
    SameNesting(f, g);
    LinkedKeys(f);
    Unlisted(f, item);
    hide Linked, KidsWeight;
    assert forall y :: y != item ==> Weight(f, y) == Weight(g, y);
    hide Weight;
    forall x | x in g.total ensures g.total[x] == KidsWeight(g, g.kids[x]) {
      KidsUnchanged(f, g, f.kids[x]);
    }
  }

  lemma Unlisted(f: Forest<Item>, item: Item)
    requires Linked(f) && item in f.parent && f.parent[item].None?
    ensures forall x :: x in f.kids ==> item !in f.kids[x]
  {
  }

  /** The count of a stack goes down, wherever it lies. */
  method CountDown(item: Item, count: nat, ghost all: set<Item>)
    requires Consistent(all) && item in all && item.stackable && 0 < count < item.count
    modifies all
    ensures Consistent(all) && item.unitWeight == old(item.unitWeight) && item.stackable && item.count == old(item.count) - count
    ensures var w := old(WorldOf(all)); WorldOf(all) == Changed(w, item, InfoOf(w, item).(count := old(item.count) - count))
  {
    hide Snap, Linked, Weighed, Reweighed, Reowned, Item.OwnWeight, Weighs;
    InfoAt(all, item);
    SnapAt(all, item);
    ghost var infos := Infos(all);
    if item.parent != null {
      Holder(all, item);
      RemoveThing(item.parent, item, count, all);
    } else {
      SnapKeys(all);
      LooseReowned(Snap(all), item, Weighs(infos[item].(count := item.count - count)));
      Retype(item, item.unitWeight, item.stackable, item.count - count, all);
    }
    WeighsOwn(item);
    assert Infos(all) == infos[item := infos[item].(count := item.count)];
  }

  predicate SameKind(a: Item, b: Item) {
    a.isContainer == b.isContainer && a.isDepot == b.isDepot && a.maxSize == b.maxSize && a.depotLimit == b.depotLimit &&
    a.pickupable == b.pickupable
  }

  /** The stack loses count units; they come back as a new item. */
  method TakePart(item: Item, count: nat, ghost all: set<Item>) returns (moved: Item)
    requires Consistent(all) && item in all && item.stackable && 0 < count < item.count
    modifies all
    ensures fresh(moved) && moved.parent == null && SameKind(moved, item) && Consistent(all + {moved})
    ensures WorldOf(all + {moved}) == Parted(old(WorldOf(all)), item, count, moved)
  {
    hide Consistent, Changed, Snap, Infos;
    InfoAt(all, item);
    CountDown(item, count, all);
    moved := new Item(item.isContainer, item.isDepot, item.maxSize, item.depotLimit, item.pickupable,
      item.unitWeight, true, count);
    NewItem(all, moved);
  }

  // ----- Moving an item --------------------------------------------------------------------------------

  lemma AcceptedOutside(w: World, c: Item, index: int, item: Item, count: nat, noLimit: bool)
    requires Answer(w, c, index, item, count, noLimit) == NOERROR
    ensures item.pickupable && !Under<Item>(w.f.parent, c, item)
  {
  }

  /** Taking the item out of its container does not put the target inside it. */
  lemma StillOutside(w: World, target: Item, item: Item)
    requires Linked(w.f) && target in w.f.parent && item in w.f.parent && !Under<Item>(w.f.parent, target, item)
    ensures !Under<Item>(w.f.parent[item := None], target, item)
  {
    hide Under, Acyclic;
    if w.f.parent[item].Some? {
      HolderIsContainer(w.f, item);
      HolderOutside<Item>(w.f.parent, item);
      UnderStep<Item>(w.f.parent, target, item);
      DetachParts<Item>(w.f.parent, w.f.parent[item].value, target, item, target);
    } else {
      assert w.f.parent[item := None] == w.f.parent;
    }
  }

  /** Game::internalMoveItem of a whole item that the target has accepted. */
  method MoveWhole(target: Item, index: int, item: Item, ghost all: set<Item>)
    requires Consistent(all) && target in all && target.isContainer && item in all && index < target.maxSize
    requires !Under<Item>(Snap(all).parent, target, item)
    modifies all
    ensures Consistent(all) && WorldOf(all) == Hung(Loosened(old(WorldOf(all)), item), target, item)
  {
    hide Consistent, Snap, Under, Hung, TakenOut, Below, Above;
    ghost var w := WorldOf(all);
    InfoAt(all, item);
    SnapAt(all, item);
    SnapAt(all, target);
    ConsistentSound(all);
    StillOutside(w, target, item);
    if item.parent != null {
      Holder(all, item);
      SnapAt(all, item.parent);
      Nested(w, item.parent, item);
      Remove(item.parent, item, item.count, all);
      InfoAt(all, item);
      SnapAt(all, item);
    }
    Add(target, index, item, all);
  }

  /** And of part of a stack. */
  method MovePart(target: Item, index: int, item: Item, count: nat, ghost all: set<Item>) returns (moved: Item)
    requires Consistent(all) && target in all && target.isContainer && item in all && index < target.maxSize
    requires item.stackable && 0 < count < item.count
    modifies all
    ensures fresh(moved) && SameKind(moved, item) && Consistent(all + {moved})
    ensures WorldOf(all + {moved}) == Hung(Parted(old(WorldOf(all)), item, count, moved), target, moved)
  {
    hide Consistent, Snap, Under, Hung, Parted, Below;
    ghost var w := WorldOf(all);
    ConsistentSound(all);
    SnapKeys(all);
    InfoAt(all, item);
    moved := TakePart(item, count, all);
    PartedNested(w, item, count, moved);
    InfoAt(all + {moved}, moved);
    NewOutside(w.f, moved, target);
    Add(target, index, moved, all + {moved});
  }

  lemma NewOutside(f: Forest<Item>, x: Item, target: Item)
    requires Linked(f) && x !in f.parent && target in f.parent
    ensures !Under<Item>(f.parent[x := None], target, x)
  {
    GrownBelow<Item>(f.parent, x, target, target);
  }

  // ----- Any run ---------------------------------------------------------------------------------------

  /** One call on the items made so far, which are numbered in the order they came to be. */
  datatype Op =
    | MoveOp(target: nat, index: int, item: nat, count: nat, noLimit: bool)
    | RemoveOp(container: nat, item: nat, count: nat)
    | UpdateOp(container: nat, item: nat, unitWeight: real, stackable: bool, count: nat)
    | ReplaceOp(container: nat, place: nat, item: nat)
    | LayOp(item: nat, on: bool)

  /** The world, and how many items have been made. */
  datatype State = State(w: World, made: nat)

  ghost predicate Loose(w: World, item: Item) {
    item in w.f.parent && w.f.parent[item].None?
  }

  /** An item that lies nowhere, not even on a tile. */
  ghost predicate Homeless(w: World, item: Item) {
    Loose(w, item) && !InfoOf(w, item).placed
  }

  /** What a move asks the target, and how many units then go. */
  datatype Request = Request(index: int, count: nat, units: nat, part: bool, noLimit: bool)

  /** __queryMaxCount: a thousand units of a stack, or one other item, for each free place. */
  function Room(list: nat, maxSize: nat, stackable: bool, count: nat, noLimit: bool): nat {
    if noLimit then Max(1, count)
    else if list >= maxSize then 0
    else if stackable then 1000 * (maxSize - list)
    else maxSize - list
  }

  /** internalMoveItem hands an item that lies nowhere on to internalAddItem, whole and without limits;
      of any other as many units go as were asked for and find room. */
  ghost function RequestFor(w: World, target: Item, index: int, item: Item, count: nat, noLimit: bool): Request {
    var i := InfoOf(w, item);
    var room := Room(|Items(w.f, target)|, target.maxSize, i.stackable, count, noLimit);
    var units := if i.stackable then Min(count, room) else room;
    if Homeless(w, item) then Request(INDEX_WHEREEVER, i.count, i.count, false, true)
    else Request(Destination(target, index), count, units, i.stackable && units < i.count, noLimit)
  }

  /** There is room, and __queryRemove refuses no units and more units than a stack has. */
  ghost predicate Removable(w: World, item: Item, q: Request) {
    Homeless(w, item) || (q.units > 0 && (InfoOf(w, item).stackable ==> q.units <= InfoOf(w, item).count))
  }

  ghost predicate Accepted(w: World, target: Item, item: Item, q: Request) {
    Answer(w, target, q.index, item, q.count, q.noLimit) == NOERROR
  }

  /** A move: what is refused stays as it is; part of a stack becomes the next item of the roster, and is
      counted even if the roster is too short for it. */
  ghost function Moved(s: State, target: Item, index: int, item: Item, count: nat, noLimit: bool, roster: seq<Item>): State {
    var q := RequestFor(s.w, target, index, item, count, noLimit);
    if !Removable(s.w, item, q) || !Accepted(s.w, target, item, q) then s
    else if !q.part then s.(w := Hung(Loosened(s.w, item), target, item))
    else if s.made < |roster| then State(Hung(Parted(s.w, item, q.units, roster[s.made]), target, roster[s.made]), s.made + 1)
    else s.(made := s.made + 1)
  }

  /** What one call makes of the world. A call on items that are not there, or not as the call needs
      them, does nothing. */
  ghost function Stepped(s: State, op: Op, roster: seq<Item>): (t: State)
    ensures s.made <= t.made
  {
    if op.item >= s.made || s.made > |roster| then s
    else
      var (w, item) := (s.w, roster[op.item]);
      match op
      case MoveOp(t, index, _, count, noLimit) =>
        if t < s.made && roster[t].isContainer then Moved(s, roster[t], index, item, count, noLimit, roster) else s
      case RemoveOp(c, _, count) =>
        if c < s.made && roster[c].isContainer then s.(w := RemovedFrom(w, roster[c], item, count)) else s
      case UpdateOp(c, _, unitWeight, stackable, count) =>
        if c < s.made && roster[c].isContainer then s.(w := UpdatedIn(w, roster[c], item, unitWeight, stackable, count)) else s
      case ReplaceOp(c, place, _) =>
        if c < s.made && roster[c].isContainer && Loose(w, item) && !Under<Item>(w.f.parent, roster[c], item)
        then s.(w := ReplacedIn(w, roster[c], place, item)) else s
      case LayOp(_, on) =>
        if Loose(w, item) then s.(w := w.(info := w.info[item := InfoOf(w, item).(placed := on)])) else s
  }

  ghost function Folded(s: State, ops: seq<Op>, roster: seq<Item>): (t: State)
    ensures s.made <= t.made
    decreases |ops|
  {
    if ops == [] then s else Stepped(Folded(s, ops[..|ops| - 1], roster), ops[|ops| - 1], roster)
  }

  ghost function Roster(items: seq<Item>): set<Item> {
    set x | x in items
  }

  ghost function StateOf(items: seq<Item>): State
    reads Roster(items)
  {
    State(WorldOf(Roster(items)), |items|)
  }

  lemma InRoster(items: seq<Item>, c: Item)
    requires c in items
    ensures c in Roster(items)
  {
  }

  lemma OneMore(items: seq<Item>, x: Item)
    ensures Roster(items + [x]) == Roster(items) + {x}
  {
  }

  /** The move as a whole: ask, take away, add. */
  method Move(target: Item, index: int, item: Item, count: nat, noLimit: bool, items: seq<Item>) returns (after: seq<Item>)
    requires Consistent(Roster(items)) && target in items && target.isContainer && item in items
    modifies Roster(items)
    ensures items <= after && |after| <= |items| + 1 && fresh(Roster(after[|items|..])) && Consistent(Roster(after))
    ensures Apart(items, after) && forall k :: |items| <= k < |after| ==> SameKind(after[k], item)
    ensures StateOf(after) == Moved(old(StateOf(items)), target, index, item, count, noLimit, after)
  {
    hide Consistent, WorldOf, Under, Hung, Loosened, Parted, Accepted, RequestFor, Removable, Moved;
    ghost var (all, s) := (Roster(items), StateOf(items));
    after := items;
    RequestIs(all, target, index, item, count, noLimit);
    ghost var q := RequestFor(s.w, target, index, item, count, noLimit);
    var homeless := item.parent == null && !item.placed;
    var to := if homeless then INDEX_WHEREEVER else Destination(target, index);
    var asked := if homeless then item.count else count;
    var accepted := Ask(target, to, item, asked, homeless || noLimit, q, all);
    var r, room := QueryMaxCount(target, item, asked, homeless || noLimit);
    var m := if item.stackable then Min(asked, room) else room;
    var refused := !accepted || (r != NOERROR && room == 0) ||
                   (!homeless && (m == 0 || (item.stackable && m > item.count)));
    if refused {
      MovedIs(s, target, index, item, count, noLimit, q, after);
      return;
    }
    if !homeless && item.stackable && m < item.count {
      var moved := MovePart(target, to, item, m, all);
      after := items + [moved];
      OneMore(items, moved);
    } else {
      MoveWhole(target, to, item, all);
    }
    MovedIs(s, target, index, item, count, noLimit, q, after);
  }

  /** Container::__queryMaxCount */
  method QueryMaxCount(c: Item, item: Item, count: nat, noLimit: bool) returns (r: ReturnValue, maxQueryCount: nat)
    ensures maxQueryCount == Room(|c.itemlist|, c.maxSize, item.stackable, count, noLimit)
    ensures r == if noLimit || (if item.stackable then maxQueryCount >= count else maxQueryCount > 0) then NOERROR
                 else CONTAINERNOTENOUGHROOM
    ensures !noLimit ==> (maxQueryCount == 0 <==> |c.itemlist| >= c.maxSize)
  {
    if noLimit { return NOERROR, Max(1, count); }
    var freeSlots := Max(c.maxSize - |c.itemlist|, 0);
    if item.stackable {
      maxQueryCount := freeSlots * 1000;
      if maxQueryCount < count { return CONTAINERNOTENOUGHROOM, maxQueryCount; }
    } else {
      maxQueryCount := freeSlots;
      if maxQueryCount == 0 { return CONTAINERNOTENOUGHROOM, maxQueryCount; }
    }
    r := NOERROR;
  }

  lemma RequestIs(all: set<Item>, target: Item, index: int, item: Item, count: nat, noLimit: bool)
    requires item in all && target in all
    ensures var homeless := item.parent == null && !item.placed;
            var asked := if homeless then item.count else count;
            var room := Room(|target.itemlist|, target.maxSize, item.stackable, asked, homeless || noLimit);
            var m := if item.stackable then Min(asked, room) else room;
            var q := RequestFor(WorldOf(all), target, index, item, count, noLimit);
            && q.index == (if homeless then INDEX_WHEREEVER else Destination(target, index))
            && q.count == asked && q.noLimit == (homeless || noLimit) && (!homeless ==> q.units == m)
            && q.part == (!homeless && item.stackable && m < item.count)
            && (Removable(WorldOf(all), item, q) <==> homeless || (m > 0 && (item.stackable ==> m <= item.count)))
  {
    InfoAt(all, item);
    SnapAt(all, item);
    SnapAt(all, target);
  }

  lemma MovedIs(s: State, target: Item, index: int, item: Item, count: nat, noLimit: bool, q: Request, roster: seq<Item>)
    requires q == RequestFor(s.w, target, index, item, count, noLimit) && (q.part ==> s.made <= |roster|)
    ensures var t := Moved(s, target, index, item, count, noLimit, roster);
            if !Removable(s.w, item, q) || !Accepted(s.w, target, item, q) then t == s
            else if !q.part then t == s.(w := Hung(Loosened(s.w, item), target, item))
            else s.made < |roster| ==>
                   t == State(Hung(Parted(s.w, item, q.units, roster[s.made]), target, roster[s.made]), s.made + 1)
  {
    hide Hung, Loosened, Parted, Accepted, RequestFor, Removable;
  }

  method Ask(target: Item, index: int, item: Item, count: nat, noLimit: bool, ghost q: Request, ghost all: set<Item>)
    returns (accepted: bool)
    requires Consistent(all) && target in all && target.isContainer && item in all
    requires q.index == index && q.count == count && q.noLimit == noLimit
    ensures accepted == Accepted(WorldOf(all), target, item, q)
    ensures accepted ==> !Under<Item>(Snap(all).parent, target, item)
  {
    hide Consistent, Answer;
    var r := QueryAdd(target, index, item, count, noLimit, false, all);
    accepted := r == NOERROR;
    if accepted {
      AcceptedOutside(WorldOf(all), target, index, item, count, noLimit);
      ForestOf(all);
    }
  }

  /** A longer roster makes no difference to calls that get along with this one. */
  lemma SamePrefix(s: State, op: Op, a: seq<Item>, b: seq<Item>)
    requires a <= b && Stepped(s, op, a).made <= |a|
    ensures Stepped(s, op, b) == Stepped(s, op, a)
  {
    hide RemovedFrom, UpdatedIn, ReplacedIn, Under, Hung, Parted, Loosened, Accepted, RequestFor, Removable;
  }

  lemma {:induction false} SameFold(s: State, ops: seq<Op>, a: seq<Item>, b: seq<Item>)
    requires a <= b && Folded(s, ops, a).made <= |a|
    ensures Folded(s, ops, b) == Folded(s, ops, a)
    decreases |ops|
  {
    hide Stepped;
    if ops != [] {
      var (front, last) := (ops[..|ops| - 1], ops[|ops| - 1]);
      SameFold(s, front, a, b);
      SamePrefix(Folded(s, front, a), last, a, b);
    }
  }

  /** A call that makes no new item. */
  method StepInPlace(op: Op, items: seq<Item>)
    requires Consistent(Roster(items)) && !op.MoveOp? && op.item < |items|
    modifies Roster(items)
    ensures Consistent(Roster(items)) && StateOf(items) == Stepped(old(StateOf(items)), op, items)
  {
    hide Consistent, WorldOf, Under, RemovedFrom, UpdatedIn, ReplacedIn;
    ghost var all := Roster(items);
    var item := items[op.item];
    InfoAt(all, item);
    SnapAt(all, item);
    match op {
      case RemoveOp(c, _, count) =>
        if c < |items| && items[c].isContainer { Remove(items[c], item, count, all); }
      case UpdateOp(c, _, unitWeight, stackable, count) =>
        if c < |items| && items[c].isContainer { Update(items[c], item, unitWeight, stackable, count, all); }
      case ReplaceOp(c, place, _) =>
        if c < |items| && items[c].isContainer {
          var held := HoldsOrIs(items[c], item, all);
          if !held && item.parent == null { Replace(items[c], place, item, all); }
        }
      case LayOp(_, on) =>
        if item.parent == null { Lay(item, on, all); }
    }
  }

  method Step(op: Op, items: seq<Item>) returns (after: seq<Item>)
    requires Consistent(Roster(items))
    modifies Roster(items)
    ensures items <= after && |after| <= |items| + 1 && fresh(Roster(after[|items|..])) && Consistent(Roster(after))
    ensures Apart(items, after) && forall k :: |items| <= k < |after| ==> exists j :: 0 <= j < |items| && SameKind(after[k], items[j])
    ensures StateOf(after) == Stepped(old(StateOf(items)), op, after)
  {
    hide Consistent, WorldOf, Under, RemovedFrom, UpdatedIn, ReplacedIn, Moved, SameKind;
    after := items;
    if op.item >= |items| { return; }
    if op.MoveOp? {
      if op.target < |items| && items[op.target].isContainer {
        after := Move(items[op.target], op.index, items[op.item], op.count, op.noLimit, items);
      }
    } else {
      StepInPlace(op, items);
    }
  }

  // ----- The limit ------------------------------------------------------------------------------------

  /** A depot on a tile holding no more than it may. */
  ghost predicate Within(w: World, d: Item) {
    Sound(w) && TopDepot(w, d) && |Below<Item>(w.f.parent, d)| <= d.depotLimit
  }

  /** How many items the removal of a held item takes out of d. */
  ghost function Leaving(p: map<Item, Option<Item>>, item: Item, d: Item): nat {
    if Under<Item>(p, item, d) then |Below<Item>(p, item)| + 1 else 0
  }

  /** The call takes d beyond its limit: an accepted add that was not asked about the limit, or that was asked
      for whole and then finds room for part of the stack only, or a replacement, after which more lies in d
      than may. */
  ghost predicate Overflows(s: State, op: Op, roster: seq<Item>, d: Item) {
    var (w, p) := (s.w, s.w.f.parent);
    op.item < s.made <= |roster| &&
    match op
    case MoveOp(t, index, _, count, noLimit) =>
      t < s.made && roster[t].isContainer &&
      var (target, item) := (roster[t], roster[op.item]);
      var q := RequestFor(w, target, index, item, count, noLimit);
      && (q.noLimit || (q.part && q.count == InfoOf(w, item).count))
      && Removable(w, item, q) && Accepted(w, target, item, q) && Under<Item>(p, target, d)
      && |Below<Item>(p, d)| + (if q.part then (if s.made < |roster| then 1 else 0) else |Below<Item>(p, item)| + 1) >
         d.depotLimit + if q.part then 0 else Leaving(p, item, d)
    case ReplaceOp(c, place, _) =>
      c < s.made && roster[c].isContainer && Loose(w, roster[op.item]) && !Under<Item>(p, roster[c], roster[op.item]) &&
      place < |Items(w.f, roster[c])| && Under<Item>(p, roster[c], d) &&
      |Below<Item>(p, d)| + |Below<Item>(p, roster[op.item])| > d.depotLimit + |Below<Item>(p, Items(w.f, roster[c])[place])|
    case _ => false
  }

  /** The call leaves the depot where it is. */
  ghost predicate Spares(s: State, op: Op, roster: seq<Item>, d: Item) {
    op.item < s.made <= |roster| && (op.MoveOp? || op.ReplaceOp? || (op.LayOp? && !op.on)) ==> roster[op.item] != d
  }

  lemma CardinalSum<T>(a: set<T>, b: set<T>, x: T)
    requires a !! b + {x} && x !in b
    ensures |a + b + {x}| == |a| + |b| + 1
  {
    assert |a + b| == |a| + |b|;
  }

  /** How the number of items inside r changes when a loose item is hung into c. */
  lemma AttachCount(p: map<Item, Option<Item>>, c: Item, item: Item, r: Item)
    requires Acyclic(p) && item in p && c in p && r in p && r != item
    requires p[item].None? && !Under<Item>(p, c, item)
    ensures |Below<Item>(p[item := Some(c)], r)| ==
            |Below<Item>(p, r)| + (if Under<Item>(p, c, r) then |Below<Item>(p, item)| + 1 else 0)
  {
    hide Under, Acyclic;
    AttachBelow<Item>(p, item, c, r);
    if Under<Item>(p, c, r) {
      CardinalSum(Below<Item>(p, r), Below<Item>(p, item), item);
    }
  }

  /** Leaving a container takes as many items out of everything around it. */
  lemma DetachCount(p: map<Item, Option<Item>>, item: Item, r: Item)
    requires Acyclic<Item>(p) && item in p && r in p && r != item
    requires p[item].Some? ==> p[item].value in p
    ensures |Below<Item>(p, r)| == |Below<Item>(p[item := None], r)| + (if Under<Item>(p, item, r) then |Below<Item>(p, item)| + 1 else 0)
  {
    hide Under, Below, Acyclic;
    var q := p[item := None];
    UnderStep<Item>(p, item, r);
    if p[item].Some? {
      var c := p[item].value;
      HolderOutside<Item>(p, item);
      UnderStep<Item>(p, c, item);
      DetachParts<Item>(p, c, c, item, r);
      assert p == q[item := Some(c)];
      AttachCount(q, c, item, r);
    } else {
      assert p == q;
    }
  }

  /** What leaving one container and entering another does to the number of items in the depot. */
  lemma MoveCount(p: map<Item, Option<Item>>, target: Item, item: Item, d: Item)
    requires Acyclic<Item>(p) && target in p && item in p && d in p && item != d && !Under<Item>(p, target, item)
    requires p[item].Some? ==> p[item].value in p
    ensures |Below<Item>(p[item := Some(target)], d)| + (if Under<Item>(p, item, d) then |Below<Item>(p, item)| + 1 else 0) ==
            |Below<Item>(p, d)| + (if Under<Item>(p, target, d) then |Below<Item>(p, item)| + 1 else 0)
  {
    hide Under, Below, Acyclic;
    var q := p[item := None];
    DetachCount(p, item, d);
    UnderStep<Item>(p, target, item);
    if p[item].Some? {
      UnderStep<Item>(p, item, item);
      DetachParts<Item>(p, p[item].value, target, item, d);
    } else {
      assert q == p;
    }
    AttachCount(q, target, item, d);
    assert q[item := Some(target)] == p[item := Some(target)];
  }

  lemma NewItemCount(p: map<Item, Option<Item>>, x: Item, target: Item, d: Item)
    requires Acyclic<Item>(p) && target in p && d in p && x !in p
    ensures |Below<Item>(p[x := None][x := Some(target)], d)| == |Below<Item>(p, d)| + if Under<Item>(p, target, d) then 1 else 0
  {
    hide Under, Below;
    var q := p[x := None];
    GrownBelow<Item>(p, x, target, d);
    var depth := Depths<Item>(p);
    GroundedAcyclic<Item>(q, depth[x := 0]);
    AttachCount(q, target, x, d);
  }

  /** What replacing one item by another in c does to the number of items in the depot. */
  lemma SwapCount(p: map<Item, Option<Item>>, c: Item, item: Item, gone: Item, d: Item)
    requires Acyclic<Item>(p) && c in p && item in p && gone in p && d in p && item != d && gone != d
    requires p[item].None? && p[gone] == Some(c) && !Under<Item>(p, c, item)
    ensures |Below<Item>(p[item := Some(c)][gone := None], d)| + (if Under<Item>(p, c, d) then |Below<Item>(p, gone)| + 1 else 0) ==
            |Below<Item>(p, d)| + (if Under<Item>(p, c, d) then |Below<Item>(p, item)| + 1 else 0)
  {
    hide Under, Below, Acyclic;
    var q := p[item := Some(c)];
    AttachCount(p, c, item, d);
    AttachAcyclic<Item>(p, item, c);
    UnderStep<Item>(p, gone, item);
    AttachUnder<Item>(p, item, c, gone, d);
    HolderOutside<Item>(p, gone);
    AttachBelow<Item>(p, item, c, gone);
    UnderStep<Item>(p, gone, d);
    DetachCount(q, gone, d);
  }

  /** A move keeps the depot within its limit exactly when it does not overflow it. */
  lemma MoveKeeps(s: State, op: Op, roster: seq<Item>, d: Item)
    requires Within(s.w, d) && op.MoveOp? && op.item < s.made <= |roster| && op.target < s.made && roster[op.target].isContainer
    requires roster[op.target] in s.w.f.parent && roster[op.item] in s.w.f.parent && roster[op.item] != d
    requires s.made < |roster| ==> roster[s.made] !in s.w.f.parent
    ensures var w := Moved(s, roster[op.target], op.index, roster[op.item], op.count, op.noLimit, roster).w;
            TopDepot(w, d) && (|Below<Item>(w.f.parent, d)| <= d.depotLimit <==> !Overflows(s, op, roster, d))
  {
    hide Under, Below, Sound, Hung, Parted, Loosened, Answer, RequestFor, Removable;
    var (w, target, item) := (s.w, roster[op.target], roster[op.item]);
    var q := RequestFor(w, target, op.index, item, op.count, op.noLimit);
    if Removable(w, item, q) && Accepted(w, target, item, q) {
      AcceptedOutside(w, target, q.index, item, q.count, q.noLimit);
      SoundParents(w, item);
      PartOfStack(w, target, op.index, item, op.count, op.noLimit);
      if Under<Item>(w.f.parent, target, d) && !q.noLimit { AcceptedFits(w, d, target, q.index, item, q.count); }
      if !q.part {
        MoveCount(w.f.parent, target, item, d);
        MovedNested(w, target, item);
      } else {
        if s.made < |roster| {
          NewItemCount(w.f.parent, roster[s.made], target, d);
          PartMovedNested(w, target, item, q.units, roster[s.made]);
        }
      }
    }
  }

  lemma PartOfStack(w: World, target: Item, index: int, item: Item, count: nat, noLimit: bool)
    ensures var q := RequestFor(w, target, index, item, count, noLimit);
            q.part ==> InfoOf(w, item).stackable && q.units < InfoOf(w, item).count && !Homeless(w, item)
  {
  }

  /** So does a replacement. */
  lemma ReplaceKeeps(w: World, c: Item, place: nat, item: Item, d: Item)
    requires Within(w, d) && place < |Items(w.f, c)| && c in w.f.parent && Loose(w, item) && item != d
    requires !Under<Item>(w.f.parent, c, item)
    ensures var (p, v) := (w.f.parent, ReplacedIn(w, c, place, item));
            TopDepot(v, d) &&
            |Below<Item>(v.f.parent, d)| + (if Under<Item>(p, c, d) then |Below<Item>(p, Items(w.f, c)[place])| else 0) ==
            |Below<Item>(p, d)| + (if Under<Item>(p, c, d) then |Below<Item>(p, item)| else 0)
  {
    hide Under, Below;
    var gone := Items(w.f, c)[place];
    ListedIsHeld(w.f, c, place);
    SwapCount(w.f.parent, c, item, gone, d);
  }

  lemma SoundParents(w: World, item: Item)
    requires Sound(w) && item in w.f.parent
    ensures Acyclic(w.f.parent)
    ensures w.f.parent[item].Some? ==> w.f.parent[item].value in w.f.parent && item in Items(w.f, w.f.parent[item].value)
  {
  }

  lemma MovedNested(w: World, target: Item, item: Item)
    requires item in w.f.parent && (w.f.parent[item].Some? ==> item in Items(w.f, w.f.parent[item].value))
    ensures var v := Hung(Loosened(w, item), target, item);
            v.f.parent == w.f.parent[item := Some(target)] && forall x :: x != item ==> InfoOf(v, x) == InfoOf(w, x)
  {
  }

  lemma PartMovedNested(w: World, target: Item, item: Item, count: nat, x: Item)
    ensures var v := Hung(Parted(w, item, count, x), target, x);
            && v.f.parent == w.f.parent[x := None][x := Some(target)]
            && forall y :: y != x ==> InfoOf(v, y).placed == InfoOf(w, y).placed
  {
    hide Parted, Hung;
    PartedNested(w, item, count, x);
    PartedPlaced(w, item, count, x);
    Nested(Parted(w, item, count, x), target, x);
    HungPlaced(Parted(w, item, count, x), target, x);
  }

  lemma HungPlaced(w: World, c: Item, x: Item)
    ensures forall y :: y != x ==> InfoOf(Hung(w, c, x), y) == InfoOf(w, y)
  {
    hide Added;
  }

  lemma HungItems(w: World, c: Item, x: Item, y: Item)
    requires y != c
    ensures Items(Hung(w, c, x).f, y) == Items(w.f, y)
  {
    hide Weight;
  }

  lemma PartedPlaced(w: World, item: Item, count: nat, x: Item)
    ensures forall y :: y != x ==> InfoOf(Parted(w, item, count, x), y).placed == InfoOf(w, y).placed
  {
    hide Grown, Reweighed, Weighs;
  }

  /** A call that leaves a depot in its place keeps it within its limit if and only if it does not
      overflow it. */
  lemma StepKeeps(s: State, op: Op, roster: seq<Item>, d: Item)
    requires Within(s.w, d) && Spares(s, op, roster, d) && s.made <= |roster|
    requires forall k :: 0 <= k < s.made ==> roster[k] in s.w.f.parent
    requires s.made < |roster| ==> roster[s.made] !in s.w.f.parent
    ensures var w := Stepped(s, op, roster).w;
            TopDepot(w, d) && (|Below<Item>(w.f.parent, d)| <= d.depotLimit <==> !Overflows(s, op, roster, d))
  {
    hide Under, Below, Sound, Moved, Changed, TakenOut, ReplacedIn, Overflows;
    NoOverflow(s, op, roster, d);
    if op.item < s.made {
      var (w, item) := (s.w, roster[op.item]);
      match op {
        case MoveOp(t, _, _, _, _) =>
          if t < s.made && roster[t].isContainer { MoveKeeps(s, op, roster, d); }
        case RemoveOp(c, _, _) =>
          if c < s.made && item in Items(w.f, roster[c]) { RemoveKeeps(w, roster[c], item, d); }
        case UpdateOp(c, _, _, _, _) =>
          if c < s.made && item in Items(w.f, roster[c]) { RemoveKeeps(w, roster[c], item, d); }
        case ReplaceOp(c, _, _) =>
          if c < s.made && roster[c].isContainer && Loose(w, item) && !Under<Item>(w.f.parent, roster[c], item) {
            ReplaceStep(s, op, roster, d);
          }
        case LayOp(_, _) =>
      }
    }
  }

  /** Only an accepted move and a replacement can overflow anything. */
  lemma NoOverflow(s: State, op: Op, roster: seq<Item>, d: Item)
    ensures op.item >= s.made || s.made > |roster| ==> !Overflows(s, op, roster, d)
    ensures op.RemoveOp? || op.UpdateOp? || op.LayOp? ==> !Overflows(s, op, roster, d)
    ensures op.MoveOp? && op.item < s.made <= |roster| && !(op.target < s.made && roster[op.target].isContainer) ==>
              !Overflows(s, op, roster, d)
    ensures op.ReplaceOp? && op.item < s.made <= |roster| &&
            !(op.container < s.made && roster[op.container].isContainer && Loose(s.w, roster[op.item]) &&
              !Under<Item>(s.w.f.parent, roster[op.container], roster[op.item])) ==>
              !Overflows(s, op, roster, d)
  {
    hide Under, Below, RequestFor, Removable, Accepted, Leaving;
  }

  lemma ReplaceOverflows(s: State, op: Op, roster: seq<Item>, d: Item)
    requires op.ReplaceOp? && op.item < s.made <= |roster| && op.container < s.made && roster[op.container].isContainer
    requires Loose(s.w, roster[op.item]) && !Under<Item>(s.w.f.parent, roster[op.container], roster[op.item])
    ensures var (p, list) := (s.w.f.parent, Items(s.w.f, roster[op.container]));
            Overflows(s, op, roster, d) <==>
            op.place < |list| && Under<Item>(p, roster[op.container], d) &&
            |Below<Item>(p, d)| + |Below<Item>(p, roster[op.item])| > d.depotLimit + |Below<Item>(p, list[op.place])|
  {
    hide Under, Below;
  }

  lemma ReplaceStep(s: State, op: Op, roster: seq<Item>, d: Item)
    requires Within(s.w, d) && op.ReplaceOp? && op.item < s.made <= |roster| && op.container < s.made
    requires roster[op.container].isContainer && roster[op.container] in s.w.f.parent
    requires Loose(s.w, roster[op.item]) && roster[op.item] != d
    requires !Under<Item>(s.w.f.parent, roster[op.container], roster[op.item])
    ensures var w := ReplacedIn(s.w, roster[op.container], op.place, roster[op.item]);
            TopDepot(w, d) && (|Below<Item>(w.f.parent, d)| <= d.depotLimit <==> !Overflows(s, op, roster, d))
  {
    hide Under, Below, ReplacedIn, Overflows, Within, TopDepot, Loose;
    ReplaceAnywhere(s.w, roster[op.container], op.place, roster[op.item], d);
    ReplaceOverflows(s, op, roster, d);
  }

  lemma ReplaceAnywhere(w: World, c: Item, place: nat, item: Item, d: Item)
    requires Within(w, d) && c in w.f.parent && Loose(w, item) && item != d && !Under<Item>(w.f.parent, c, item)
    ensures var (p, v) := (w.f.parent, ReplacedIn(w, c, place, item));
            TopDepot(v, d) &&
            (|Below<Item>(v.f.parent, d)| <= d.depotLimit <==>
             !(place < |Items(w.f, c)| && Under<Item>(p, c, d) &&
               |Below<Item>(p, d)| + |Below<Item>(p, item)| > d.depotLimit + |Below<Item>(p, Items(w.f, c)[place])|))
  {
    hide Under, Below, Sound;
    if place < |Items(w.f, c)| { ReplaceKeeps(w, c, place, item, d); }
  }

  lemma RemoveKeeps(w: World, c: Item, item: Item, d: Item)
    requires Within(w, d) && item in Items(w.f, c)
    ensures item != d && TopDepot(TakenOut(w, c, item), d) && |Below<Item>(TakenOut(w, c, item).f.parent, d)| <= d.depotLimit
    ensures forall i: Info :: i.placed == InfoOf(w, item).placed ==>
                                TopDepot(Changed(w, item, i), d) && Changed(w, item, i).f.parent == w.f.parent
  {
    hide Under, Below;
    Nested(w, c, item);
    assert w.f.parent[item] == Some(c);
    DetachCount(w.f.parent, item, d);
  }

  // ----- Room in the containers --------------------------------------------------------------------------

  /** The container holds no more items than it has places. */
  ghost predicate Roomy(w: World, c: Item) {
    c in w.f.parent && |Items(w.f, c)| <= c.maxSize
  }

  /** The call puts an item without limits into a container that is full. */
  ghost predicate Overfills(s: State, op: Op, roster: seq<Item>, c: Item) {
    op.MoveOp? && op.item < s.made <= |roster| && op.target < s.made && roster[op.target] == c && c.isContainer &&
    var (w, item) := (s.w, roster[op.item]);
    var q := RequestFor(w, c, op.index, item, op.count, op.noLimit);
    && q.noLimit && Removable(w, item, q) && Accepted(w, c, item, q) && (q.part ==> s.made < |roster|)
    && |Items(w.f, c)| >= c.maxSize + if !q.part && item in Items(w.f, c) then 1 else 0
  }

  /** Whatever is asked, moves nothing into a full container, at any index: there is room for none. */
  lemma FullRefuses(s: State, target: Item, index: int, item: Item, count: nat, roster: seq<Item>)
    requires !Homeless(s.w, item) && |Items(s.w.f, target)| >= target.maxSize
    ensures Moved(s, target, index, item, count, false, roster) == s
  {
    hide Answer, Hung, Loosened, Parted;
  }

  lemma HungOwn(w: World, c: Item, x: Item)
    ensures Items(Hung(w, c, x).f, c) == [x] + Items(w.f, c)
  {
    hide Weight;
  }

  lemma TakenItems(w: World, c: Item, item: Item, y: Item)
    requires item in Items(w.f, c)
    ensures |Items(TakenOut(w, c, item).f, y)| == |Items(w.f, y)| - if y == c then 1 else 0
  {
    hide Weight;
  }

  lemma ChangedItems(w: World, item: Item, i: Info, y: Item)
    ensures Items(Changed(w, item, i).f, y) == Items(w.f, y)
  {
    hide Weighs;
  }

  lemma PartedItems(w: World, item: Item, count: nat, x: Item, y: Item)
    requires y != x
    ensures Items(Parted(w, item, count, x).f, y) == Items(w.f, y)
  {
    hide Weighs, Changed;
    var i := InfoOf(w, item);
    ChangedItems(w, item, i.(count := if i.count < count then 0 else i.count - count), y);
  }

  lemma ReplacedItems(w: World, c: Item, place: nat, item: Item, y: Item)
    ensures |Items(ReplacedIn(w, c, place, item).f, y)| == |Items(w.f, y)|
  {
    hide Weight;
  }

  /** A call keeps a container within its places if and only if it does not overfill it. */
  lemma StepKeepsRoom(s: State, op: Op, roster: seq<Item>, c: Item)
    requires Sound(s.w) && Roomy(s.w, c) && s.made <= |roster|
    requires forall k :: 0 <= k < s.made ==> roster[k] in s.w.f.parent
    requires s.made < |roster| ==> roster[s.made] !in s.w.f.parent
    ensures |Items(Stepped(s, op, roster).w.f, c)| <= c.maxSize <==> !Overfills(s, op, roster, c)
  {
    hide Under, Sound, Moved, Changed, TakenOut, ReplacedIn, RequestFor, Removable, Accepted;
    if op.item < s.made {
      var (w, item) := (s.w, roster[op.item]);
      match op {
        case MoveOp(t, _, _, _, _) =>
          if t < s.made && roster[t].isContainer { MoveKeepsRoom(s, op, roster, c); }
        case RemoveOp(d, _, count) =>
          if d < s.made && item in Items(w.f, roster[d]) {
            TakenItems(w, roster[d], item, c);
            var i := InfoOf(w, item);
            ChangedItems(w, item, i.(count := if i.count < count then 0 else i.count - count), c);
          }
        case UpdateOp(d, _, unitWeight, stackable, count) =>
          ChangedItems(w, item, InfoOf(w, item).(unitWeight := unitWeight, stackable := stackable, count := count), c);
        case ReplaceOp(d, place, _) =>
          if d < s.made { ReplacedItems(w, roster[d], place, item, c); }
        case LayOp(_, _) =>
      }
    }
  }

  lemma MoveKeepsRoom(s: State, op: Op, roster: seq<Item>, c: Item)
    requires Sound(s.w) && Roomy(s.w, c)
    requires op.MoveOp? && op.item < s.made <= |roster| && op.target < s.made && roster[op.target].isContainer
    requires roster[op.item] in s.w.f.parent && (s.made < |roster| ==> roster[s.made] !in s.w.f.parent)
    ensures var t := Moved(s, roster[op.target], op.index, roster[op.item], op.count, op.noLimit, roster);
            |Items(t.w.f, c)| <= c.maxSize <==> !Overfills(s, op, roster, c)
  {
    hide Under, Sound, Hung, Loosened, Parted, Answer, RequestFor, Accepted;
    var (w, target, item) := (s.w, roster[op.target], roster[op.item]);
    var q := RequestFor(w, target, op.index, item, op.count, op.noLimit);
    MovedIs(s, target, op.index, item, op.count, op.noLimit, q, roster);
    RoomAsked(w, target, op.index, item, op.count, op.noLimit);
    if Removable(w, item, q) && Accepted(w, target, item, q) {
      if !q.part {
        SoundParents(w, item);
        LoosenedItems(w, item, c);
        HungCount(Loosened(w, item), target, item, c);
        HeldOnce(w, item, c);
      } else if s.made < |roster| {
        PartedItems(w, item, q.units, roster[s.made], c);
        HungCount(Parted(w, item, q.units, roster[s.made]), target, roster[s.made], c);
      }
    }
  }

  /** An asked move finds a free place. */
  lemma RoomAsked(w: World, target: Item, index: int, item: Item, count: nat, noLimit: bool)
    ensures var q := RequestFor(w, target, index, item, count, noLimit);
            Removable(w, item, q) && !q.noLimit ==> |Items(w.f, target)| < target.maxSize
  {
  }

  lemma HungCount(w: World, c: Item, x: Item, y: Item)
    ensures |Items(Hung(w, c, x).f, y)| == |Items(w.f, y)| + if y == c then 1 else 0
  {
    hide Hung;
    HungOwn(w, c, x);
    if y != c { HungItems(w, c, x, y); }
  }

  lemma HeldOnce(w: World, item: Item, c: Item)
    requires Sound(w) && item in w.f.parent
    ensures item in Items(w.f, c) <==> w.f.parent[item] == Some(c)
  {
  }

  lemma LoosenedItems(w: World, item: Item, c: Item)
    requires Sound(w) && item in w.f.parent
    ensures |Items(Loosened(w, item).f, c)| == |Items(w.f, c)| - if w.f.parent[item] == Some(c) then 1 else 0
  {
    hide TakenOut;
    SoundParents(w, item);
    if w.f.parent[item].Some? { TakenItems(w, w.f.parent[item].value, item, c); }
  }

  // ----- Nothing gets lost -------------------------------------------------------------------------------

  ghost function Counts(w: World): map<Item, real> {
    map x | x in w.info :: w.info[x].count as real
  }

  /** The units of all stacks, and one count for any other item, added up. */
  ghost function TotalUnits(w: World): real {
    OwnSum<Item>(Counts(w), w.info.Keys)
  }

  lemma {:induction false} SumAgrees(a: map<Item, real>, b: map<Item, real>, s: set<Item>)
    requires forall x :: x in s ==> x in a && x in b && a[x] == b[x]
    ensures OwnSum<Item>(a, s) == OwnSum<Item>(b, s)
    decreases s
  {
    if s != {} {
      var x :| x in s;
      OwnSumMinus<Item>(a, s, x);
      OwnSumMinus<Item>(b, s, x);
      SumAgrees(a, b, s - {x});
    }
  }

  lemma HungUnits(w: World, c: Item, x: Item)
    requires x in w.info
    ensures TotalUnits(Hung(w, c, x)) == TotalUnits(w)
  {
    hide Added;
    assert Counts(Hung(w, c, x)) == Counts(w);
    assert Hung(w, c, x).info.Keys == w.info.Keys;
  }

  /** The stack and the part split off have as many units as the stack had. */
  lemma PartedUnits(w: World, item: Item, count: nat, x: Item)
    requires item in w.info && x !in w.info && count <= w.info[item].count
    ensures var v := Parted(w, item, count, x);
            && TotalUnits(v) == TotalUnits(w) && x in v.info && v.info[x].count == count
            && v.info[item].count + v.info[x].count == w.info[item].count
  {
    hide Grown, Reweighed, Weighs, OwnSum;
    var v := Parted(w, item, count, x);
    var keys := w.info.Keys;
    assert v.info.Keys == keys + {x} && keys + {x} - {x} == keys;
    OwnSumMinus<Item>(Counts(v), keys + {x}, x);
    OwnSumMinus<Item>(Counts(v), keys, item);
    OwnSumMinus<Item>(Counts(w), keys, item);
    SumAgrees(Counts(v), Counts(w), keys - {item});
  }

  /** The call only brings items from one place to another. */
  ghost predicate Carries(op: Op) {
    op.MoveOp? || op.ReplaceOp? || op.LayOp?
  }

  lemma MovedUnits(s: State, target: Item, index: int, item: Item, count: nat, noLimit: bool, roster: seq<Item>)
    requires item in s.w.info && (s.made < |roster| ==> roster[s.made] !in s.w.info)
    ensures TotalUnits(Moved(s, target, index, item, count, noLimit, roster).w) == TotalUnits(s.w)
  {
    hide TotalUnits, Hung, Parted, Accepted, RequestFor;
    var q := RequestFor(s.w, target, index, item, count, noLimit);
    PartOfStack(s.w, target, index, item, count, noLimit);
    if Removable(s.w, item, q) && Accepted(s.w, target, item, q) {
      if !q.part {
        LoosenedInfo(s.w, item);
        HungUnits(Loosened(s.w, item), target, item);
      } else if s.made < |roster| {
        PartedUnits(s.w, item, q.units, roster[s.made]);
        HungUnits(Parted(s.w, item, q.units, roster[s.made]), target, roster[s.made]);
      }
    }
  }

  lemma LoosenedInfo(w: World, item: Item)
    ensures Loosened(w, item).info == w.info && TotalUnits(Loosened(w, item)) == TotalUnits(w)
  {
    assert Counts(Loosened(w, item)) == Counts(w);
  }

  /** Items that are moved, replaced or laid down keep their units, however the stacks are split. */
  lemma StepUnits(s: State, op: Op, roster: seq<Item>)
    requires Carries(op) && s.made <= |roster| && forall k :: 0 <= k < s.made ==> roster[k] in s.w.info
    requires s.made < |roster| ==> roster[s.made] !in s.w.info
    ensures TotalUnits(Stepped(s, op, roster).w) == TotalUnits(s.w)
  {
    hide Moved, OwnSum, Under;
    if op.item < s.made {
      var (w, item) := (s.w, roster[op.item]);
      match op {
        case MoveOp(t, index, _, count, noLimit) =>
          if t < s.made { MovedUnits(s, roster[t], index, item, count, noLimit, roster); }
        case ReplaceOp(c, place, _) =>
          if c < s.made { ReplacedUnits(w, roster[c], place, item); }
        case LayOp(_, on) =>
          var v := w.(info := w.info[item := InfoOf(w, item).(placed := on)]);
          assert Counts(v) == Counts(w) && v.info.Keys == w.info.Keys;
      }
    }
  }

  lemma ReplacedUnits(w: World, c: Item, place: nat, item: Item)
    requires item in w.info
    ensures TotalUnits(ReplacedIn(w, c, place, item)) == TotalUnits(w)
  {
    hide Replaced, OwnSum;
    var v := ReplacedIn(w, c, place, item);
    assert Counts(v) == Counts(w) && v.info.Keys == w.info.Keys;
  }

  // ----- Any run within bounds ---------------------------------------------------------------------------

  /** The limit of a depot on a tile, or the places of a container. */
  datatype Bound = LimitOf(item: Item) | RoomOf(item: Item)

  ghost predicate Kept(b: Bound, w: World) {
    match b
    case LimitOf(d) => Within(w, d)
    case RoomOf(c) => Sound(w) && Roomy(w, c)
  }

  ghost predicate Breaks(b: Bound, s: State, op: Op, roster: seq<Item>) {
    match b
    case LimitOf(d) => !Spares(s, op, roster, d) || Overflows(s, op, roster, d)
    case RoomOf(c) => Overfills(s, op, roster, c)
  }

  /** None of the calls breaks the bound, each seen in the world it finds. */
  ghost predicate Observes(s: State, ops: seq<Op>, roster: seq<Item>, b: Bound)
    decreases |ops|
  {
    ops != [] ==>
      var (front, last) := (ops[..|ops| - 1], ops[|ops| - 1]);
      Observes(s, front, roster, b) && !Breaks(b, Folded(s, front, roster), last, roster)
  }

  lemma {:induction false} ObservesShorter(s: State, ops: seq<Op>, a: seq<Item>, z: seq<Item>, b: Bound)
    requires a <= z && Folded(s, ops, a).made <= |a| && Observes(s, ops, z, b)
    ensures Observes(s, ops, a, b)
    decreases |ops|
  {
    hide Stepped, Breaks;
    if ops != [] {
      var (front, last) := (ops[..|ops| - 1], ops[|ops| - 1]);
      SameFold(s, front, a, z);
      ObservesShorter(s, front, a, z, b);
      SameBreaks(Folded(s, front, a), last, a, z, b);
    }
  }

  lemma SameBreaks(s: State, op: Op, a: seq<Item>, z: seq<Item>, b: Bound)
    requires a <= z && s.made <= |a| && Stepped(s, op, a).made <= |a|
    ensures Breaks(b, s, op, a) <==> Breaks(b, s, op, z)
  {
    hide Spares, Overflows, Overfills, Stepped;
    match b
    case LimitOf(d) => SameLimits(s, op, a, z, d);
    case RoomOf(c) => SameRoom(s, op, a, z, c);
  }

  lemma SameRoom(s: State, op: Op, a: seq<Item>, b: seq<Item>, c: Item)
    requires a <= b && s.made <= |a| && Stepped(s, op, a).made <= |a|
    ensures Overfills(s, op, a, c) <==> Overfills(s, op, b, c)
  {
    hide Under, RequestFor, Removable, Accepted, Hung, Parted, Loosened, RemovedFrom, UpdatedIn, ReplacedIn;
  }

  lemma SameLimits(s: State, op: Op, a: seq<Item>, b: seq<Item>, d: Item)
    requires a <= b && s.made <= |a| && Stepped(s, op, a).made <= |a|
    ensures Spares(s, op, a, d) <==> Spares(s, op, b, d)
    ensures Overflows(s, op, a, d) <==> Overflows(s, op, b, d)
  {
    hide Under, Below, Leaving, RequestFor, Removable, Accepted, Hung, Parted, Loosened, RemovedFrom, UpdatedIn, ReplacedIn;
  }

  /** The items made later are others. */
  ghost predicate Apart(items: seq<Item>, after: seq<Item>) {
    forall k :: |items| <= k < |after| ==> after[k] !in items
  }

  /** One more call, seen from the bound. */
  lemma StillKept(s: State, op: Op, before: seq<Item>, after: seq<Item>, b: Bound)
    requires before <= after && |after| <= |before| + 1 && Apart(before, after)
    requires s.made == |before| && s.w.f.parent.Keys == Roster(before)
    requires Kept(b, s.w) && !Breaks(b, s, op, after) && b.item in before
    requires Consistent(Roster(after)) && StateOf(after) == Stepped(s, op, after)
    ensures Kept(b, WorldOf(Roster(after)))
  {
    hide Consistent, WorldOf, Stepped, Spares, Overflows, Overfills, TopDepot, Below, Items;
    ConsistentSound(Roster(after));
    match b {
      case LimitOf(d) => StepKeeps(s, op, after, d);
      case RoomOf(c) =>
        StepKeepsRoom(s, op, after, c);
        RosterKeys(after);
        assert c in after;
    }
  }

  lemma SameUnits(s: State, op: Op, before: seq<Item>, after: seq<Item>)
    requires before <= after && |after| <= |before| + 1 && Apart(before, after) && Carries(op)
    requires s.made == |before| && s.w.info.Keys == Roster(before) && StateOf(after) == Stepped(s, op, after)
    ensures TotalUnits(WorldOf(Roster(after))) == TotalUnits(s.w)
  {
    hide Stepped, TotalUnits, WorldOf;
    StepUnits(s, op, after);
  }

  lemma LastObserved(s: State, ops: seq<Op>, op: Op, roster: seq<Item>, b: Bound)
    ensures Observes(s, ops + [op], roster, b) <==>
            Observes(s, ops, roster, b) && !Breaks(b, Folded(s, ops, roster), op, roster)
  {
    hide Folded, Breaks;
    assert (ops + [op])[..|ops|] == ops;
  }

  /** Whatever is called, in any order: the world is what the calls make of it one after the other, the
      nesting has no loop, and every cached weight is the weight of the contents. Calls of which none
      breaks a bound, the limit of a depot on a tile or the places of a container, keep it. */
  method Run(ops: seq<Op>, items: seq<Item>) returns (after: seq<Item>)
    requires Consistent(Roster(items))
    modifies Roster(items)
    ensures items <= after && fresh(Roster(after[|items|..])) && Consistent(Roster(after))
    ensures StateOf(after) == Folded(old(StateOf(items)), ops, after)
    ensures forall b: Bound :: b.item in items && old(Kept(b, WorldOf(Roster(items)))) && Observes(old(StateOf(items)), ops, after, b) ==>
                                 Kept(b, WorldOf(Roster(after)))
    ensures (forall op :: op in ops ==> Carries(op)) ==>
              TotalUnits(WorldOf(Roster(after))) == old(TotalUnits(WorldOf(Roster(items))))
    ensures forall c :: c in after ==>
                          c.totalWeight == OwnSum<Item>(OwnWeights(Roster(after)), Below<Item>(Snap(Roster(after)).parent, c))
  {
    hide Consistent, Snap, StateOf, Roster, OwnSum, Below, OwnWeights, Stepped, Folded, Apart, Observes, Breaks, Kept, TotalUnits;
    ghost var s0 := StateOf(items);
    after := items;
    NothingFolded(StateOf(items), items);
    for i := 0 to |ops|
      invariant items <= after && fresh(Roster(after[|items|..])) && Consistent(Roster(after))
      invariant StateOf(after) == Folded(old(StateOf(items)), ops[..i], after)
      invariant forall b: Bound :: b.item in items && old(Kept(b, WorldOf(Roster(items)))) && Observes(s0, ops[..i], after, b) ==>
                                     Kept(b, WorldOf(Roster(after)))
      invariant (forall op :: op in ops[..i] ==> Carries(op)) ==>
                  TotalUnits(WorldOf(Roster(after))) == old(TotalUnits(WorldOf(Roster(items))))
    {
      var before := after;
      ghost var s := StateOf(before);
      RosterKeys(before);
      RosterSplit(items, items, before);
      after := Step(ops[i], before);
      RosterSplit(items, before, after);
      assert ops[..i + 1] == ops[..i] + [ops[i]];
      SameFold(old(StateOf(items)), ops[..i], before, after);
      FoldMore(old(StateOf(items)), ops[..i], ops[i], after);
      if Carries(ops[i]) { SameUnits(s, ops[i], before, after); }
      forall b: Bound | b.item in items && old(Kept(b, WorldOf(Roster(items)))) && Observes(s0, ops[..i + 1], after, b)
        ensures Kept(b, WorldOf(Roster(after)))
      {
        LastObserved(s0, ops[..i], ops[i], after, b);
        ObservesShorter(s0, ops[..i], before, after, b);
        StillKept(s, ops[i], before, after, b);
      }
    }
    assert ops[..|ops|] == ops;
    forall c | c in after
      ensures c.totalWeight == OwnSum<Item>(OwnWeights(Roster(after)), Below<Item>(Snap(Roster(after)).parent, c))
    {
      InRoster(after, c);
      CachedWeightIsContents(Roster(after), c);
    }
  }

  lemma RosterSplit(items: seq<Item>, before: seq<Item>, after: seq<Item>)
    requires items <= before <= after
    ensures Roster(after[|items|..]) == Roster(before[|items|..]) + Roster(after[|before|..])
    ensures Roster(after) == Roster(items) + Roster(after[|items|..])
  {
    assert after[|items|..] == before[|items|..] + after[|before|..];
    assert after == items + after[|items|..];
  }

  lemma NothingFolded(s: State, items: seq<Item>)
    ensures Folded(s, [], items) == s && Roster(items[|items|..]) == {}
  {
  }

  lemma FoldMore(s: State, ops: seq<Op>, op: Op, roster: seq<Item>)
    ensures Folded(s, ops + [op], roster) == Stepped(Folded(s, ops, roster), op, roster)
  {
    assert (ops + [op])[..|ops|] == ops;
  }

  lemma RosterKeys(items: seq<Item>)
    ensures StateOf(items).w.f.parent.Keys == Roster(items) && StateOf(items).w.info.Keys == Roster(items)
    ensures StateOf(items).made == |items| && StateOf(items).w == WorldOf(Roster(items))
  {
    SnapKeys(Roster(items));
  }

  // ----- A depot on a tile and one that is not placed -----------------------------------------------------

  /** The third item loose, the second in the first; then the third in the second. */
  lemma TwoInside(q: map<Item, Option<Item>>, d: Item, bag: Item, x: Item)
    requires q == map[d := None, bag := Some(d), x := None] && d != bag && bag != x && x != d
    ensures !Under<Item>(q, bag, x) && Under<Item>(q, bag, d) && !Under<Item>(q, x, d)
    ensures forall k :: Under<Item>(q, bag, k) ==> k == bag || k == d
    ensures |Below<Item>(q, d)| == 1 && Below<Item>(q, x) == {} && |Below<Item>(q[x := Some(bag)], d)| == 2
  {
    hide Under, Acyclic;
    forall k ensures Under<Item>(q, d, k) <==> d == k { UnderStep<Item>(q, d, k); }
    forall k ensures Under<Item>(q, x, k) <==> x == k { UnderStep<Item>(q, x, k); }
    forall k ensures Under<Item>(q, bag, k) <==> k == bag || k == d { UnderStep<Item>(q, bag, k); }
    assert Below<Item>(q, d) == {bag} && Below<Item>(q, x) == {};
    hide Below;
    GroundedAcyclic<Item>(q, map[d := 0, bag := 1, x := 0]);
    AttachCount(q, bag, x, d);
  }

  lemma NoItems()
    ensures Consistent({})
  {
    GroundedAcyclic<Item>(map[], map[]);
    assert Snap({}).parent == map[];
  }

  lemma ThreeItems(d: Item, bag: Item, x: Item)
    requires d.parent == bag.parent == x.parent == null && d != bag && bag != x && x != d
    requires d.itemlist == bag.itemlist == x.itemlist == [] && d.totalWeight == bag.totalWeight == x.totalWeight == 0.0
    ensures var (all, w) := ({d, bag, x}, WorldOf({d, bag, x}));
            && Consistent(all) && w.f.parent == map[d := None, bag := None, x := None] && Items(w.f, bag) == []
            && !Under<Item>(w.f.parent, d, bag)
  {
    var all := {d, bag, x};
    NoItems();
    assert {} + {d} == {d} && {d} + {bag} + {x} == all;
    NewItem({}, d);
    NewItem({d}, bag);
    NewItem({d} + {bag}, x);
    SnapAt(all, bag);
    assert Parents(all) == map[d := None, bag := None, x := None];
    UnderStep<Item>(Parents(all), d, bag);
  }

  lemma BagIn(w: World, d: Item, bag: Item, x: Item)
    requires w.f.parent == map[d := None, bag := None, x := None] && Items(w.f, bag) == [] && d != bag && bag != x && x != d
    ensures var v := Hung(w, d, bag);
            && v.f.parent == map[d := None, bag := Some(d), x := None]
            && Items(v.f, bag) == [] && InfoOf(v, d) == InfoOf(w, d)
  {
    hide Hung;
    Nested(w, d, bag);
    HungItems(w, d, bag, bag);
    HungPlaced(w, d, bag);
  }

  /** A depot for one item with a bag in it, and a loose item. */
  method BagInDepot(placed: bool) returns (d: Item, bag: Item, x: Item, ghost all: set<Item>)
    ensures Consistent(all) && all == {d, bag, x} && d != bag && bag != x && x != d && fresh(all)
    ensures d.isDepot && d.isContainer && d.depotLimit == 1 && !bag.isDepot && bag.isContainer && bag.maxSize > 0 && x.pickupable
    ensures var w := WorldOf(all);
            && w.f.parent == map[d := None, bag := Some(d), x := None] && Items(w.f, bag) == [] && InfoOf(w, d).placed == placed
  {
    hide Consistent, Snap, Infos, WorldOf, Under, Hung, Items;
    d := new Item(true, true, 10, 1, true, 1.0, false, 1);
    bag := new Item(true, false, 10, 0, true, 1.0, false, 1);
    x := new Item(false, false, 0, 0, true, 1.0, false, 1);
    all := {d, bag, x};
    ThreeItems(d, bag, x);
    Lay(d, placed, all);
    InfoAt(all, d);
    SnapAt(all, bag);
    BagIn(WorldOf(all), d, bag, x);
    Add(d, INDEX_WHEREEVER, bag, all);
  }

  lemma BagAnswers(w: World, d: Item, bag: Item, x: Item)
    requires d.isDepot && d.isContainer && d.depotLimit == 1 && !bag.isDepot && bag.isContainer && bag.maxSize > 0 && x.pickupable
    requires w.f.parent == map[d := None, bag := Some(d), x := None] && d != bag && bag != x && x != d
    requires Sound(w) && Items(w.f, bag) == []
    ensures Answer(w, bag, INDEX_WHEREEVER, x, 1, false) == if InfoOf(w, d).placed then DEPOTISFULL else NOERROR
  {
    hide Sound, Under, Answer, Below, Items;
    TwoInside(w.f.parent, d, bag, x);
    LimitThroughNesting(w, d, bag, INDEX_WHEREEVER, x, 1);
  }

  /** On a tile the full depot refuses an item for the bag inside it; standing nowhere it is not asked,
      and with the item it holds two. */
  method FullDepot(placed: bool) returns (d: Item, r: ReturnValue, ghost all: set<Item>)
    ensures Consistent(all) && d in all && d.isDepot && d.parent == null && d.placed == placed && d.depotLimit == 1
    ensures if placed then r == DEPOTISFULL && |Below<Item>(Snap(all).parent, d)| == 1
            else r == NOERROR && |Below<Item>(Snap(all).parent, d)| == 2
  {
    hide Consistent, Snap, Infos, WorldOf, Under, Below, Hung, Answer, Sound, Items;
    var bag, x;
    d, bag, x, all := BagInDepot(placed);
    ghost var w := WorldOf(all);
    ConsistentSound(all);
    ForestOf(all);
    TwoInside(w.f.parent, d, bag, x);
    BagAnswers(w, d, bag, x);
    InfoAt(all, d);
    SnapAt(all, d);
    SnapAt(all, x);
    r := QueryAdd(bag, INDEX_WHEREEVER, x, 1, false, false, all);
    if r == NOERROR { LastIn(bag, x, d, all); }
  }

  method LastIn(bag: Item, x: Item, d: Item, ghost all: set<Item>)
    requires Consistent(all) && bag in all && x in all && d in all && bag.isContainer && bag.maxSize > 0
    requires x.parent == null && x != d && !Under<Item>(Snap(all).parent, bag, x)
    modifies all
    ensures Consistent(all) && Snap(all).parent == old(Snap(all).parent)[x := Some(bag)]
    ensures d.parent == old(d.parent) && d.placed == old(d.placed)
  {
    hide Consistent, Snap, Infos, Under, Hung;
    ghost var w := WorldOf(all);
    Nested(w, bag, x);
    HungPlaced(w, bag, x);
    SnapAt(all, d);
    InfoAt(all, d);
    Add(bag, INDEX_WHEREEVER, x, all);
    SnapAt(all, d);
    InfoAt(all, d);
  }
}
