/** ContainerIterator: a queue of containers and a position in the list of the front one, and the
    two queries that walk with it. */
module ContainerIterators {
  import opened ContainerForest
  import opened ContainerWalk
  import opened Containers

  class ContainerIterator {
    const base: Item
    var over: seq<Item>
    var current: nat             // position in the item list of over[0]
    ghost const all: set<Item>
    ghost const level: map<Item, nat>
    ghost var visited: seq<Item> // what operator* gave before each operator++

    ghost predicate Valid()
      reads this, all
    {
      Consistent(all) && base in all && (forall c :: c in over ==> c in all) &&
      Going(Snap(all), base, visited, over, current, level)
    }

    /** begin(): an empty container gives the iterator that end() gives. */
    constructor (base: Item, ghost all: set<Item>)
      requires Consistent(all) && base in all
      ensures Valid() && this.base == base && this.all == all && visited == [] && Levels(Snap(all), level)
    {
      hide Linked, Weighed, Going, Snap, Levels;
      ghost var depths := Depths0(all);
      SnapAt(all, base);
      GoingStart(Snap(all), base, depths);
      this.base := base;
      this.all, this.level, this.visited := all, depths, [];
      current := 0;
      over := if base.itemlist == [] then [] else [base];
      new;
      assert over == Queued(Snap(all), [], base);
    }

    /** operator!= against end() answers false. */
    predicate AtEnd()
      reads this
    {
      over == []
    }

    /** operator* */
    method Current() returns (item: Item)
      requires Valid() && !AtEnd()
      ensures current < |Items(Snap(all), over[0])| && item == Items(Snap(all), over[0])[current]
      ensures item in all && item in Below(Snap(all).parent, base)
    {
      hide Linked, Weighed, Going, Snap;
      AheadFirst(Snap(all), base, visited, over, current, level);
      assert over[0] in over;
      SnapAt(all, over[0]);
      SnapKeys(all);
      item := over[0].itemlist[current];
    }

    /** operator++: queue the item if it is a container with contents, step on, and at the end of
        a list go on with the next queued container. */
    method Advance()
      requires Valid() && !AtEnd()
      modifies this
      ensures Valid() && |visited| == |old(visited)| + 1
      ensures old(current) < |Items(Snap(all), old(over[0]))|
      ensures visited == old(visited) + [Items(Snap(all), old(over[0]))[old(current)]]
    {
      hide Consistent, Going, Snap, Items, Below;
      GoingStep(Snap(all), base, visited, over, current, level);
      var item := Current();
      QueuedItem(all, over, item);
      FrontList(all, over);
      if item.isContainer && item.itemlist != [] {
        over := over + [item];
      }
      current := current + 1;
      visited := visited + [item];
      if current == |over[0].itemlist| {
        over := over[1..];
        current := 0;
      }
    }
  }

  /** What is queued is the item, if it is a container that holds something. */
  lemma QueuedItem(all: set<Item>, over: seq<Item>, item: Item)
    requires Consistent(all) && item in all
    ensures Queued(Snap(all), over, item) == if item.isContainer && item.itemlist != [] then over + [item] else over
  {
    SnapAt(all, item);
    PlainHoldsNothing(all, item);
  }

  lemma FrontList(all: set<Item>, over: seq<Item>)
    requires over != [] && over[0] in all
    ensures Items(Snap(all), over[0]) == over[0].itemlist
  {
    SnapAt(all, over[0]);
  }

  lemma Depths0(all: set<Item>) returns (level: map<Item, nat>)
    requires Consistent(all)
    ensures Levels(Snap(all), level)
  {
    level := FindLevels(Snap(all));
  }

  lemma PlainHoldsNothing(all: set<Item>, x: Item)
    requires Consistent(all) && x in all
    ensures !x.isContainer ==> x.itemlist == []
  {
  }

  /** A walk under way gives only items inside its container, and never more of them than there are. */
  lemma UnderWay(it: ContainerIterator)
    requires it.Valid()
    ensures |it.visited| <= |Below(Snap(it.all).parent, it.base)|
    ensures !it.AtEnd() ==> |it.visited| < |Below(Snap(it.all).parent, it.base)|
  {
    hide Linked, Weighed, Going, Snap, Below;
    GoingBound(Snap(it.all), it.base, it.visited, it.over, it.current, it.level);
  }

  /** A finished walk has given each of them once, outer ones first. */
  lemma AllVisited(it: ContainerIterator)
    requires it.Valid() && it.AtEnd()
    ensures Distinct(it.visited) && |it.visited| == |Below(Snap(it.all).parent, it.base)|
    ensures forall x :: x in it.visited <==> x in Below(Snap(it.all).parent, it.base)
    ensures it.visited == Found(Snap(it.all), it.base, it.visited)
    ensures forall i, j :: 0 <= i <= j < |it.visited| ==> Level(it.level, it.visited[i]) <= Level(it.level, it.visited[j])
  {
    hide Linked, Weighed, Going, Snap, Below;
    GoingEnd(Snap(it.all), it.base, it.visited, it.current, it.level);
  }

  // ----- Queries that walk ------------------------------------------------------------------------

  /** getItemHoldingCount: the number of items inside c at any depth. */
  method GetItemHoldingCount(c: Item, ghost all: set<Item>) returns (counter: nat)
    requires Consistent(all) && c in all
    ensures counter == |Below(Snap(all).parent, c)|
  {
    hide Consistent, ContainerIterator.Valid, Snap, Below;
    counter := 0;
    var it := new ContainerIterator(c, all);
    while !it.AtEnd()
      invariant fresh(it) && it.Valid() && it.base == c && it.all == all && counter == |it.visited|
      decreases |Below(Snap(all).parent, c)| - counter
    {
      UnderWay(it);
      counter := counter + 1;
      it.Advance();
      UnderWay(it);
    }
    AllVisited(it);
  }

  /** isHoldingItem: whether item lies inside c at any depth. */
  method IsHoldingItem(c: Item, item: Item, ghost all: set<Item>) returns (found: bool)
    requires Consistent(all) && c in all
    ensures found <==> item in Below(Snap(all).parent, c)
  {
    hide Consistent, ContainerIterator.Valid, Snap, Below;
    var it := new ContainerIterator(c, all);
    while !it.AtEnd()
      invariant fresh(it) && it.Valid() && it.base == c && it.all == all && item !in it.visited
      decreases |Below(Snap(all).parent, c)| - |it.visited|
    {
      UnderWay(it);
      var here := it.Current();
      if here == item { return true; }
      it.Advance();
      UnderWay(it);
    }
    AllVisited(it);
    return false;
  }

  /** The items in the order the iterator gives them: breadth first, nothing twice, nothing left
      out, and each found through a container visited before it. */
  method Enumerate(c: Item, ghost all: set<Item>) returns (items: seq<Item>, ghost level: map<Item, nat>)
    requires Consistent(all) && c in all
    ensures Distinct(items) && forall x :: x in items <==> x in Below(Snap(all).parent, c)
    ensures items == Found(Snap(all), c, items)
    ensures Levels(Snap(all), level) && forall i, j :: 0 <= i <= j < |items| ==> Level(level, items[i]) <= Level(level, items[j])
  {
    hide Consistent, ContainerIterator.Valid, Snap, Below, Found, Levels, Distinct;
    items := [];
    var it := new ContainerIterator(c, all);
    level := it.level;
    while !it.AtEnd()
      invariant fresh(it) && it.Valid() && it.base == c && it.all == all && it.level == level && items == it.visited
      decreases |Below(Snap(all).parent, c)| - |it.visited|
    {
      UnderWay(it);
      var here := it.Current();
      items := items + [here];
      it.Advance();
      UnderWay(it);
    }
    AllVisited(it);
  }
}
