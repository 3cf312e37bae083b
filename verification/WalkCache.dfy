/** A creature's walk cache: a window of walkability bits around the creature that is shifted in
    place on every step instead of being recomputed. */
module WalkCache {

  const MAX_VIEWPORT_X: nat := 16
  const MAX_VIEWPORT_Y: nat := 16
  const WIDTH: nat := MAX_VIEWPORT_X * 2 + 1
  const HEIGHT: nat := MAX_VIEWPORT_Y * 2 + 1

  datatype Position = Position(x: int, y: int, z: int)

  /** What getTile and __queryAdd say about a square: no tile, or whether this creature may enter. */
  datatype Square = NoTile | Tile(enterable: bool)

  type World = Position -> Square

  predicate CanWalk(world: World, p: Position) {
    world(p) == Tile(true)
  }

  predicate InWindow(dx: int, dy: int) {
    -(MAX_VIEWPORT_X as int) <= dx <= MAX_VIEWPORT_X && -(MAX_VIEWPORT_Y as int) <= dy <= MAX_VIEWPORT_Y
  }

  function Offset(p: Position, dx: int, dy: int): Position {
    Position(p.x + dx, p.y + dy, p.z)
  }

  /** Position::areInRange<1,1,0>: what makes moveCreature report a step and not a teleport. */
  predicate OneStep(a: Position, b: Position) {
    -1 <= a.x - b.x <= 1 && -1 <= a.y - b.y <= 1 && a.z == b.z
  }

  /** What the cache looks at in a type of items. */
  datatype ItemType = ItemType(blockSolid: bool, blockPathFind: bool, ground: bool)

  predicate Blocks(t: ItemType) {
    t.blockSolid || t.blockPathFind
  }

  /** The two worlds differ on the given squares only. */
  ghost predicate DifferOn(before: World, after: World, squares: set<Position>) {
    forall p :: p !in squares ==> before(p) == after(p)
  }

  class Creature {
    var position: Position
    var isMapLoaded: bool
    const useCacheMap: bool
    const localMapCache: array2<bool>  // [row, column]

    ghost predicate Valid()
    {
      localMapCache.Length0 == HEIGHT && localMapCache.Length1 == WIDTH
    }

    /** The bit for the square at offset (dx, dy). */
    ghost function Bit(dx: int, dy: int): bool
      requires Valid() && InWindow(dx, dy)
      reads localMapCache
    {
      localMapCache[MAX_VIEWPORT_Y + dy, MAX_VIEWPORT_X + dx]
    }

    /** Every visible square other than the creature's own has the right bit, seen from center. */
    ghost predicate Agrees(world: World, center: Position)
      requires Valid()
      reads localMapCache
    {
      forall dx, dy :: InWindow(dx, dy) && (dx, dy) != (0, 0) ==>
                         Bit(dx, dy) == CanWalk(world, Offset(center, dx, dy))
    }

    constructor (start: Position, useCacheMap: bool)
      ensures Valid() && fresh(localMapCache) && position == start && !isMapLoaded && this.useCacheMap == useCacheMap
      ensures forall dx, dy :: InWindow(dx, dy) ==> !Bit(dx, dy)
    {
      position := start;
      isMapLoaded := false;
      this.useCacheMap := useCacheMap;
      localMapCache := new bool[HEIGHT, WIDTH]((_, _) => false);
    }

    // ----- Refreshing squares -----------------------------------------------------------------

    /** updateTileCache(tile, dx, dy): offsets outside the window are ignored. */
    method UpdateTileCache(tile: Square, dx: int, dy: int)
      requires Valid()
      modifies localMapCache
      ensures forall i, j :: InWindow(i, j) ==>
                               Bit(i, j) == if (i, j) == (dx, dy) then tile == Tile(true) else old(Bit(i, j))
    {
      if InWindow(dx, dy) {
        localMapCache[MAX_VIEWPORT_Y + dy, MAX_VIEWPORT_X + dx] := tile == Tile(true);
      }
    }

    /** updateTileCache(tile, pos): only squares of the creature's own floor. */
    method UpdateSquare(world: World, p: Position)
      requires Valid()
      modifies localMapCache
      ensures forall i, j :: InWindow(i, j) ==>
                               Bit(i, j) == if Offset(position, i, j) == p then CanWalk(world, p) else old(Bit(i, j))
    {
      if p.z == position.z {
        UpdateTileCache(world(p), p.x - position.x, p.y - position.y);
      }
    }

    /** Recomputes the window, but leaves the bits of squares without a tile alone. */
    method UpdateMapCache(world: World)
      requires Valid()
      modifies localMapCache
      ensures forall i, j :: InWindow(i, j) ==>
                               Bit(i, j) == if world(Offset(position, i, j)) == NoTile then old(Bit(i, j))
                                            else CanWalk(world, Offset(position, i, j))
    {
      var y := -(MAX_VIEWPORT_Y as int);
      while y <= MAX_VIEWPORT_Y
        invariant -(MAX_VIEWPORT_Y as int) <= y <= MAX_VIEWPORT_Y + 1
        invariant forall i, j :: InWindow(i, j) ==>
                                   Bit(i, j) == if j >= y || world(Offset(position, i, j)) == NoTile then old(Bit(i, j))
                                                else CanWalk(world, Offset(position, i, j))
      {
        var x := -(MAX_VIEWPORT_X as int);
        while x <= MAX_VIEWPORT_X
          invariant -(MAX_VIEWPORT_X as int) <= x <= MAX_VIEWPORT_X + 1
          invariant forall i, j :: InWindow(i, j) ==>
                                     Bit(i, j) == if j > y || (j == y && i >= x) || world(Offset(position, i, j)) == NoTile
                                                  then old(Bit(i, j)) else CanWalk(world, Offset(position, i, j))
        {
          var p := Offset(position, x, y);
          if world(p) != NoTile {
            UpdateSquare(world, p);
          }
          x := x + 1;
        }
        y := y + 1;
      }
    }

    /** Recomputes one row of the window. */
    method RefreshRow(world: World, dy: int)
      requires Valid() && InWindow(0, dy)
      modifies localMapCache
      ensures forall i, j :: InWindow(i, j) ==>
                               Bit(i, j) == if j == dy then CanWalk(world, Offset(position, i, j)) else old(Bit(i, j))
    {
      var x := -(MAX_VIEWPORT_X as int);
      while x <= MAX_VIEWPORT_X
        invariant -(MAX_VIEWPORT_X as int) <= x <= MAX_VIEWPORT_X + 1
        invariant forall i, j :: InWindow(i, j) ==>
                                   Bit(i, j) == if j == dy && i < x then CanWalk(world, Offset(position, i, j))
                                                else old(Bit(i, j))
      {
        UpdateTileCache(world(Offset(position, x, dy)), x, dy);
        x := x + 1;
      }
    }

    /** Recomputes one column of the window. */
    method RefreshColumn(world: World, dx: int)
      requires Valid() && InWindow(dx, 0)
      modifies localMapCache
      ensures forall i, j :: InWindow(i, j) ==>
                               Bit(i, j) == if i == dx then CanWalk(world, Offset(position, i, j)) else old(Bit(i, j))
    {
      var y := -(MAX_VIEWPORT_Y as int);
      while y <= MAX_VIEWPORT_Y
        invariant -(MAX_VIEWPORT_Y as int) <= y <= MAX_VIEWPORT_Y + 1
        invariant forall i, j :: InWindow(i, j) ==>
                                   Bit(i, j) == if i == dx && j < y then CanWalk(world, Offset(position, i, j))
                                                else old(Bit(i, j))
      {
        UpdateTileCache(world(Offset(position, dx, y)), dx, y);
        y := y + 1;
      }
    }

    // ----- Shifting the window ----------------------------------------------------------------

    /** memcpy of one row. */
    method CopyRow(target: int, source: int)
      requires Valid() && 0 <= target < HEIGHT && 0 <= source < HEIGHT
      modifies localMapCache
      ensures forall x :: 0 <= x < WIDTH ==> localMapCache[target, x] == old(localMapCache[source, x])
      ensures forall x, y :: 0 <= x < WIDTH && 0 <= y < HEIGHT && y != target ==>
                               localMapCache[y, x] == old(localMapCache[y, x])
    {
      forall x | 0 <= x < WIDTH {
        localMapCache[target, x] := localMapCache[source, x];
      }
    }

    /** Row y + 1 takes over row y, from the bottom up. */
    method ShiftSouth()
      requires Valid()
      modifies localMapCache
      ensures forall x, y :: 0 <= x < WIDTH && 0 <= y < HEIGHT ==>
                               localMapCache[y, x] == old(localMapCache[if y == 0 then 0 else y - 1, x])
    {
      var y: int := HEIGHT - 2;
      while y >= 0
        invariant -1 <= y <= HEIGHT - 2
        invariant forall i, j :: 0 <= i < WIDTH && y + 1 < j < HEIGHT ==> localMapCache[j, i] == old(localMapCache[j - 1, i])
        invariant forall i, j :: 0 <= i < WIDTH && 0 <= j <= y + 1 ==> localMapCache[j, i] == old(localMapCache[j, i])
        modifies localMapCache
      {
        CopyRow(y + 1, y);
        y := y - 1;
      }
    }

    /** Row y takes over row y + 1, from the top down. */
    method ShiftNorth()
      requires Valid()
      modifies localMapCache
      ensures forall x, y :: 0 <= x < WIDTH && 0 <= y < HEIGHT ==>
                               localMapCache[y, x] == old(localMapCache[if y == HEIGHT - 1 then y else y + 1, x])
    {
      var y := 0;
      while y <= HEIGHT - 2
        invariant 0 <= y <= HEIGHT - 1
        invariant forall i, j :: 0 <= i < WIDTH && 0 <= j < y ==> localMapCache[j, i] == old(localMapCache[j + 1, i])
        invariant forall i, j :: 0 <= i < WIDTH && y <= j < HEIGHT ==> localMapCache[j, i] == old(localMapCache[j, i])
        modifies localMapCache
      {
        CopyRow(y, y + 1);
        y := y + 1;
      }
    }

    /** In row y, column x takes over column x + 1. */
    method ShiftRowWest(y: int)
      requires Valid() && 0 <= y < HEIGHT
      modifies localMapCache
      ensures forall i :: 0 <= i < WIDTH ==> localMapCache[y, i] == old(localMapCache[y, if i < WIDTH - 1 then i + 1 else i])
      ensures forall i, j :: 0 <= i < WIDTH && 0 <= j < HEIGHT && j != y ==> localMapCache[j, i] == old(localMapCache[j, i])
    {
      var x := 0;
      while x <= WIDTH - 2
        invariant 0 <= x <= WIDTH - 1
        invariant forall i, j :: 0 <= i < WIDTH && 0 <= j < HEIGHT ==>
                                   localMapCache[j, i] == old(localMapCache[j, if j == y && i < x then i + 1 else i])
        modifies localMapCache
      {
        localMapCache[y, x] := localMapCache[y, x + 1];
        x := x + 1;
      }
    }

    /** The same in the rows from startY to endY. */
    method ShiftWest(startY: int, endY: int)
      requires Valid() && 0 <= startY && endY < HEIGHT
      modifies localMapCache
      ensures forall x, y :: 0 <= x < WIDTH && 0 <= y < HEIGHT ==>
                               localMapCache[y, x] ==
                               old(localMapCache[y, if startY <= y <= endY && x < WIDTH - 1 then x + 1 else x])
    {
      var y := startY;
      while y <= endY
        invariant startY <= y && (y <= endY + 1 || y == startY)
        invariant forall i, j :: 0 <= i < WIDTH && startY <= j < y ==>
                                   localMapCache[j, i] == old(localMapCache[j, if i < WIDTH - 1 then i + 1 else i])
        invariant forall i, j :: 0 <= i < WIDTH && 0 <= j < HEIGHT && !(startY <= j < y) ==>
                                   localMapCache[j, i] == old(localMapCache[j, i])
        modifies localMapCache
      {
        ShiftRowWest(y);
        y := y + 1;
      }
    }

    /** In row y, column x + 1 takes over column x. */
    method ShiftRowEast(y: int)
      requires Valid() && 0 <= y < HEIGHT
      modifies localMapCache
      ensures forall i :: 0 <= i < WIDTH ==> localMapCache[y, i] == old(localMapCache[y, if i > 0 then i - 1 else i])
      ensures forall i, j :: 0 <= i < WIDTH && 0 <= j < HEIGHT && j != y ==> localMapCache[j, i] == old(localMapCache[j, i])
    {
      var x: int := WIDTH - 2;
      while x >= 0
        invariant -1 <= x <= WIDTH - 2
        invariant forall i, j :: 0 <= i < WIDTH && 0 <= j < HEIGHT ==>
                                   localMapCache[j, i] == old(localMapCache[j, if j == y && i > x + 1 then i - 1 else i])
        modifies localMapCache
      {
        localMapCache[y, x + 1] := localMapCache[y, x];
        x := x - 1;
      }
    }

    /** The same in the rows from startY to endY. */
    method ShiftEast(startY: int, endY: int)
      requires Valid() && 0 <= startY && endY < HEIGHT
      modifies localMapCache
      ensures forall x, y :: 0 <= x < WIDTH && 0 <= y < HEIGHT ==>
                               localMapCache[y, x] ==
                               old(localMapCache[y, if startY <= y <= endY && x > 0 then x - 1 else x])
    {
      var y := startY;
      while y <= endY
        invariant startY <= y && (y <= endY + 1 || y == startY)
        invariant forall i, j :: 0 <= i < WIDTH && startY <= j < y ==>
                                   localMapCache[j, i] == old(localMapCache[j, if i > 0 then i - 1 else i])
        invariant forall i, j :: 0 <= i < WIDTH && 0 <= j < HEIGHT && !(startY <= j < y) ==>
                                   localMapCache[j, i] == old(localMapCache[j, i])
        modifies localMapCache
      {
        ShiftRowEast(y);
        y := y + 1;
      }
    }

    // ----- Moves ------------------------------------------------------------------------------

    /** The vertical half of a step: shift the rows, recompute the one that came into sight. */
    method ShiftRows(world: World, oldPos: Position)
      requires Valid() && OneStep(oldPos, position)
      modifies localMapCache
      ensures var sy := position.y - oldPos.y;
              forall i, j :: InWindow(i, j) ==>
                               Bit(i, j) == if InWindow(i, j + sy) then old(Bit(i, j + sy))
                                            else CanWalk(world, Offset(position, i, j))
    {
      if oldPos.y > position.y {
        ShiftSouth();
        RefreshRow(world, -(MAX_VIEWPORT_Y as int));
      } else if oldPos.y < position.y {
        ShiftNorth();
        RefreshRow(world, MAX_VIEWPORT_Y);
      }
    }

    /** The horizontal half: shift the rows that were not just recomputed, then the column. */
    method ShiftColumns(world: World, oldPos: Position)
      requires Valid() && OneStep(oldPos, position)
      modifies localMapCache
      ensures var (sx, sy) := (position.x - oldPos.x, position.y - oldPos.y);
              forall i, j :: InWindow(i, j) ==>
                               Bit(i, j) == if !InWindow(i + sx, j) then CanWalk(world, Offset(position, i, j))
                                            else old(Bit(if InWindow(i, j + sy) then i + sx else i, j))
    {
      var startY, endY, dy := 0, HEIGHT - 1, oldPos.y - position.y;
      if dy < 0 {
        endY := endY + dy;
      } else if dy > 0 {
        startY := startY + dy;
      }
      if oldPos.x < position.x {
        ShiftWest(startY, endY);
        RefreshColumn(world, MAX_VIEWPORT_X);
      } else if oldPos.x > position.x {
        ShiftEast(startY, endY);
        RefreshColumn(world, -(MAX_VIEWPORT_X as int));
      }
    }

    /** Both halves: what was in sight moves over, what came into sight is recomputed. */
    method ShiftWindow(world: World, oldPos: Position)
      requires Valid() && OneStep(oldPos, position)
      modifies localMapCache
      ensures var (sx, sy) := (position.x - oldPos.x, position.y - oldPos.y);
              forall i, j :: InWindow(i, j) ==>
                               Bit(i, j) == if InWindow(i + sx, j + sy) then old(Bit(i + sx, j + sy))
                                            else CanWalk(world, Offset(position, i, j))
    {
      ghost var (sx, sy) := (position.x - oldPos.x, position.y - oldPos.y);
      ShiftRows(world, oldPos);
      label rows:
      ShiftColumns(world, oldPos);
      forall i, j | InWindow(i, j)
        ensures Bit(i, j) == if InWindow(i + sx, j + sy) then old(Bit(i + sx, j + sy))
                             else CanWalk(world, Offset(position, i, j))
      {
        if InWindow(i + sx, j) {
          assert Bit(i, j) == old@rows(Bit(if InWindow(i, j + sy) then i + sx else i, j));
        }
      }
    }

    /** onCreatureMove for the creature itself; its position is already the new one. A step keeps
        the cache right in all eight directions. A teleport keeps it right exactly when no stale
        true bit falls on a square without a tile; a bit of such a square stays as it was. */
    method OnOwnMove(ghost before: World, world: World, oldPos: Position, teleport: bool)
      requires Valid() && DifferOn(before, world, {oldPos, position})
      requires !teleport ==> OneStep(oldPos, position)
      requires isMapLoaded && !teleport ==> Agrees(before, oldPos)
      modifies localMapCache
      ensures isMapLoaded && !teleport ==> Agrees(world, position)
      ensures isMapLoaded && teleport ==>
                (Agrees(world, position) <==>
                 forall i, j :: InWindow(i, j) && (i, j) != (0, 0) && world(Offset(position, i, j)) == NoTile ==>
                                  !old(Bit(i, j)))
      ensures !isMapLoaded ==> forall i, j :: InWindow(i, j) ==> Bit(i, j) == old(Bit(i, j))
      ensures isMapLoaded && teleport ==>
                forall i, j :: InWindow(i, j) && world(Offset(position, i, j)) == NoTile ==> Bit(i, j) == old(Bit(i, j))
    {
      if isMapLoaded {
        if !teleport && oldPos.z == position.z {
          ghost var (sx, sy) := (position.x - oldPos.x, position.y - oldPos.y);
          ShiftWindow(world, oldPos);
          UpdateSquare(world, oldPos);
          forall i, j | InWindow(i, j) && (i, j) != (0, 0)
            ensures Bit(i, j) == CanWalk(world, Offset(position, i, j))
          {
            assert Offset(position, i, j) == Offset(oldPos, i + sx, j + sy);
          }
        } else {
          UpdateMapCache(world);
        }
      }
    }

    /** onCreatureMove for another creature: both of its squares are refreshed if they are on this
        creature's floor. */
    method OnOtherMove(ghost before: World, world: World, oldPos: Position, newPos: Position)
      requires Valid() && DifferOn(before, world, {oldPos, newPos})
      requires isMapLoaded ==> Agrees(before, position)
      modifies localMapCache
      ensures isMapLoaded ==> Agrees(world, position)
    {
      if isMapLoaded {
        if newPos.z == position.z { UpdateSquare(world, newPos); }
        if oldPos.z == position.z { UpdateSquare(world, oldPos); }
      }
    }

    /** onAddTileItem, and the appearing or disappearing of another creature. */
    method OnTileChanged(ghost before: World, world: World, p: Position)
      requires Valid() && DifferOn(before, world, {p})
      requires isMapLoaded ==> Agrees(before, position)
      modifies localMapCache
      ensures isMapLoaded ==> Agrees(world, position)
    {
      if isMapLoaded && p.z == position.z {
        UpdateSquare(world, p);
      }
    }

    /** onUpdateTileItem: acts only when the old or the new item type blocks; an item that does not
        block cannot change whether the square may be entered. */
    method OnTileItemUpdated(ghost before: World, world: World, p: Position, oldType: ItemType, newType: ItemType)
      requires Valid() && DifferOn(before, world, {p})
      requires !Blocks(oldType) && !Blocks(newType) ==> before(p) == world(p)
      requires isMapLoaded ==> Agrees(before, position)
      modifies localMapCache
      ensures isMapLoaded ==> Agrees(world, position)
    {
      if isMapLoaded && (Blocks(oldType) || Blocks(newType)) && p.z == position.z {
        UpdateSquare(world, p);
      }
    }

    /** onRemoveTileItem: acts only when the item blocks or was the ground. */
    method OnTileItemRemoved(ghost before: World, world: World, p: Position, itemType: ItemType)
      requires Valid() && DifferOn(before, world, {p})
      requires !Blocks(itemType) && !itemType.ground ==> before(p) == world(p)
      requires isMapLoaded ==> Agrees(before, position)
      modifies localMapCache
      ensures isMapLoaded ==> Agrees(world, position)
    {
      if isMapLoaded && (Blocks(itemType) || itemType.ground) && p.z == position.z {
        UpdateSquare(world, p);
      }
    }

    /** onCreatureAppear for the creature itself: the first computation of the window. */
    method OnOwnAppear(world: World)
      requires Valid() && !isMapLoaded
      requires forall i, j :: InWindow(i, j) ==> !Bit(i, j)
      modifies `isMapLoaded, localMapCache
      ensures isMapLoaded == useCacheMap && (isMapLoaded ==> Agrees(world, position))
    {
      if useCacheMap {
        isMapLoaded := true;
        UpdateMapCache(world);
      }
    }

    /** The answer path finding uses: 2 unknown, 1 may walk, 0 may not. */
    method GetWalkCache(ghost world: World, p: Position) returns (r: int)
      requires Valid() && (useCacheMap ==> Agrees(world, position))
      ensures !useCacheMap ==> r == 2
      ensures useCacheMap ==>
                r == if p.z != position.z then 0
                     else if p == position then 1
                     else if !InWindow(p.x - position.x, p.y - position.y) then 2
                     else if CanWalk(world, p) then 1 else 0
    {
      if !useCacheMap { return 2; }
      if p.z != position.z { return 0; }
      if p == position { return 1; }
      var dx, dy := p.x - position.x, p.y - position.y;
      if InWindow(dx, dy) {
        assert Offset(position, dx, dy) == p;
        return if localMapCache[MAX_VIEWPORT_Y + dy, MAX_VIEWPORT_X + dx] then 1 else 0;
      }
      return 2;
    }
  }

  // ----- Runs ---------------------------------------------------------------------------------

  /** What can happen to a creature whose window is loaded, each with the world it leads to. */
  datatype Event =
    | Walk(to: Position, after: World)
    | Teleport(to: Position, after: World)
    | OtherMove(source: Position, target: Position, after: World)
    | TileChange(at: Position, after: World)
    | TileItemUpdate(at: Position, oldType: ItemType, newType: ItemType, after: World)
    | TileItemRemoval(at: Position, itemType: ItemType, after: World)

  /** Every visible square has a tile, so that recomputing the window leaves nothing stale. */
  ghost predicate FullyTiled(world: World, center: Position) {
    forall i, j :: InWindow(i, j) && (i, j) != (0, 0) ==> world(Offset(center, i, j)) != NoTile
  }

  ghost predicate Legal(world: World, at: Position, e: Event) {
    match e
    case Walk(to, after) => OneStep(at, to) && DifferOn(world, after, {at, to})
    case Teleport(to, after) => DifferOn(world, after, {at, to}) && FullyTiled(after, to)
    case OtherMove(source, target, after) => DifferOn(world, after, {source, target})
    case TileChange(p, after) => DifferOn(world, after, {p})
    case TileItemUpdate(p, oldType, newType, after) =>
      DifferOn(world, after, {p}) && (!Blocks(oldType) && !Blocks(newType) ==> world(p) == after(p))
    case TileItemRemoval(p, t, after) =>
      DifferOn(world, after, {p}) && (!Blocks(t) && !t.ground ==> world(p) == after(p))
  }

  function Moved(at: Position, e: Event): Position {
    if e.Walk? || e.Teleport? then e.to else at
  }

  /** Every event of a run is legal in the world and at the position it happens. */
  ghost predicate LegalRun(world: World, at: Position, run: seq<Event>)
    decreases |run|
  {
    run != [] ==> Legal(world, at, run[0]) && LegalRun(run[0].after, Moved(at, run[0]), run[1..])
  }

  ghost function FinalWorld(world: World, run: seq<Event>): World
    decreases |run|
  {
    if run == [] then world else FinalWorld(run[0].after, run[1..])
  }

  ghost function FinalPosition(at: Position, run: seq<Event>): Position
    decreases |run|
  {
    if run == [] then at else FinalPosition(Moved(at, run[0]), run[1..])
  }

  /** Over any legal run the shifted window equals a recomputed one. */
  method Live(c: Creature, ghost world: World, run: seq<Event>)
    requires c.Valid() && c.isMapLoaded && c.Agrees(world, c.position) && LegalRun(world, c.position, run)
    modifies c`position, c.localMapCache
    ensures c.position == FinalPosition(old(c.position), run)
    ensures c.Agrees(FinalWorld(world, run), c.position)
  {
    var k := 0;
    ghost var w := world;
    assert run[0..] == run;
    while k < |run|
      invariant k <= |run| && LegalRun(w, c.position, run[k..]) && c.Agrees(w, c.position)
      invariant FinalWorld(w, run[k..]) == FinalWorld(world, run)
      invariant FinalPosition(c.position, run[k..]) == FinalPosition(old(c.position), run)
    {
      assert run[k..][0] == run[k] && run[k..][1..] == run[k + 1..];
      var from := c.position;
      match run[k] {
        case Walk(to, after) =>
          c.position := to;
          c.OnOwnMove(w, after, from, false);
        case Teleport(to, after) =>
          c.position := to;
          c.OnOwnMove(w, after, from, true);
        case OtherMove(source, target, after) => c.OnOtherMove(w, after, source, target);
        case TileChange(p, after) => c.OnTileChanged(w, after, p);
        case TileItemUpdate(p, oldType, newType, after) => c.OnTileItemUpdated(w, after, p, oldType, newType);
        case TileItemRemoval(p, t, after) => c.OnTileItemRemoved(w, after, p, t);
      }
      w := run[k].after;
      k := k + 1;
    }
    assert run[k..] == [];
  }

  /** A map of two halves, with squares to walk on in the west and without any tile in the east. */
  function HalfTiled(p: Position): Square {
    if p.x < 50 then Tile(true) else NoTile
  }

  /** A creature that appears in the west and is teleported to the east still takes the square beside
      it for one to walk on, though there is no tile. */
  method StaleTeleport() returns (c: Creature)
    ensures c.Valid() && c.isMapLoaded && c.position == Position(100, 100, 7)
    ensures c.Bit(1, 0) && HalfTiled(Offset(c.position, 1, 0)) == NoTile && !c.Agrees(HalfTiled, c.position)
  {
    c := new Creature(Position(0, 0, 7), true);
    c.OnOwnAppear(HalfTiled);
    assert CanWalk(HalfTiled, Offset(c.position, 1, 0)) && c.Bit(1, 0);
    var from := c.position;
    c.position := Position(100, 100, 7);
    c.OnOwnMove(HalfTiled, HalfTiled, from, true);
    assert HalfTiled(Offset(c.position, 1, 0)) == NoTile;
  }
}
