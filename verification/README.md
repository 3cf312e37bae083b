# Verified models of an OpenTibia game server

This project models the self-contained algorithms of the server and proves what they are for. Code that
changes things step by step is modelled by classes and methods with loops; each such method is tied to a
mathematical function or predicate, and what the program promises is proved about that. `dafny verify
dfyconfig.toml` checks everything.

- **Binary node files** (`NodeFormat`, `NodeRoundTrip`, `FileLoader`). `NodeFormat.ParseNode` is the
  recursive first-child/next-sibling parser as a function of the bytes, and `Tiles` is an independent
  description of a well-formed file; the parser accepts exactly the tilings. `FileLoader` is the object:
  the three-slot block cache beside plain file reads, the parser that links heap nodes and steps back one
  byte at a double NODE_END, the unescaper that compacts its buffer in place, and the escaping writer.
- **Walk cache** (`WalkCache`). The window of walkability bits is shifted in place on each step. A world is a
  function from positions to squares; walkability itself is not looked into.
- **Containers** (`ContainerForest`, `ContainerOps`, `ContainerWalk`, `Containers`, `ContainerIterators`,
  `Depots`, `DepotRuns`). Items are objects that know their parent; `Snap(all)` is the forest that the objects
  in `all` spell out, and `Consistent(all)` says that it has no loop and that every cached weight is right. Each
  operation is proved to be a function on the forest. `Depots.Answer` is what `__queryAdd` answers in a given
  world, and `DepotRuns.Folded` what any calls make of a world; a move follows Game::internalMoveItem: ask the
  target, remove from the source, add to the target. `placed` says that an item lies in a cylinder that is
  not a container, such as a tile; an item that lies nowhere is handed on to Game::internalAddItem.
- **Conditions**, from three sides. `DamageList` and `DamageConditions` split damage into hits and deal them;
  `ConditionList` is the list of active conditions, what any steps make of it, and what the conditions add to
  speed, skills and stats; a damage condition in it starts, merges and runs as `DamageConditions` says.
  `PropStreams`, `ConditionFormat` and `ConditionStream` save conditions and load them again.
- **Areas of effect** (`CombatAreas`). Matrices of squares, turned, mirrored and flipped about a centre.
- **Connections** (`Connections`). The steps that run under a connection's lock, as functions on its state
  and as methods of the object; what is under way in the dispatcher and the network is counted by ghost
  fields.
- **Houses** and **batched inserts** (`Houses`, `DBInserts`). Rent, warnings and eviction, as functions on a
  house and the purses of its payers and as methods of the objects; rows collected into multi-row statements.
- `Arithmetic` and `Options` hold what several modules share.

Clocks are parameters. Random draws and the results of database and health calls are arbitrary values within
what the program knows of them. The sets called `all` are ghost: they bound the objects a statement is about.

## What the proofs turned up

Each of these holds for the code as it stands, with the exact condition under which the intended property does
hold.

- A node type is escaped by the writer but read raw by the parser. A written tree comes back unchanged exactly
  when it is `Clean`: every type is below 0xFD, or is 0xFD in front of properties that keep the reader in step
  (`NodeRoundTrip.RoundTrip`; `TypeFELost` is a tree that does not come back).
- Not every truncated file is noticed: a file that opens still opens after a cut exactly when the cut lies right
  behind a root node or behind everything that the parser read (`NodeRoundTrip.TruncationAccepted`;
  `NodeRoundTrip.SecondRootLost` is a file cut behind its first root).
- A mirrored area gets its new centre from the number of rows instead of columns, a flipped one the other way
  round. The diagonal areas are right exactly when the matrix is square or empty (`CombatAreas.RightIffSquare`);
  a row of two squares is mirrored onto itself (`CombatAreas.SkewedMirror`).
- A recomputation of the walk cache skips squares without a tile. After a teleport the cache is right exactly when
  no stale true bit falls on such a square (`WalkCache.Creature.OnOwnMove`; `WalkCache.StaleTeleport` is a
  teleport after which it is wrong).
- A damage condition expires by the clock. m hits are all dealt exactly when the executions they need, each hit
  the interval divided by the time between executions and rounded up, are no more than the executions until the
  expiry (`DamageConditions.AllDealt`, `DamageConditions.Burn`). No list of hits, however long, loses any of them
  exactly when the time between executions divides the interval (`DamageConditions.NeverLost`).
  `DamageConditions.LastHitLost` draws three hits and deals two.
- A damage condition fails to start for a draw of zero, and also when a positive first hit is clamped to a maximum of
  zero (`DamageConditions.ConditionDamage.Init`; `DamageConditions.ClampedToNothing` is such a draw).
- A house won in an auction is not given by setOwnerEx, so the clock of its warnings does not start with the
  tenure. An owner who never pays keeps a given house for the days of all warnings and one more
  (`Houses.GivenHouseLost`), one won in an auction a day less (`Houses.AuctionedHouseLostEarly`), and nobody
  loses it sooner unless warnings were carried over (`Houses.TenureSafe`).
- HASTE and PARALYZE push each other out only when the other is found with subId 0
  (`ConditionList.PushesOut`; in `ConditionList.HasteBesideParalyze` both stay).
- The branch of `Connection::send` that gives up on a slow connection is never taken
  (`Connections.SlowBranchDead`), nor is the error branch of `closeConnection`.
- A stack that goes to a depot whole, as far as the depot is asked, is split when there are fewer free places than it needs,
  a thousand units each, and the part counts as one item more. That, an unlimited add and a replacement are the only
  ways to exceed the limit of a depot that stays where it is (`DepotRuns.StepKeeps`). An index within the capacity is not
  refused for a full container by `__queryAdd`, but `__queryMaxCount` then finds no room (`DepotRuns.FullRefuses`).
- A depot is asked about items put into the containers inside it exactly while it is placed somewhere, because
  getTopParent stops one below a container that has no parent (`Depots.TopFromIs`,
  `Depots.LimitThroughNesting`). `DepotRuns.FullDepot` is a depot for one item that refuses a second on a tile and
  holds two of them elsewhere.

## Model

| member | source | states |
|---|---|---|
| NodeFormat.EscapeRoundTrip | src/fileloader.h:120-145 | escaping is undone by unescaping, leaves no bare node marker and never shortens |
| NodeFormat.ParseNode | src/fileloader.cpp:114-216 | the parser terminates on every byte string, consumes at least one byte, and stops at the end of the input or in front of a NODE_END |
| NodeFormat.ParseBody | src/fileloader.cpp:126-212 | the same from inside a node, over properties, children and its NODE_END |
| NodeFormat.ParseAfterEnd | src/fileloader.cpp:154-196 | the same behind a NODE_END: end of input, a byte stepped back over, a sibling, or a format error |
| NodeFormat.ExtentsNest | src/fileloader.cpp:114-216 | in a tiling the children lie between the properties and the NODE_END of their parent, and siblings follow one another |
| NodeFormat.ParseSound | src/fileloader.cpp:114-216 | whatever parseNode accepts tiles the input: a child starts right behind the properties, a sibling right behind the NODE_END, no properties end in a dangling escape |
| NodeFormat.ParseComplete | src/fileloader.cpp:114-216 | every tiling that ends where the parser may stop is accepted and rebuilt node for node |
| NodeFormat.ParseExact | src/fileloader.cpp:114-216 | parseNode answers (n, r) if and only if n tiles the input from there and r is a stopping point: the tiling is unique |
| NodeRoundTrip.RoundTrip | src/fileloader.cpp:273-293 | for every forest, writing it and reading it back gives the same types, properties and shape if and only if the forest is Clean |
| NodeRoundTrip.RoundTripConsumesFile | src/fileloader.cpp:53-112 | a clean file is parsed to its very end, into the layout the writer gave it |
| NodeRoundTrip.CleanTiles | src/fileloader.cpp:273-293 | what the writer emits for a clean forest tiles the file without gaps |
| NodeRoundTrip.ReadBackForcesClean | src/fileloader.cpp:114-216 | if the nodes read back decode to what was written, no type byte was escaped in a way that put the reader out of step |
| NodeRoundTrip.TypeFELost | src/fileloader.cpp:282-287 | a lone node of type 0xFE is not read back |
| NodeRoundTrip.FirstNodeUnique | src/fileloader.cpp:114-216 | a file and a truncation of it that both tile from the same offset agree on the extent of the node there |
| NodeRoundTrip.TruncationAccepted | src/fileloader.cpp:114-216 | a file that opens, cut after any k of its bytes, opens again if and only if the cut lies right behind the NODE_END of one of its root nodes, or behind the last of them |
| NodeRoundTrip.SecondRootLost | src/fileloader.cpp:154-196 | a file of two roots opens, and so does it without the second |
| FileLoader.BlockCoversPos | src/fileloader.cpp:467-487 | clearing the bits of `m_cache_size - 1` gives a base whose block contains the position, for every cache size openFile chooses, 24576 included |
| FileLoader.FileLoader.LoadCacheBlock | src/fileloader.cpp:489-539 | fails only beyond the end; otherwise exactly one slot changes, to the file bytes of the block of pos |
| FileLoader.FileLoader.GetCacheBlock | src/fileloader.cpp:467-487 | answers a loaded slot for the block of pos whenever pos lies in the file or at its end |
| FileLoader.FileLoader.ReadByte | src/fileloader.cpp:324-358 | gives the next byte of the file, or false exactly at its end, with or without the cache |
| FileLoader.FileLoader.SafeSeek | src/fileloader.cpp:422-440 | the read position becomes pos, in either mode |
| FileLoader.FileLoader.SafeTell | src/fileloader.cpp:442-465 | the position of the byte read last |
| FileLoader.FileLoader.ReadBytes | src/fileloader.cpp:360-403 | the buffer receives exactly the slice of the file, across blocks, and the position moves behind it |
| FileLoader.PerformReads | src/fileloader.cpp:324-465 | over any run of reads, seeks and slices within the file, the answers equal those of direct reads, whatever is evicted from the three slots |
| FileLoader.FileLoader.CloseNode | src/fileloader.cpp:165-193 | behind a NODE_END: a linked sibling, one byte stepped back, the end of the file, or a format error |
| FileLoader.FileLoader.ScanProps | src/fileloader.cpp:120-208 | stops at the marker behind the properties, jumping over escaped bytes |
| FileLoader.FileLoader.ParseChildren | src/fileloader.cpp:134-152 | links the child chain and reads the NODE_END behind it, if and only if the specification parses it there |
| FileLoader.FileLoader.ParseOne | src/fileloader.cpp:114-216 | one node: its fields are set and the rest of the chain is what the specification parses behind it |
| FileLoader.FileLoader.ParseNode | src/fileloader.cpp:114-216 | the linked heap nodes denote exactly the chain that NodeFormat.ParseNode computes, and fail when it fails |
| FileLoader.FileLoader.OpenRead | src/fileloader.cpp:53-112 | opening succeeds if and only if the specification opens the bytes, cached or not, and links its nodes |
| FileLoader.FileLoader.UnescapeBuffer | src/fileloader.cpp:218-258 | compacting the buffer in place leaves the unescaped bytes in front; the write index never passes the read index |
| FileLoader.FileLoader.GetProps | src/fileloader.cpp:218-258 | gives the unescaped properties of a node that fit after one growth step, and the size of the buffer afterwards |
| FileLoader.FileLoader.ReadForest | src/fileloader.cpp:295-322 | walking the linked nodes and fetching all properties decodes the forest, as long as each node fits into the buffer that those before it have left |
| FileLoader.FileLoader.WriteData | src/fileloader.h:120-145 | appends the bytes, with an escape byte in front of every special one if asked to |
| FileLoader.FileLoader.StartNode | src/fileloader.cpp:282-287 | appends the marker and the escaped type |
| FileLoader.FileLoader.SetProps | src/fileloader.cpp:273-280 | appends the escaped properties |
| FileLoader.FileLoader.EndNode | src/fileloader.cpp:289-293 | appends a bare NODE_END |
| FileLoader.FileLoader.WriteForest | src/fileloader.cpp:273-293 | writes a forest as the specification lays it out |
| FileLoader.Load | src/fileloader.cpp:53-322 | any content at all, cached or not: it is refused exactly when the function refuses it, and otherwise walked into the forest it decodes to |
| FileLoader.LayoutFits | src/fileloader.cpp:222-227 | a written forest fits the buffer exactly when its raw properties do, in the order of the walk |
| FileLoader.SaveAndLoad | src/fileloader.cpp:53-293 | one loader writes any clean forest whose nodes fit the growing buffer in their order, another reads it back, cached or not: the same forest |
| WalkCache.Creature.UpdateMapCache | src/creature.cpp:529-546 | recomputes every square that has a tile and leaves the other bits alone |
| WalkCache.Creature.UpdateTileCache | src/creature.cpp:559-571 | sets one bit, and nothing outside the window |
| WalkCache.Creature.UpdateSquare | src/creature.cpp:573-578 | sets the bit of a square on the own floor |
| WalkCache.Creature.ShiftRows | src/creature.cpp:713-738 | a step to the north or south moves every row over and recomputes the row that came into sight |
| WalkCache.Creature.ShiftColumns | src/creature.cpp:740-783 | a step to the east or west moves every column over and recomputes the column that came into sight |
| WalkCache.Creature.ShiftWindow | src/creature.cpp:709-783 | both halves: each visible square has the bit it had under the old position, or its recomputed bit |
| WalkCache.Creature.OnOwnMove | src/creature.cpp:686-793 | a step in any of the 8 directions keeps the cache equal to recomputation; a teleport does so if and only if no stale bit lies on a square without a tile |
| WalkCache.Creature.OnOtherMove | src/creature.cpp:794-802 | another creature's move keeps the cache right |
| WalkCache.Creature.OnTileChanged | src/creature.cpp:618-622 | an item that was added, or a creature that came or went, keeps the cache right |
| WalkCache.Creature.OnTileItemUpdated | src/creature.cpp:624-630 | an item update keeps the cache right, also when it is ignored |
| WalkCache.Creature.OnTileItemRemoved | src/creature.cpp:632-637 | a removed item keeps the cache right, also when it is ignored because it neither blocked nor was the ground |
| WalkCache.Creature.OnOwnAppear | src/creature.cpp:639-651 | the first computation makes the cache right |
| WalkCache.Creature.GetWalkCache | src/creature.cpp:580-616 | answers 0, 1 or 2 exactly as walkability, floor and window say |
| WalkCache.Live | src/creature.cpp:529-802 | over any run of steps, teleports onto tiled ground, other moves and tile changes the window equals a recomputed one |
| WalkCache.StaleTeleport | src/creature.cpp:529-546 | a teleport to where there are no tiles leaves a stale bit: the cache takes a square without a tile for one to walk on |
| Containers.UpdateItemWeight | src/container.cpp:121-126 | every container around the given one, itself included, gains the difference, and nothing else changes |
| Containers.PlainItemsWeigh | src/container.cpp:128-131 | getWeight of an item is its own weight plus, for a container, the cached weight of the contents |
| Containers.GetIndexOfThing | src/container.cpp:650-662 | the position of the item in the list, or -1 exactly when it is not there |
| Containers.AddThing | src/container.cpp:433-476 | a loose item that does not contain the container goes to the front, all weights stay right and the nesting stays acyclic; an index beyond the capacity is refused |
| Containers.ChangeItem | src/container.cpp:503-510 | a new type or count changes the weights of all containers around by the difference |
| Containers.UpdateThing | src/container.cpp:478-515 | acts on an item of this container only, and keeps all weights right |
| Containers.ReplaceThing | src/container.cpp:517-565 | the new item takes the place of the old one in the list, the old one is loose, all weights stay right |
| Containers.TakeOut | src/container.cpp:616-630 | the whole item leaves the list with everything inside it; all weights stay right |
| Containers.RemoveThing | src/container.cpp:567-631 | part of a stack is counted down (never below zero), anything else is taken out whole; a foreign item is left alone |
| Containers.CachedWeightIsContents | src/container.cpp:121-131 | in a consistent state totalWeight is the sum of the own weights of everything inside, at any depth |
| ContainerForest.AttachAcyclic | src/container.cpp:266-303 | hanging a loose item into c keeps the nesting free of loops if and only if c is not the item and not inside it |
| ContainerForest.AttachBelow | src/container.cpp:433-476 | what a container holds after an item with its contents was hung into something: both contents and the item, disjointly, or the same as before |
| ContainerForest.DetachParts | src/container.cpp:567-631 | taking an item out changes only what goes through its container; the item keeps its contents |
| ContainerForest.RaiseRestores | src/container.cpp:121-126 | if one cached weight is off by d, adding d to it and up the parent chain makes every cached weight right |
| ContainerOps.AddValid | src/container.cpp:433-476 | adding keeps links, lists and weights consistent |
| ContainerOps.ReweighValid | src/container.cpp:478-515 | changing an item in place keeps them consistent |
| ContainerOps.RemoveValid | src/container.cpp:567-631 | removing keeps them consistent |
| ContainerOps.ReplaceValid | src/container.cpp:517-565 | replacing keeps them consistent |
| ContainerOps.TotalIsSubtreeWeight | src/container.cpp:128-131 | the cached weight equals the weight of the whole subtree |
| ContainerWalk.WalkComplete | src/container.cpp:885-906 | a walk with an empty queue has visited everything inside, once |
| ContainerWalk.GoingStep | src/container.cpp:885-906 | one operator++ keeps the walk: visited items, queue and position still spell out the breadth-first order |
| ContainerWalk.GoingEnd | src/container.cpp:840-864 | when the queue is empty the visited items are all items inside, each once, in breadth-first order |
| ContainerIterators.ContainerIterator.constructor | src/container.cpp:801-835 | begin() starts a walk, an ended one for an empty container |
| ContainerIterators.ContainerIterator.Current | src/container.cpp:874-883 | operator* gives an item inside the container |
| ContainerIterators.ContainerIterator.Advance | src/container.cpp:885-906 | operator++ visits one more item and keeps the walk |
| ContainerIterators.GetItemHoldingCount | src/container.cpp:173-180 | the number of items inside, at any depth; the walk terminates |
| ContainerIterators.IsHoldingItem | src/container.cpp:182-191 | true if and only if the item lies inside, at any depth |
| ContainerIterators.Enumerate | src/container.cpp:801-906 | begin() to end() gives every nested item exactly once, level by level |
| Depots.TopFromIs | src/thing.cpp:47-65 | the climb finds the outermost container exactly when that is placed, and otherwise the container just inside it |
| Depots.GetTopParent | src/thing.cpp:47-65 | the loop up the parents gives the top parent of the specification |
| Depots.TopOfIs | src/thing.cpp:47-65 | the top parent, exactly: a container that nothing holds is its own; else it is the outermost container if that is placed or holds a plain item directly, and otherwise the container just inside the outermost |
| Depots.HoldsOrIs | src/container.cpp:283-293 | the walk up the parents finds the item exactly when the container is it or lies inside it |
| Depots.ContainerQueryAdd | src/container.cpp:266-303 | each refusal exactly in its case, in order, as RefusalsAre spells out; then the top parent is asked on behalf of the container |
| Depots.DepotQueryAdd | src/depot.cpp:41-67 | refuses as full if and only if the items held and those the add brings exceed the limit, before anything else is asked |
| Depots.QueryAdd | src/depot.cpp:41-67 | the virtual call: the exact answer of any container or depot, asked directly or on behalf of one inside it; CANNOTPICKUP, THISISIMPOSSIBLE and CONTAINERNOTENOUGHROOM each exactly in its case, after an overfull depot and before the top parent |
| Depots.RefusalsAre | src/container.cpp:266-303 | each refusal exactly in its case: a full container refuses an add anywhere without noLimit exactly when no depot limit of its own, pickup rule or loop comes first; beyond these only a depot that is the top parent refuses, for its limit |
| Depots.TopDepotTops | src/depot.cpp:51-61 | a depot on a tile is the top parent of what lies inside it, at any depth, and of nothing else |
| Depots.AcceptedFits | src/depot.cpp:41-67 | whatever container inside a depot on a tile accepts an add, the depot has room for all that it brings |
| Depots.LimitThroughNesting | src/container.cpp:298-303 | an add to a container inside a depot, with nothing else against it, is refused for the limit if and only if the depot is placed and would overflow |
| DepotRuns.Add | src/container.cpp:433-476 | an accepted loose item is hung to the front of the container and is not placed any more |
| DepotRuns.Remove | src/container.cpp:567-631 | the world after a removal: a stack counted down, a whole item out, or a foreign item left alone |
| DepotRuns.Update | src/container.cpp:478-515 | the world after an update of an item of the container, or of a foreign one |
| DepotRuns.Replace | src/container.cpp:517-565 | the world after a replacement; a place beyond the list changes nothing |
| DepotRuns.TakePart | src/container.cpp:600-615 | part of a stack, held or loose, becomes a new item, and the stack is counted down wherever it lies |
| DepotRuns.Move | src/container.cpp:266-303 | a whole item or part of a stack, from a container, a tile or from nowhere: asked are the target and its room; what is refused, and units that a stack does not have, stay as they are; what is accepted moves with all that it holds |
| DepotRuns.QueryMaxCount | src/container.cpp:305-348 | a thousand units of a stack or one other item for each free place; without noLimit there is room for none exactly in a full container |
| DepotRuns.FullRefuses | src/container.cpp:305-348 | at whatever index, nothing is moved into a full container without noLimit, except an item from nowhere |
| DepotRuns.PartedUnits | src/container.cpp:600-615 | a stack and the part split off have as many units as the stack had |
| DepotRuns.StepUnits | src/container.cpp:433-631 | calls that move, replace or lay down items keep the units of all stacks together |
| DepotRuns.MoveCount | src/depot.cpp:51-61 | what leaving one container and entering another does to the number of items in a depot around either |
| DepotRuns.SwapCount | src/container.cpp:517-565 | what replacing an item does to the number of items in a depot around it |
| DepotRuns.StepKeeps | src/depot.cpp:41-67 | a call that leaves a depot on a tile in its place keeps it within its limit if and only if it is not a replacement, an unasked add or an add of which part is split off for lack of room that brings in more than there is room for |
| DepotRuns.StepKeepsRoom | src/container.cpp:266-348 | a call keeps a container within its places if and only if it does not put an item into a full one without being limited |
| DepotRuns.Step | src/container.cpp:433-631 | one call, of any kind, makes of the world what the specification makes of it |
| DepotRuns.Run | src/depot.cpp:41-67 | over any calls: the world is what they make of it one after the other, no loop, every totalWeight is the weight of the subtree; every depot on a tile stays within its limit, and every container within its places, when none of the calls breaks that bound; moves, replacements and laying down keep the units of all stacks |
| DepotRuns.FullDepot | src/depot.cpp:41-67 | a depot for one item with a bag in it: on a tile it refuses an item for the bag, elsewhere it holds two items |
| DamageList.RepeatsNearest | src/condition.cpp:1294-1304 | each value is dealt as often as brings the running total nearest to its share: no other number of times is nearer |
| DamageList.NearerMeans | src/condition.cpp:1300-1304 | the floating comparison of the loop means that more than half of the value is still missing |
| DamageList.DealValue | src/condition.cpp:1295-1304 | the inner loop terminates and deals the value exactly that often |
| DamageList.HitsTotal | src/condition.cpp:1287-1306 | the sum is at least the amount and exceeds it by at most 1 + ... + start |
| DamageList.HitsExact | src/condition.cpp:1287-1306 | an amount of at least start * start is met exactly |
| DamageList.HitsFall | src/condition.cpp:1287-1306 | the list never rises and holds exactly the values from start to 1 |
| DamageList.GenerateDamageList | src/condition.cpp:1287-1306 | terminates for every start and deals nothing for a start below 1; the list, by plain sums over it: it never rises and holds exactly the values from start to 1; it deals at least the amount, and exactly that from start * start on; for each v the hits of at least v come as near to their share of the amount as one hit of v can bring them |
| DamageList.OnlyOneSpread | src/condition.cpp:1287-1306 | for every start and amount there is one list only that never rises, holds the values from start to 1 and is spread like that |
| DamageList.HitsSpread | src/condition.cpp:1294-1304 | the reference list is spread evenly: for each v the hits of at least v come as near to their share, (start + 1 - v) of the start parts of the amount, as one hit of v can bring them |
| DamageList.SpreadEvenly | src/condition.cpp:1294-1304 | for an amount of at least start * start, start times the sum of the hits of at least v differs from (start + 1 - v) * amount by at most half of start * (v + 2) |
| DamageConditions.ConditionDamage.AddDamage | src/condition.cpp:1030-1058 | appends the rounds and lengthens a limited condition by their intervals, or makes it periodic |
| DamageConditions.ConditionDamage.Init | src/condition.cpp:1060-1084 | fills an empty list with the negated hits; fails if and only if the draw is zero or a positive first hit is clamped to zero |
| DamageConditions.FirstHitMeans | src/condition.cpp:1060-1084 | a first hit that is set is used up to the maximum; otherwise it is the smallest of which twenty make up the amount |
| DamageConditions.ClampedToNothing | src/condition.cpp:1066-1083 | a draw of three whose first hit is clamped to zero starts nothing |
| DamageConditions.ConditionDamage.GetNextDamage | src/condition.cpp:1139-1156 | hands out the front hit and drops it unless the condition has no end |
| DamageConditions.ConditionDamage.StartCondition | src/condition.cpp:1086-1096 | dealt and waiting hits together are the initial list; the first is dealt at once unless delayed |
| DamageConditions.ConditionDamage.ExecuteCondition | src/condition.cpp:1098-1137 | at most the front hit is dealt, when its interval is over; a matching field underfoot makes it stay and stops the clock; a periodic condition deals once per tick interval |
| DamageConditions.ConditionDamage.GetTotalDamage | src/condition.cpp:1213-1225 | the sum of the waiting hits, or an estimate when there are none, without its sign |
| DamageConditions.ConditionDamage.UpdateCondition | src/condition.cpp:1010-1028 | another condition takes over if it is forced, or if it lasts longer and does no less damage |
| DamageConditions.TakesOverMeans | src/condition.cpp:1010-1028 | unless it is forced, only a longer condition that does no less damage takes over from a limited one, and a limited one never from one without an end |
| DamageConditions.ConditionDamage.AddCondition | src/condition.cpp:1170-1211 | time, amounts and hits are those of a condition that takes over, drawn anew if it has none; the next hit keeps its due time |
| DamageConditions.MergeTakes | src/condition.cpp:1170-1211 | after hits of another condition have taken over: its time, amounts and hits, the first due when the one before it was, and dealt at once unless delayed |
| DamageConditions.ConditionDamage.Execute | src/condition.cpp:1098-1137 | over any run: hits are dealt from the front, none is skipped; without a field underfoot dealt and waiting hits are the initial list |
| DamageConditions.DealsAll | src/condition.cpp:1098-1137 | the waiting hits are a tail of the list and every hit was dealt or waits |
| DamageConditions.DealsOnce | src/condition.cpp:1098-1137 | if nothing was repeated, dealt and waiting hits are the list, in order |
| DamageConditions.ConditionDamage.ExecuteUntilEnd | src/condition.cpp:167-180 | executed at regular intervals until it expires: exactly how often it runs and how many hits are left over |
| DamageConditions.AllDealt | src/condition.cpp:1098-1137 | no hit is left over if and only if the executions that the hits need are no more than there are |
| DamageConditions.NeverLost | src/condition.cpp:1098-1137 | no list of any length loses a hit if and only if the executions divide the interval |
| DamageConditions.LastHitLost | src/condition.cpp:1098-1137 | three hits are drawn, 750 milliseconds apart, and executed every 500: two are dealt before the condition expires |
| DamageConditions.Burn | src/condition.cpp:1060-1137 | from start to expiry exactly the drawn list without its lost tail is dealt; nothing is lost if and only if the executions needed fit into the time, and then at least the amount is dealt |
| ConditionList.Condition.UpdatePercents | src/condition.cpp:443-459 | each percentage adds its truncated share of the level or default stat |
| ConditionList.Condition.ApplyAttributes | src/condition.cpp:461-531 | every skill and stat modifier moves by the stored amount, or back |
| ConditionList.Condition.StartCondition | src/condition.cpp:1435-1446 | amounts and times are fixed (a delta of zero is drawn from the formula, percentages become amounts, damage becomes hits) and the creature gains exactly what the condition then stands for: HASTE and PARALYZE change the speed, ATTRIBUTES each skill and stat of a player, any other type nothing; only a damage condition refuses |
| ConditionList.Condition.EndCondition | src/condition.cpp:500-531 | the creature loses that again, modifier by modifier |
| ConditionList.Condition.AddCondition | src/condition.cpp:356-377 | an accepted condition replaces time and amounts, by the rule of its class, another is ignored; either way each modifier moves by the change of what the condition stands for |
| ConditionList.MergeLasts | src/condition.cpp:284-309 | merging a limited condition prolongs a limited one to the later end, or, for HASTE and PARALYZE, to the end of the newer; one without an end stays as it is |
| ConditionList.MergeEndless | src/condition.cpp:284-309 | a condition without an end takes over from any other |
| ConditionList.Condition.AddSpeed | src/condition.cpp:1454-1482 | the new delta is the other one, or drawn from its formula, and the speed changes by the difference |
| ConditionList.Condition.ExecuteCondition | src/condition.cpp:167-180 | the time left shrinks to no less than zero, unless a field holds a damage condition; the condition lives while it has no end or its end has not passed |
| ConditionList.Creature.GetCondition | src/creature.cpp:1759-1768 | finds a condition of the key if and only if there is one |
| ConditionList.Creature.RemoveType | src/creature.cpp:1678-1695 | exactly the conditions of the type leave the list, in place, and the books stay balanced |
| ConditionList.Creature.RemoveTypeId | src/creature.cpp:1697-1714 | the same for a type and id |
| ConditionList.Creature.Remove | src/creature.cpp:1716-1728 | the same for one condition |
| ConditionList.Creature.CombatRemove | src/creature.cpp:1730-1738 | going through a copy of the list removes the same conditions as the direct loop |
| ConditionList.Creature.RemoveConditions | src/creature.cpp:1740-1757 | exactly the persistent conditions leave, or all of them |
| ConditionList.Creature.ExecuteConditions | src/creature.cpp:1770-1787 | every condition has its turn, and exactly those whose end has then passed leave |
| ConditionList.Creature.Merge | src/creature.cpp:1648-1653 | merging into the active condition of the same key gives it the time of the specification and keeps the books balanced |
| ConditionList.Creature.Start | src/creature.cpp:1655-1660 | starting a condition of a new key gives it the time of the specification, or refuses it, and keeps the books balanced and the keys distinct |
| ConditionList.Creature.AddCondition | src/creature.cpp:1642-1664 | a condition of a known key is merged into the active one, one of a new key joins or is refused; HASTE then pushes out PARALYZE, and the reverse, as PushesOut says; list, times and hits afterwards are exactly those of the specification |
| ConditionList.PushesOut | src/creature.cpp:1383-1392 | after a new HASTE no PARALYZE is left if and only if none was there or one of subId 0 was in force, the same with the two exchanged; a new condition of any other type takes nothing from the list |
| ConditionList.Creature.Take | src/creature.cpp:1642-1787 | one step of any kind: who leaves, who is prolonged, who joins, and how every time and every list of hits changes |
| ConditionList.WhoStays | src/creature.cpp:1678-1787 | for each kind of removal, and for an execution, exactly which conditions of the list stay |
| ConditionList.Creature.Run | src/creature.cpp:1642-1787 | over any steps: the list, its order, its times and its hits are what the steps make of it one after the other; each modifier is its baseline plus what the active conditions add, keys are distinct, and an empty list means that every modifier is at its baseline |
| ConditionList.StartsBurning | src/condition.cpp:1060-1096 | a damage condition without hits joins the list with a draw, and its end lies one interval later for each hit drawn |
| ConditionList.StaysBurning | src/condition.cpp:1126-1133 | over any executions in a field of its own damage (fire, energy, earth for poison, drown), a damage condition neither ends nor loses a hit, and its end moves on by the time executed |
| ConditionList.NotHeldBack | src/condition.cpp:1098-1137 | an execution anywhere else runs the clock and counts the front hit down, or drops it when it is due |
| ConditionList.HasteBesideParalyze | src/creature.cpp:1388-1392 | PARALYZE with subId 1 and HASTE added after it are both active |
| ConditionList.NoConditions | src/creature.cpp:1740-1757 | ending all conditions by any route restores every modifier |
| PropStreams.Le32RoundTrip | src/fileloader.h:198-207 | four bytes, the lowest first, spell out the word and give it back |
| PropStreams.PropStream.GetValue | src/fileloader.h:198-207 | takes the next bytes and moves behind them; a stream that is too short is left as it is |
| PropStreams.PropWriteStream.Grow | src/fileloader.h:316-320 | the buffer grows in multiples of 32 and keeps its contents |
| PropStreams.PropWriteStream.AddValue | src/fileloader.h:313-324 | appends the bytes; after growing once they always fit |
| ConditionFormat.ReadBody | src/condition.cpp:57-67 | for each of the eight classes: its attributes, read into a new object of that class, restore the fields |
| ConditionFormat.RoundTrip | src/condition.cpp:57-150 | serialize and the end tag, read by a new object of the same class, restore every saved field and stop right behind the tag, whatever follows |
| ConditionFormat.ChangedOnlyByIntervals | src/condition.cpp:933-985 | a condition comes back changed if and only if it is a damage condition whose intervals change its time |
| ConditionFormat.RaisedBySum | src/condition.cpp:971-981 | the time of a damage condition grows by the sum of its intervals |
| ConditionFormat.CreateHeader | src/condition.cpp:243-282 | createCondition reads the five common attributes back and picks the class by the type |
| ConditionFormat.LoadSaved | src/iologindata.cpp:433-443 | the conditions of a player, saved and loaded: every persistent one comes back, in order, and nothing else |
| ConditionFormat.SavedAlone | src/iologindata.cpp:851-863 | a condition comes back if and only if it has time left and does not come from combat, or is that of a gamemaster |
| ConditionFormat.BurningBytes | src/condition.cpp:133-150 | a fire condition as it is saved, byte by byte |
| ConditionStream.Condition.SerializeHeader | src/condition.cpp:133-150 | appends the five common attributes |
| ConditionStream.Condition.SerializeBody | src/condition.cpp:410-428 | appends the attributes of the class |
| ConditionStream.Condition.Serialize | src/condition.cpp:133-150 | appends both |
| ConditionStream.Condition.UnserializeProp | src/condition.cpp:69-131 | the virtual call: a tag known to the class with enough bytes behind it is stored and consumed; otherwise nothing changes |
| ConditionStream.Condition.UnserializeBase | src/condition.cpp:69-131 | the tags that every condition knows |
| ConditionStream.Condition.UnserializeAttributes | src/condition.cpp:379-408 | the next skill or stat, else the common tags |
| ConditionStream.Condition.UnserializeDamage | src/condition.cpp:933-985 | the tags of a damage condition, an interval raising the time, else the common tags |
| ConditionStream.Condition.UnserializeSpeed | src/condition.cpp:1352-1411 | the tags of a speed condition and the looks it inherits, else the common tags |
| ConditionStream.Condition.Unserialize | src/condition.cpp:57-67 | reads attributes up to the end tag or the end of the stream, or stops at the first one it cannot read |
| ConditionStream.Condition.CreateCondition | src/condition.cpp:243-282 | a new condition if and only if the five attributes are there in order and the type is known |
| ConditionStream.SaveConditions | src/iologindata.cpp:851-863 | writes the persistent conditions, each followed by the end tag |
| ConditionStream.LoadConditions | src/iologindata.cpp:433-443 | reads conditions until none can be created, skipping those that cannot be read |
| ConditionStream.SaveAndLoad | src/iologindata.cpp:433-443 | through both streams every persistent condition comes back, in order |
| CombatAreas.Mirrored | src/combat.cpp:1222-1232 | columns are reversed, nothing else of the output changes, and the new centre column is rows - 1 - centre column |
| CombatAreas.Flipped | src/combat.cpp:1233-1243 | rows are reversed, nothing else changes, and the new centre row is cols - 1 - centre row |
| CombatAreas.Copied | src/combat.cpp:1212-1221 | the input is copied, centre included |
| CombatAreas.Rotated | src/combat.cpp:1244-1287 | for every matrix with its centre inside, nothing is written outside the output, and an offset is hit if and only if it is the turn of a hit offset: a quarter turn takes (dx, dy) to (-dy, dx), half a turn to (-dx, -dy), three quarters to (dy, -dx) |
| CombatAreas.CopyArea | src/combat.cpp:1208-1288 | for every operation: an offset is hit if and only if it is the turned and shifted image of a hit one; the shift is zero but for mirror and flip |
| CombatAreas.ShiftZero | src/combat.cpp:1222-1243 | the shift of a mirror or flip is zero if and only if the matrix is square |
| CombatAreas.ShiftedIsWrong | src/combat.cpp:1222-1243 | a shifted image of a non-empty area is not its mirror image |
| CombatAreas.RightIffSquare | src/combat.cpp:1404-1430 | a diagonal area is the true image of the NORTHWEST one if and only if the matrix is square or nothing is hit |
| CombatAreas.SkewedMirror | src/combat.cpp:1222-1232 | a NORTHWEST row of two squares reaching east has a mirror image that reaches east as well |
| CombatAreas.MirrorTwice | src/combat.cpp:1222-1232 | mirroring twice into matrices of the same size is the identity, centre included |
| CombatAreas.FlipTwice | src/combat.cpp:1233-1243 | so is flipping twice |
| CombatAreas.CreateArea | src/combat.cpp:1290-1313 | the squares of ones and threes are set, row by row, and the last two or three is the centre |
| CombatAreas.SouthEast | src/combat.cpp:1424-1427 | mirroring the padded SOUTHWEST area negates both offsets, with the shift of the flip |
| CombatAreas.CombatArea.SetupArea | src/combat.cpp:1315-1336 | in EAST the square (-dy, dx) from the centre is hit for each NORTH square (dx, dy), in SOUTH (-dx, -dy), in WEST (dy, -dx), and no other |
| CombatAreas.CombatArea.SetupExtArea | src/combat.cpp:1404-1430 | NORTHEAST, SOUTHWEST and SOUTHEAST are the mirrored, flipped and doubly reversed NORTHWEST, each up to its shift; an empty list changes nothing |
| CombatAreas.CombatArea.GetArea | src/combat.h:215-245 | the area of the direction from the centre to the target, or none |
| CombatAreas.CombatArea.GetList | src/combat.cpp:1167-1206 | lists exactly the visible squares of the area around the target, in reading order and wrapping at 16 bits; missing tiles are created |
| CombatAreas.Strike | src/combat.cpp:1167-1206 | with everything in sight, a strike hits, for each NORTH mark (dx, dy) of the list, to the north the square at (dx, dy) from the target, to the east at (-dy, dx), to the south at (-dx, -dy), to the west at (dy, -dx), and no other; if every mark lies ahead, a strike to the east hits only squares east of the target |
| CombatAreas.StrikeAhead | src/combat.cpp:1315-1336 | a list with one square ahead of its centre hits exactly the square behind the target, seen from the centre, in each of the four directions |
| CombatAreas.StrikeDiagonally | src/combat.cpp:1167-1206 | with everything in sight, a diagonal strike hits, for each NORTHWEST mark (dx, dy) of the list, the square at (-dx, dy) from the target to the northeast, (dx, -dy) to the southwest, (-dx, -dy) to the southeast, moved by the shift of its area, and no other; for a square list nothing is moved |
| Connections.Connection.Close | src/connection.cpp:89-101 | requests the close and queues one closeConnection, unless that is already done or the connection closed |
| Connections.Connection.CloseConnection | src/connection.cpp:185-215 | run by the dispatcher: CLOSED and released when no write is pending or writing failed, else CLOSING |
| Connections.TaskCloses | src/connection.cpp:185-215 | the queued closeConnection leaves CLOSED, released and with the socket shut, if no write is pending or writing failed, and CLOSING otherwise |
| Connections.CloseRequests | src/connection.cpp:89-101 | from OPEN and CLOSING a close is requested and one closeConnection queued; elsewhere nothing happens |
| Connections.Connection.CloseSocket | src/connection.cpp:217-254 | an open socket is closed and nothing is pending any more |
| Connections.Connection.Send | src/connection.cpp:472-510 | on an open connection without a write error a write is pending and under way afterwards, the only one; in any other state nothing changes |
| Connections.SendWrites | src/connection.cpp:472-546 | the same of the step: whatever is sent, an open connection then writes, and no other connection starts to |
| Connections.Connection.OnWrite | src/connection.cpp:548-572 | the end of a write: one less pending, or socket and connection closed |
| Connections.WriteDoneEnds | src/connection.cpp:548-572 | the end of a write: an open connection goes on with none pending; after an error, or when the close was requested meanwhile, the socket is shut and one closeConnection is queued, unless all is over |
| Connections.TimeoutCloses | src/connection.cpp:598-616 | a timer that runs out while its operation is pending, or after an error, shuts the socket and requests the close; otherwise it does nothing |
| Connections.Connection.OnReadTimeout | src/connection.cpp:598-606 | closes a connection that still waits to read |
| Connections.Connection.OnWriteTimeout | src/connection.cpp:608-616 | closes a connection that still waits to write |
| Connections.Connection.ParseHeader | src/connection.cpp:339-394 | goes on reading, or closes on an error or a bad size |
| Connections.Connection.ParsePacket | src/connection.cpp:396-470 | hands the message on, whatever the handler sends or closes meanwhile, and reads on |
| Connections.HeaderReads | src/connection.cpp:339-394 | a good header on an open connection is followed by the read of its packet; an error or a bad size requests the close |
| Connections.PacketReads | src/connection.cpp:396-470 | a packet on an open connection, if a protocol is found: what the protocol sends or closes happens, and the next header is read; otherwise the connection does not stay open |
| Connections.HandledSound | src/connection.cpp:396-470 | whatever a message handler does, the invariant holds |
| Connections.StepSound | src/connection.cpp:89-664 | every step keeps the invariant |
| Connections.AlwaysSound | src/connection.cpp:89-664 | over all interleavings: one closeConnection is queued if and only if the close is requested; released exactly once when closed; at most one write under way; CLOSING always has one |
| Connections.KeepsListening | src/connection.cpp:297-470 | over all interleavings: an open connection has exactly as many reads under way as were accepted |
| Connections.ClosedForever | src/connection.cpp:185-215 | CLOSED is absorbing and releases nothing again |
| Connections.WriteEnds | src/connection.cpp:548-572 | once the close is requested, the end or the timeout of the write leaves only the queued closeConnection to run |
| Connections.FinishesWithTask | src/connection.cpp:185-215 | nothing undoes that, and the next closeConnection closes the connection |
| Connections.CloseCompletes | src/connection.cpp:185-263 | from any state but OPEN: after the write is done or timed out and the dispatcher has run closeConnection, the connection is CLOSED, whatever else happens |
| Connections.ClosingReached | src/connection.cpp:89-263 | by sending, closing and the queued closeConnection, CLOSING with a write under way is reached from the start; the end of the write and another closeConnection then lead to CLOSED |
| Connections.SlowBranchDead | src/connection.cpp:495-499 | whether slow connections are to be closed makes no difference in any reachable state |
| Connections.Connection.Live | src/connection.cpp:89-664 | any run of the object is a run of the steps and keeps the invariant |
| Houses.AuctionedHouseLostEarly | src/iomapserialize.cpp:70-71 | for every period: an owner by auction who is asked daily and cannot pay loses the house after exactly limit days: 1, 3, 7 and 14 |
| Houses.GivenHouseLost | src/house.cpp:983-1048 | for every period: an owner by setOwnerEx who is asked daily and cannot pay loses the house after exactly limit + 1 days: 2 for a daily rent, 4 weekly, 8 monthly, 15 yearly |
| Houses.TenureSafe | src/house.cpp:941-1059 | over any events: whoever loses the house for unpaid rent has had it for limit + 1 days if it was given, limit days less the warnings carried over if it was won in an auction |
| Houses.LostAtOnce | src/iomapserialize.cpp:70-71 | only a house with all its warnings can be lost in the moment of its auction |
| Houses.ChargesSpaced | src/house.cpp:891-939 | over any events: two charges of one owner are at least a rent period apart |
| Houses.House.SetOwnerEx | src/house.cpp:111-150 | a new owner starts with the clock of the warnings at the present time and, after a previous owner, without warnings or paid time; an unknown player of a guild hall is refused |
| Houses.GivenMeans | src/house.cpp:111-150 | setOwnerEx field by field: a guild hall goes to the guild, the clock of the warnings starts, and a previous owner leaves no warnings and no paid time |
| Houses.TakeMoney | src/house.cpp:891-939 | the amount is taken from the bank or from the depot, whole or not at all |
| Houses.ChargeTakes | src/house.cpp:891-939 | a charge lowers the money of one purse, in the bank or in the depot but not in both, by exactly rent and bid, and touches no other |
| Houses.NothingTaken | src/house.cpp:891-939 | without a charge no purse changes |
| Houses.ChargedWhen | src/house.cpp:891-939 | the rent is taken if and only if it is due, the house has an owner who has to pay, and the bank or the depot holds it all |
| Houses.DueUnpaid | src/house.cpp:941-982 | when the rent is due, an owner who is gone, lacks the premium or is long away loses the house at once, and nobody is charged; without a town, or while the player cannot be loaded, nothing happens |
| Houses.PayRent | src/house.cpp:891-939 | house and purses after asking for the rent are those of the specification |
| Houses.Warn | src/house.cpp:983-1048 | one more warning, a day after the last, until the limit; then the house has no owner |
| Houses.PayHouse | src/house.cpp:941-1059 | house and purses after payHouse are those of the specification, in every branch |
| Houses.Happen | src/house.cpp:876-1059 | one event, and nothing else of the house or of any purse |
| Houses.Life | src/house.cpp:876-1059 | any life of the object is the run of its events, so tenure and spacing hold of it |
| DBInserts.DBInsert.AddRow | src/database.cpp:97-119 | a row joins the pending ones until their text exceeds 8192 characters, and then they are sent first; without multi-row statements it is sent by itself; no statement exceeds 8192 characters by more than its last row and separators; a row whose flush fails is not kept |
| DBInserts.ThreeJoined | src/database.cpp:97-119 | the rows of a statement stand in brackets with commas between them |
| DBInserts.DBInsert.Execute | src/database.cpp:128-138 | sends the pending rows as one statement and empties the buffer |
| DBInserts.InsertAll | src/database.cpp:90-138 | if no statement fails, the statements sent carry exactly the rows added, in order |

## Left out

- Input and output that fails: fseek, fread and fwrite are taken to succeed, and `m_lastError` codes are not kept.
- FileLoader.FileLoader.GetProps: holds for properties that fit after one growth step, because the source grows the
  buffer by 1024 bytes and once only; reading beyond it is not described. `FileLoader.PropsFit` and
  `FileLoader.Readable` say when a walk over a whole file stays within the buffer.
- FileLoader.FileLoader.ParseOne: behind a child chain the byte is proved to be a NODE_END, so the method goes
  straight to closing the node where the source goes round its inner loop again.
- FileLoader.FileLoader.SetProps: the size argument of the source has 16 bits, so longer properties are not offered to it.
- WalkCache.Creature.GetWalkCache: positions are unbounded integers; the wrap of 16-bit coordinates at the edge of the map
  is not part of the walk cache model.
- Walkability: what a tile answers to a creature is a parameter. Zone changes, step costs and summons are left out.
- Weights are exact reals. Item types are reduced to their weight, stackability and whether they can be picked up.
- Containers.UpdateItemWeight: the pair `totalWeight += d; parent->updateItemWeight(d)` of the operations is modelled as one
  call that starts at the container itself.
- `Container::clone`, `addItem` and `__internalAddThing`: they load maps and players, without queries.
- Depots.GetTopParent: cylinders other than containers (tiles, players, houses) are one value outside the containers; a
  container carried by a player asks the player, which is not part of this model.
- DepotRuns.Move: `__queryDestination` may pick another target (one container up, or a container at the given place); the target is
  the one picked. Stacking onto an item there is a removal and an update, both modelled. `noLimit` stands for the flag
  of that name.
- DepotRuns.QueryMaxCount: the units that an item at the destination could still take up are not added.
- DepotRuns.TakePart: copyAttributes beyond type and count.
- DamageConditions.ConditionDamage.DoDamage: what a hit does to the creature (blocking, death, resistance) is an arbitrary answer.
- DamageList.GenerateDamageList: float rounding and 32-bit overflow of the products; the comparison is made in exact reals.
- ConditionList.Condition.StartCondition: conditions other than speed and attributes are taken to modify nothing here; outfits, light,
  regeneration, soul and visibility changes are left out, and so is death in the middle of executeConditions. What is drawn as
  damage, whether the first hit lands and the field underfoot are part of a step.
- ConditionList.Creature.CombatRemove: onCombatRemoveCondition is that of Creature; that of Player, which keeps conditions of worn
  items and may only shorten others, is left out.
- ConditionList.Condition.UpdatePercents: the percentage is taken exactly and truncated toward zero, without float rounding.
- ConditionFormat.RoundTrip: floats are their four bytes and the padding byte of an outfit is zero. Reading more skill or stat
  attributes than a class has is not described: the model ignores the surplus.
- The angles of `copyArea` are exact quarter turns in place of 3.1416 and float cosines.
- CombatAreas.CombatArea.SetupArea: the forms that build their list from a radius or from length and spread; they end in this one.
- CombatAreas.CombatArea.GetList: what can be seen is a parameter, and tiles are positions.
- Sockets, timers, threads and exceptions: of `Connection` only the steps under its lock. The destruction of the socket in onStop, the
  retries of releaseConnection, the contents of messages, checksums and `ConnectionManager` are left out.
- Houses.PayHouse: how the owner is found is a parameter with one case for each way out. Letters, saving, access lists, beds and
  doors are left out; rent and bid are unbounded.
- Houses.House.SetOwnerEx: the database transaction at its end is taken to succeed.
- DBInserts.DBInsert.AddRow: the text of a row is not looked into, so the statement promises which rows a batch carries, not how an engine
  parses it. When a statement fails its rows are lost; callers give up then.
- Lua scripts, XML loading, configuration, guilds, bans, chat, trade and the wire protocol: glue around libraries that are not part of this model.
