# ag1 exercises in Dafny

This project is a Dafny model of the algorithmic cores of five exercises in the ag1
repository, with proofs about that model:

- **Treasure hunt** (`pt1/sample.cpp`). A hero walks through a dungeon of rooms that hold
  monsters and items, picks up the treasure and leaves by an entrance. The model covers:
  - the combat arithmetic (`turns_to_kill`, `simulate_combat`);
  - the loadout operations on `State` (`equipItem`, `dropItem`, `replaceItem`,
    `hasStealth`, `hasFirstAttack`) and `calcFighterStats`;
  - the 0-1 breadth-first search `find_shortest_path` with `reconstructPath`.

  This search has three defects (see "Findings"). So it is modelled twice: once exactly as
  written (modules `TreasureAsWritten` and `SearchSpace`), and once corrected (module
  `TreasureSearch`). The source leaves the returned path unspecified beyond its tests, so
  the corrected search is proved against a specification, `IsSolution`. The path is
  replayed from outside the dungeon by the game's rules (`SearchSpace.Play`):
  - every move follows a corridor, and in the room it enters the hero fights the monster,
    dying unless it wins or an item lets it sneak past;
  - a pickup equips an item of the room as `equipItem` does, and is not allowed after
    sneaking in;
  - a drop removes the held item of its type as `dropItem` does.

  The replay must survive and end in an entrance, holding the treasure. It is more
  permissive than the search: it meets a monster only on entering its room, while the
  search re-runs the encounter on every state it dequeues, the states its item loop queues
  included (see "Left out"). The corrected search is also written as functions, round by
  round (`TreasureSearch.Search`), and the method's result is proved to be theirs.
- **State-space search** (`minipt1/minipt1_2/main.cpp`). This part models:
  - the generic breadth-first `solve` with its parent map;
  - the four search problems: `LostHero`, `SuperstitiousHero`, `LimpingKnight` and
    `BottleProblem`;
  - the `perform_move` switches, including their `size_t` wrap-around.

  Each problem's `solve` is proved correct against an independent rule: a walk through the
  maze, or a sequence of bottle operations.
- **Hobbit army** (`pt2/sample.cpp`). This is an AVL tree keyed by name, with add, erase,
  stats, range enchant and in-order `for_each`. The nodes are modelled as an inductive
  datatype and the army as a class that holds the root. The proofs cover search-tree
  order, stored heights, balance, and the exact map of hobbits after every operation.
- **Binary min-heap** (`minipt3/minipt3_1/sample.cpp`). This is the vector-backed heap with
  `push`, `extract_min`, `min`, `size`, `empty` and the index arithmetic. The proofs cover
  the heap order and the multiset of elements.
- **Shortest multiple written in 0 and 1** (`practise/lecture-1-hw/main.cpp`). This is the
  breadth-first search over remainders modulo `k`, taken out of `main` as a method of `k`.

Integers are mathematical. The source's `int` overflow is not modelled. `size_t` and
`unsigned` wrap-around is written out where the code relies on it.

## Model

| member | source | states |
|---|---|---|
| Combat.TurnsToKill | pt1/sample.cpp:78-94 | Some(n) is the first round after which the damage dealt reaches hp, so n >= 1; None means no number of rounds ever reaches hp; the loop agrees with the closed form RoundsToKill |
| Combat.RoundsToKillMeaning | pt1/sample.cpp:81-93 | both branches of `turns_to_kill`, the ceiling division and the simulation, give the first round at which the accumulated damage reaches hp, and None exactly when it never does |
| Combat.CeilingDivision | pt1/sample.cpp:83 | (hp + dmg - 1) / dmg is the least q >= 1 with q * dmg >= hp |
| Combat.RoundsFromMeaning | pt1/sample.cpp:86-93 | the round loop stops at the first round whose dealt damage reaches hp, and gives up only when no round count ever reaches it |
| Combat.DealtOfHopelessStriker | pt1/sample.cpp:88 | a striker whose damage is non-positive and only decreases never deals damage, which justifies the early exit |
| Combat.DealtMonotone | pt1/sample.cpp:89 | more rounds never deal less damage, since a negative damage is counted as 0 |
| Combat.DealtConstant | pt1/sample.cpp:81-84 | without stacking, n rounds of a positive damage deal n * dmg |
| Combat.DealtZeroDamage | pt1/sample.cpp:82 | without stacking, a non-positive damage deals nothing in any number of rounds |
| Combat.SimulateCombatMeaning | pt1/sample.cpp:101-111 | the attacker wins iff some round n has its damage reach b.hp while the defender's damage stayed below a.hp for n - 1 rounds (the attacker strikes first); the defender wins iff some round n has its damage reach a.hp while the attacker's stayed below b.hp for n rounds; a tie iff neither side ever reaches the other's hp |
| Combat.AWinsMeaning | pt1/sample.cpp:101-111 | the attacker wins iff in some round n its damage reaches b.hp while the defender's damage over n - 1 rounds is still below a.hp |
| Combat.BWinsMeaning | pt1/sample.cpp:101-111 | the defender wins iff in some round n its damage reaches a.hp while the attacker's damage over the same n rounds is still below b.hp |
| Combat.TieMeaning | pt1/sample.cpp:107 | a tie happens iff neither side ever deals enough damage |
| Loadout.FromItem | pt1/sample.cpp:127-138 | the equipped item keeps the type and both flags of the item |
| Loadout.FromItemForgetsName | pt1/sample.cpp:127-138 | the equipped item keeps every stat of the item and forgets only its name |
| Loadout.FindType | pt1/sample.cpp:193-195 | the first position holding an item of the type, or the length when there is none |
| Loadout.EquipItem | pt1/sample.cpp:191-199 | the state is unchanged if an item of that type is held; otherwise the item is appended and nothing else changes |
| Loadout.EquipItemKeepsDistinct | pt1/sample.cpp:191-199 | equipping keeps at most one item per type, and afterwards the type is held |
| Loadout.EquipItemIdempotent | pt1/sample.cpp:191-199 | equipping the same item twice is equipping it once |
| Loadout.DropItem | pt1/sample.cpp:201-208 | the state is unchanged if no item of that type is held; otherwise exactly one item goes, and room and flags stay |
| Loadout.DropItemMeaning | pt1/sample.cpp:201-208 | after dropping, no item of the type is left, every item of another type is kept, nothing new appears, and types stay distinct; the loadout loses exactly its first item of that type, the others keeping their order, and is unchanged when it holds none |
| Loadout.DropUndoesEquip | pt1/sample.cpp:191-208 | dropping the type of an item just equipped onto a loadout without that type gives the loadout back |
| Loadout.ReplaceItem | pt1/sample.cpp:174-189 | the actions log gains Drop(type) when an item of the type was held, then Pickup(itemIndex) |
| Loadout.ReplaceItemIsDropThenEquip | pt1/sample.cpp:174-189 | replacing is dropping the type and then equipping the room's item, and keeps types distinct |
| Loadout.HasStealth | pt1/sample.cpp:160-165 | true iff some equipped item grants stealth |
| Loadout.HasFirstAttack | pt1/sample.cpp:167-172 | true iff some equipped item grants the first attack |
| Loadout.FighterStats | pt1/sample.cpp:217-228 | base hp 10000, offense 3, defense 2 and no stacking, plus the sum of the equipped deltas, with hp floored at 1 |
| Loadout.CalcFighterStats | pt1/sample.cpp:217-228 | the accumulating loop computes FighterStats |
| Loadout.TotalIgnoresOrder | pt1/sample.cpp:219-225 | the summed stats depend only on the multiset of equipped items, not on their order |
| SearchSpace.Process | pt1/sample.cpp:324-345 | a dequeued state is a dead end iff the room's monster beats the hero and the hero has no stealth; otherwise stealth is marked used iff the hero lost, and the treasure is taken in the treasure room unless sneaking |
| SearchSpace.ProcessTreasureFlag | pt1/sample.cpp:344-345 | the treasure flag is never lost, and it is only raised in the treasure room on a visit that did not sneak |
| SearchSpace.MoveSuccessor | pt1/sample.cpp:385-388 | a move successor is in the neighbour's room, has stealth cleared, and carries the loadout and treasure flag forward |
| SearchSpace.PlayFollowsRooms | pt1/sample.cpp:305-394 | a path that can be played starts with the move into an entrance, walks the corridors to the room the hero ends in, and passes the treasure room if the hero ends up holding the treasure |
| SearchSpace.SolutionWalks | pt1/sample.cpp:305-394 | a solution is a walk from an entrance through the treasure room back to an entrance |
| SearchSpace.DistinctTypesAtMostThree | pt1/sample.cpp:29-34 | a loadout with at most one item per type holds at most three items |
| SearchSpace.EquipRoomItemSound | pt1/sample.cpp:354-355 | picking up a room's item keeps a state within the finite set of states the search can produce |
| SearchSpace.DropItemSound | pt1/sample.cpp:362-363 | dropping keeps a state within that finite set |
| TreasureSearch.FindShortestPath | pt1/sample.cpp:290-397 | a non-empty result is a solution: replayed from outside the dungeon, the hero survives every encounter, performs only allowed pickups and drops, and ends in an entrance holding the treasure; and the result is the one the rounds of `Search` return within some budget |
| TreasureSearch.SearchRound | pt1/sample.cpp:319-394 | one round of the main loop keeps the invariant and makes progress; a round that goes on is one more round of `Rounds` from the seeds, and a round that returns returns a solution, the same one `Search` returns |
| TreasureSearch.RebuildLinked | pt1/sample.cpp:252-267 | with consistent links and enough budget, rebuilding the path from a state gives exactly the path recorded for it |
| TreasureSearch.SearchDeterministic | pt1/sample.cpp:290-397 | whatever budget it is given, the search has at most one result |
| TreasureExamples.DetourSearch | pt1/sample.cpp:347-394 | on a three-room dungeon with two entrances, the search returns a five-action path that enters four rooms |
| TreasureExamples.DetourNotShortest | pt1/sample.cpp:347-394 | on that dungeon every result of the search is that path, although a four-action solution entering three rooms exists: the result is not the shortest |
| TreasureExamples.ReplayMorePermissive | pt1/sample.cpp:324-371 | the replay accepts a solution that swaps the sword for a stick in the ogre's room, although the state with only the stick dies to the ogre when the search dequeues it |
| TreasureSearch.ReconstructPath | pt1/sample.cpp:252-267 | following the parent links from a visited state back to a seed gives exactly the path recorded for that state |
| TreasureSearch.Seed | pt1/sample.cpp:305-315 | after seeding, every visited state has a parent entry and a recorded path, the move into its entrance, whose replay is the state once processed; the queue holds only visited states |
| TreasureSearch.MoveReached | pt1/sample.cpp:385-388 | a move from a processed state, played after a path whose replay stands for that state, replays to the move successor once processed, or the successor is a dead end like the replay |
| TreasureSearch.PickupReached | pt1/sample.cpp:353-359 | a pickup after a path whose replay stands for the state is allowed in the replay, and the two equipped states still correspond |
| TreasureSearch.DropReached | pt1/sample.cpp:361-366 | a drop after a path whose replay stands for the state is allowed in the replay, and the two dropped states still correspond |
| TreasureSearch.CoversProcessed | pt1/sample.cpp:339-345 | after the encounter, a replay that stands for the processed state holds the treasure whenever that state stands unsneaked in the treasure room |
| TreasureSearch.Encounter | pt1/sample.cpp:324-345 | the encounter as the code runs it is SearchSpace.Process |
| TreasureSearch.PickUp | pt1/sample.cpp:354-359 | pushing the picked-up state to the front keeps the invariant, and visited grows by exactly that state |
| TreasureSearch.DropAndRepick | pt1/sample.cpp:361-375 | the dropped state ends up visited; only it and, when not sneaking, the re-picked state are added |
| TreasureSearch.ExpandItems | pt1/sample.cpp:347-377 | after the item loop, every first-tried successor of every item is visited, and nothing but item successors was added |
| TreasureSearch.ExpandMoves | pt1/sample.cpp:385-394 | after the move loop, exactly the move successors of the neighbours were added |
| TreasureSearch.FoundIsSolution | pt1/sample.cpp:379-383 | the exit test is sound: when the processed state of the dequeued state holds the treasure in an entrance, the path recorded for the dequeued state is a solution |
| TreasureSearch.ExpandState | pt1/sample.cpp:319-394 | one round of the main loop keeps the invariant, only grows the visited set, and any path it returns is a solution |
| TreasureSearch.InvPop | pt1/sample.cpp:319-320 | taking the front of the deque keeps the invariant, and the taken state was visited |
| TreasureAsWritten.AsWrittenRunsForever | pt1/sample.cpp:361-375 | on the three-room dungeon described under Findings, the search as written has not returned after any number of rounds |
| TreasureAsWritten.AsWrittenMissesSolution | pt1/sample.cpp:379-380 | on a single room that is entrance and treasure room, [Move(0)] is a solution but the search as written returns the empty path |
| TreasureAsWritten.AsWrittenTruncatesPath | pt1/sample.cpp:252-267 | in a two-room dungeon, [Move(0), Move(1), Move(0)] is a solution but the search as written returns [Move(0)], which is not one |
| TreasureAsWritten.AsWrittenLoopsOnCycle | pt1/sample.cpp:385-394 | on a three-room ring, [Move(0), Move(1), Move(2), Move(0)] is a solution, but the search as written never returns: the links of two states point at each other |
| TreasureAsWritten.CycleNeverEnds | pt1/sample.cpp:252-267 | rebuilding the path from either state of a two-link cycle never ends |
| TreasureAsWritten.LoopRound | pt1/sample.cpp:361-375 | a round from the looping configuration leads back to a looping configuration with the same visited set |
| TreasureAsWritten.BareHeroDies | pt1/sample.cpp:334-338 | a hero without items dies to the ogre and cannot sneak, so the state is a dead end |
| TreasureAsWritten.GuardedWalkIsNoSolution | pt1/sample.cpp:324-338 | with an ogre in the treasure room, walking there and back passes the treasure room but is no solution, because the bare hero dies on entering |
| TreasureAsWritten.ArmedWalkIsSolution | pt1/sample.cpp:324-359 | picking up the entrance room's sword first makes that walk a solution |
| TreasureAsWritten.SwordWins | pt1/sample.cpp:324-341 | a hero holding the sword, with or without the cloak, beats the ogre and keeps its flags |
| StateSpace.Solve | minipt1/minipt1_2/main.cpp:273-313 | within a finite set of states closed under the actions: Some([]) iff the initial state is a target; a returned path is offered at every step and reaches a target, and no path that reaches a target is shorter; None only when no path reaches a target |
| StateSpace.NoShorterSolution | minipt1/minipt1_2/main.cpp:287-309 | when a target is first met on a route one action longer than the route of the state being expanded, no shorter path reaches a target |
| StateSpace.NearRoutes | minipt1/minipt1_2/main.cpp:287-311 | a path no longer than the current level reaches a visited state whose recorded route is no longer than the path |
| StateSpace.QueuePush | minipt1/minipt1_2/main.cpp:292-311 | queueing a state found one action past the current level keeps the queue ordered by route length, within one of the level |
| StateSpace.ReconstructPath | minipt1/minipt1_2/main.cpp:297-306 | following the parent links from the target back to the start and reversing gives the path recorded for the target |
| StateSpace.ReversedTwice | minipt1/minipt1_2/main.cpp:305 | reversing the collected actions twice gives them back |
| StateSpace.ClosedHoldsRuns | minipt1/minipt1_2/main.cpp:287-311 | once every visited state is expanded, every state a path reaches was visited, which gives the None case |
| StateSpace.RecordedAdd | minipt1/minipt1_2/main.cpp:292-295 | visiting a new state and linking it to its parent keeps the links and recorded routes consistent |
| Mazes.Wrap | minipt1/minipt1_2/main.cpp:154-157 | `size_t` arithmetic: values in range are unchanged, one step below zero wraps to 2^64 - 1, one step past wraps to 0 |
| Mazes.PerformMove | minipt1/minipt1_2/main.cpp:150-160 | a step keeps both coordinates within `size_t` |
| Mazes.MoveBack | minipt1/minipt1_2/main.cpp:150-160 | a step followed by the opposite step returns to the start, wrap-around included |
| Mazes.ValidStepIsAdjacent | minipt1/minipt1_2/main.cpp:382-389 | a step between two valid tiles moves to an orthogonally adjacent tile; the wrap-around never crosses the maze |
| LostHero.PossibleActions | minipt1/minipt1_2/main.cpp:237-252 | the directions in the order DOWN, UP, RIGHT, LEFT whose step lands inside the maze and off a wall, and exactly those |
| LostHero.RunIsWalk | minipt1/minipt1_2/main.cpp:228-234 | running the search problem is walking by the rule of the maze |
| LostHero.UniverseClosed | minipt1/minipt1_2/main.cpp:237-252 | the maze cells together with the start are closed under the hero's actions, a finite set the search stays in |
| LostHero.Solve | minipt1/minipt1_2/main.cpp:219-259 | a walk from the hero to an exit, and no walk to an exit is shorter; the empty walk iff the hero starts on an exit; None only when no walk reaches an exit |
| SuperstitiousHero.Actions | minipt1/minipt1_2/main.cpp:355-369 | before a fifth move only UP is offered, if valid; otherwise every valid direction |
| SuperstitiousHero.PossibleActions | minipt1/minipt1_2/main.cpp:355-369 | the loops build exactly Actions |
| SuperstitiousHero.NextState | minipt1/minipt1_2/main.cpp:371-373 | the step is taken and the move count advances by one modulo 5 |
| SuperstitiousHero.RunIsWalk | minipt1/minipt1_2/main.cpp:351-373 | running the search problem is walking by the rule, with the state counting moves modulo 5 |
| SuperstitiousHero.EveryFifthMoveUp | minipt1/minipt1_2/main.cpp:358-363 | the 5th, 10th, ... move of every path the search can follow is UP |
| SuperstitiousHero.Solve | minipt1/minipt1_2/main.cpp:326-390 | a walk by the rule to an exit, and no walk by the rule to an exit is shorter; empty iff the start is an exit; None only when no walk by the rule reaches an exit |
| LimpingKnight.KnightMoveShape | minipt1/minipt1_2/main.cpp:189-208 | away from the edges, the knight actions are exactly the L-shaped jumps, and every other action moves at most one tile |
| LimpingKnight.JumpsAreKnightMoves | minipt1/minipt1_2/main.cpp:456-459 | the jump list holds exactly the actions `is_knight_move` accepts |
| LimpingKnight.IsKnightAction | minipt1/minipt1_2/main.cpp:461-467 | the linear search answers `is_knight_move` |
| LimpingKnight.ActionsMeaning | minipt1/minipt1_2/main.cpp:419-437 | REST is always offered, a valid step always, and a valid jump only when the cooldown is 0 |
| LimpingKnight.PossibleActions | minipt1/minipt1_2/main.cpp:419-437 | the loops build exactly the offered actions, in order |
| LimpingKnight.NextState | minipt1/minipt1_2/main.cpp:439-447 | a jump leaves a cooldown of 7; any other move lowers the cooldown by one, down to 0 |
| LimpingKnight.CooldownBound | minipt1/minipt1_2/main.cpp:439-447 | the cooldown never exceeds 7 on any path the search can follow |
| LimpingKnight.CooldownAfterJump | minipt1/minipt1_2/main.cpp:439-447 | k moves after a jump, with k <= 8, the cooldown is still at least 8 - k |
| LimpingKnight.JumpsAreSpaced | minipt1/minipt1_2/main.cpp:394-400 | two jumps on a path the search can follow are at least 8 moves apart |
| LimpingKnight.Solve | minipt1/minipt1_2/main.cpp:402-478 | from a free start tile: a walk by the rule to an exit, and no walk by the rule to an exit is shorter; empty iff the start is an exit; None only when no walk by the rule reaches an exit |
| BottleProblem.InitialState | minipt1/minipt1_2/main.cpp:515-517 | one empty bottle per capacity |
| BottleProblem.EmptyFillMeaning | minipt1/minipt1_2/main.cpp:522-525 | the first loop offers Empty for exactly the non-empty bottles and Fill for exactly the non-full ones |
| BottleProblem.TransfersUpTo | minipt1/minipt1_2/main.cpp:526-532 | the second loop offers Transfer(i, j) exactly when i != j, bottle i is not empty and bottle j is not full |
| BottleProblem.TransfersFrom | minipt1/minipt1_2/main.cpp:528-531 | the inner loop for source i offers Transfer(i, j) exactly for the targets j != i that are not full |
| BottleProblem.ActionsMeaning | minipt1/minipt1_2/main.cpp:519-534 | `possible_actions` offers exactly the operations that change something |
| BottleProblem.AppendTransfers | minipt1/minipt1_2/main.cpp:528-531 | the inner loop appends the transfers from bottle i |
| BottleProblem.EmptyFillLoop | minipt1/minipt1_2/main.cpp:522-525 | the first loop builds the Empty and Fill offers that EmptyFillMeaning characterises, bottle by bottle |
| BottleProblem.TransferLoop | minipt1/minipt1_2/main.cpp:526-532 | the second loop appends the transfer offers that TransfersUpTo characterises, source bottle by source bottle |
| BottleProblem.PossibleActions | minipt1/minipt1_2/main.cpp:519-534 | the loops build exactly the offered operations, in order |
| BottleProblem.FillEffect | minipt1/minipt1_2/main.cpp:537-539 | Fill sets the bottle to its capacity and touches no other bottle |
| BottleProblem.EmptyEffect | minipt1/minipt1_2/main.cpp:540-542 | Empty sets the bottle to 0 and touches no other bottle |
| BottleProblem.TransferPours | minipt1/minipt1_2/main.cpp:543-549 | a transfer moves the lesser of what the target can still hold and what the source holds, and no `unsigned` value wraps |
| BottleProblem.TransferEffect | minipt1/minipt1_2/main.cpp:543-549 | after a transfer every bottle is within its capacity, the target gains what the source loses, the source is empty or the target full, and no other bottle changes |
| BottleProblem.TransferConserves | minipt1/minipt1_2/main.cpp:543-549 | a transfer conserves the total amount of water |
| BottleProblem.NotOfferedIsIdle | minipt1/minipt1_2/main.cpp:519-551 | an operation that is not offered changes nothing |
| BottleProblem.OfferedFits | minipt1/minipt1_2/main.cpp:536-551 | an offered operation keeps every bottle within its capacity |
| BottleProblem.IsTarget | minipt1/minipt1_2/main.cpp:553-558 | true iff some bottle holds the target amount |
| BottleProblem.RunIsWalk | minipt1/minipt1_2/main.cpp:519-551 | every operation sequence the search can follow obeys the rule, reaches the same state and keeps every bottle within its capacity |
| BottleProblem.WalkIsReachable | minipt1/minipt1_2/main.cpp:519-551 | every state reachable by the rule is reachable by the search with no more operations, after dropping operations that change nothing |
| BottleProblem.Solve | minipt1/minipt1_2/main.cpp:494-563 | operations after which some bottle holds the target, and no sequence of operations reaching the target is shorter; empty iff the target is 0 and there is a bottle; None only when no sequence of operations reaches the target |
| MinHeap.ParentOfChild | minipt3/minipt3_1/sample.cpp:93-99 | parent(child(i, 0)) == i and parent(child(i, 1)) == i; the children are lChild and rChild; a parent index is smaller than its child's; parent(0) wraps to 2^63 - 1 |
| MinHeap.HeapRootIsMin | minipt3/minipt3_1/sample.cpp:229-230 | in a heap, no element is less than the root |
| MinHeap.BinaryHeap.constructor | minipt3/minipt3_1/sample.cpp:53 | an empty heap |
| MinHeap.BinaryHeap.Empty | minipt3/minipt3_1/sample.cpp:56-58 | true iff no element is stored |
| MinHeap.BinaryHeap.Size | minipt3/minipt3_1/sample.cpp:59-61 | the number of stored elements |
| MinHeap.BinaryHeap.Min | minipt3/minipt3_1/sample.cpp:63-67 | out_of_range iff the heap is empty; otherwise data[0], an element of the heap that, when the heap order holds, no element is less than |
| MinHeap.BinaryHeap.Push | minipt3/minipt3_1/sample.cpp:82-85 | one more element, exactly `val` added to the multiset, and the heap order kept |
| MinHeap.BinaryHeap.ExtractMin | minipt3/minipt3_1/sample.cpp:69-80 | out_of_range with the heap unchanged when empty; otherwise the old front, which no element is less than, removed exactly once, size one less, heap order kept |
| MinHeap.BinaryHeap.BubbleDown | minipt3/minipt3_1/sample.cpp:111-125 | from the one element out of place, the swaps restore the heap order and keep the multiset |
| MinHeap.BinaryHeap.BubbleUp | minipt3/minipt3_1/sample.cpp:127-134 | from the one element out of place, the swaps restore the heap order and keep the multiset |
| MinHeap.PushedInv | minipt3/minipt3_1/sample.cpp:83 | after `push_back`, only the new last element can be out of place |
| MinHeap.MovedLastInv | minipt3/minipt3_1/sample.cpp:76-77 | moving the last element to the root leaves only the root out of place, with the old root taken out of the multiset |
| BinaryMultiple.ShortestBinaryMultiple | practise/lecture-1-hw/main.cpp:19-54 | NotPositive iff k <= 0; 1 for k == 1; a found number is divisible by k and written only with the digits 0 and 1, the first being 1, and no such multiple of k has fewer digits; NoSolution only when no such number is divisible by k; at most k + 1 queue pushes |
| BinaryMultiple.PushDigits | practise/lecture-1-hw/main.cpp:43-50 | the digit loop marks the remainders of number * 10 and number * 10 + 1, keeps `visited` equal to the marked set, and queues, in digit order, each of the two numbers whose remainder was not marked before (the second only if its remainder differs from the first's) |
| BinaryMultiple.Digits | practise/lecture-1-hw/main.cpp:3-4 | every number has at least one digit |
| BinaryMultiple.DigitsAppend | practise/lecture-1-hw/main.cpp:43-44 | appending a digit to a positive number adds one digit |
| BinaryMultiple.StepKeeps | practise/lecture-1-hw/main.cpp:34-51 | one round of the main loop on an entry whose remainder is not 0 keeps the loop invariant: the queue ordered by digit count within one of its front, and every seen remainder still queued with its first digit count or expanded |
| BinaryMultiple.FewestDigits | practise/lecture-1-hw/main.cpp:35-40 | when the front of the queue has remainder 0, no 0-1 number with fewer digits than the front's number is divisible by k |
| BinaryMultiple.RemainderStep | practise/lecture-1-hw/main.cpp:44-45 | the remainder of number * 10 + digit depends only on the remainder of the number |
| BinaryMultiple.AppendDigit | practise/lecture-1-hw/main.cpp:43-44 | appending 0 or 1 keeps a number written in 0 and 1 |
| BinaryMultiple.EveryRemainderSeen | practise/lecture-1-hw/main.cpp:34-51 | a 0-1 number no longer than the numbers in the queue has a seen remainder, first found with no more digits than the number has |
| BinaryMultiple.NoBinaryMultiple | practise/lecture-1-hw/main.cpp:52 | when the queue runs dry, no 0-1 number is divisible by k |
| NameOrder.LessIrreflexive | pt2/sample.cpp:179-181 | no name is less than itself |
| NameOrder.LessAsymmetric | pt2/sample.cpp:179-181 | of two names, at most one is less than the other |
| NameOrder.LessTransitive | pt2/sample.cpp:179-181 | the order of names is transitive |
| NameOrder.LessTotal | pt2/sample.cpp:179-185 | two names are equal or one is less than the other, so the three branches of `add_impl` cover every case |
| Army.UpdateHeight | pt2/sample.cpp:123-125 | a node over subtrees with correct heights has a correct height afterwards |
| Army.RotateRightFacts | pt2/sample.cpp:130-138 | the right rotation leaves correct heights, and in a search tree keeps the order and the hobbits |
| Army.RotateLeftFacts | pt2/sample.cpp:140-148 | the left rotation leaves correct heights, and in a search tree keeps the order and the hobbits |
| Army.RotatedOrder | pt2/sample.cpp:130-148 | the two shapes a rotation changes between hold the same hobbits, and one is ordered iff the other is |
| Army.RebalanceFacts | pt2/sample.cpp:150-166 | over AVL subtrees whose heights differ by at most two: an AVL node with the same hobbits, as high as `updateHeight` makes it or one less, unchanged apart from its height when already balanced |
| Army.RebalanceKeepsOrder | pt2/sample.cpp:150-166 | rebalancing keeps the search-tree order and the hobbits |
| Army.LeftDouble | pt2/sample.cpp:153-158 | a left-heavy node whose left child leans right becomes balanced after the two rotations, one lower than the node's updated height |
| Army.LeftSingle | pt2/sample.cpp:153-158 | a left-heavy node whose left child does not lean right becomes balanced after the right rotation |
| Army.RightDouble | pt2/sample.cpp:159-164 | the mirror case of LeftDouble |
| Army.RightSingle | pt2/sample.cpp:159-164 | the mirror case of LeftSingle |
| Army.FindFacts | pt2/sample.cpp:219-226 | in a search tree, `find` answers the hobbit stored under the name, or nothing iff there is none |
| Army.FindMinFacts | pt2/sample.cpp:168-172 | the leftmost hobbit is in the tree and has the least name |
| Army.InsertFacts | pt2/sample.cpp:174-189 | adding to an AVL tree gives an AVL tree; success iff the name was absent, and then the hobbit is added; otherwise the tree is unchanged and the stored hobbit not overwritten; the height grows by at most one |
| Army.InsertLeft | pt2/sample.cpp:179-188 | adding into the left subtree and rebalancing meets the contract of InsertFacts |
| Army.InsertRight | pt2/sample.cpp:181-188 | adding into the right subtree and rebalancing meets the contract of InsertFacts |
| Army.RemoveFacts | pt2/sample.cpp:191-217 | erasing from an AVL tree gives an AVL tree without the name; it reports the stored hobbit, or nothing when the name is absent and the tree is then unchanged; the height drops by at most one |
| Army.RemoveLeft | pt2/sample.cpp:193-195 | erasing from the left subtree and rebalancing meets the contract of RemoveFacts |
| Army.RemoveRight | pt2/sample.cpp:196-198 | erasing from the right subtree and rebalancing meets the contract of RemoveFacts |
| Army.RemoveLeaf | pt2/sample.cpp:202-210 | erasing the name at a node with at most one child, which takes that child's place, meets the erase contract of RemoveFacts |
| Army.RemoveInner | pt2/sample.cpp:211-216 | erasing the name at a node with two children, which takes the least hobbit of the right subtree, meets the erase contract of RemoveFacts |
| Army.EmptyRange | pt2/sample.cpp:97 | no name lies in a range whose first name is greater than its last |
| Army.EnchantNone | pt2/sample.cpp:236-241 | a subtree with no name in the range, which the pruning skips, would not have changed |
| Army.EnchantShape | pt2/sample.cpp:228-242 | enchanting keeps every name, child and height |
| Army.EnchantFacts | pt2/sample.cpp:228-242 | in a search tree, exactly the hobbits whose names are in [first, last] get the three differences, the others are unchanged, and the order is kept |
| Army.InOrderFacts | pt2/sample.cpp:107-112 | the in-order traversal lists every hobbit of the tree once, with strictly increasing names |
| Army.HobbitArmy.constructor | pt2/sample.cpp:64 | an empty army |
| Army.HobbitArmy.Add | pt2/sample.cpp:71-76 | true iff hp > 0 and the name is not taken; then the hobbit joins; otherwise the army is unchanged |
| Army.HobbitArmy.Erase | pt2/sample.cpp:78-82 | the stored hobbit of that name or nothing, and afterwards the name is absent and every other hobbit remains |
| Army.HobbitArmy.Stats | pt2/sample.cpp:84-88 | the stored hobbit of that name iff there is one |
| Army.HobbitArmy.Enchant | pt2/sample.cpp:90-100 | always true; the hobbits in [first, last] get the differences and the others are unchanged; the tree is untouched when first > last |
| Army.HobbitArmy.ForEach | pt2/sample.cpp:102-104 | the callback sees every hobbit of the army once, by strictly increasing name |

## Left out

- Input and output (`print_path`, the `cin`/`cout` of the binary-multiple program) and the test drivers are not modelled. The tests only shaped the properties.
- `StateHash` and `State::operator<` of the treasure hunt are left out. Visited sets and parent maps compare states by value.
- C++ `int` overflow is left out: in combat, in `calcFighterStats`, in `number * 10` of the binary-multiple search and in `enchant`.
- Raw pointers are left out: `deleteTree`, the destructor, the deleted copy operations, and `new`/`delete` in `HobbitArmy`. Nodes are values. Each recursive operation returns the rebuilt subtree instead of rewriting fields in place, and `HobbitArmy` reassigns `root`. Aliasing between nodes is not modelled.
- The `erased` argument of `erase_impl` is always empty when `erase` calls it, and the inner call passes a fresh `dummy`. So `has_value()` never holds at that point, and the model always reports the node's hobbit.
- Names compare as sequences of Dafny `char`, that is by character code. `std::string` compares `char` values, which may be signed.
- `MinHeap` models `BinaryHeap<int>` with `std::less`. Other element types and comparators are left out. `size_t` overflow of `2 * parent + 1` is left out.
- `std::variant` dispatch is replaced by datatypes (`Action`, `BottleOp`).
- TreasureSearch.FindShortestPath: proves termination, that a non-empty result is a solution, and that the result is the one `Search` returns. It does not promise that the path is shortest, because it is not. Item successors go to the front of the deque at no cost, and every state is marked visited when it is first queued, so a state reached by a longer path can claim the states later rooms need. The exit test then fires at the first dequeued state in an entrance with the treasure. `TreasureExamples.DetourNotShortest` proves this on a three-room dungeon: the search returns [Move(0), Pickup(0), Move(1), Move(2), Move(1)] (four rooms), while [Move(1), Pickup(0), Move(2), Move(1)] (three rooms) is a solution. The item loop and the exit test are those of pt1/sample.cpp:347-383, and check_solution (pt1/sample.cpp:411-478) compares the room count with the expected one. A search that does return shortest paths is not part of this model. Nor is a proof that an empty result means no solution exists.
- SearchSpace.Play: it is more permissive than the search, so a returned path satisfies it but not every path it accepts can be returned. A drop may name any held type, while the search drops only the type of an item lying in the room. And `PlayStep` runs the encounter (`Process`) only after a move, while the search re-runs it on every dequeued state, including the item successors queued at pt1/sample.cpp:357, 365 and 371. `TreasureExamples.ReplayMorePermissive` shows a solution that swaps a sword for a weaker weapon next to a monster.
- SearchSpace.WellFormed: inputs the search assumes but does not check are not modelled. Every monster has hp > 0, as the assert in `turns_to_kill` demands (pt1/sample.cpp:79). There are fewer than SIZE_MAX rooms, so no room id is the `OUT_STATE` marker (pt1/sample.cpp:298-299, 261). Every neighbour and entrance index names a room, since they are used as indices unchecked.
- BinaryMultiple.ShortestBinaryMultiple: leaves unproved that NoSolution never happens (a 0-1 multiple always exists). It proves the fewest digits the source asks for. Among the multiples with that many digits, it does not prove which one is found. The search never marks the start remainder 1, so that remainder can be queued once more, and the bound is k + 1 pushes.
- StateSpace.Solve: its finite set of states closed under the actions is a ghost parameter. Each problem's Solve supplies one (the maze cells, or the volumes within the capacities).
- LostHero.Solve: when the start lies outside the maze, the source's `is_target` reads out of bounds. The model's exit test answers false there.
- BottleProblem.NextState: an operation naming a bottle past the end would index out of bounds in the source. The model leaves the state unchanged. A capacity past the end counts as 0, which cannot happen from the initial state.
- LimpingKnight.Solve: the returned walk, and the claim that no walk reaches an exit, are stated only for a start on a free tile inside the maze. REST is always offered, so from a start on a wall the search can rest in place on that tile, and Walk, which requires every visited tile to be free, rejects such a path.
- `Item::Type::TYPE_COUNT` is a count, not an item type. The model has the three item types only.

## Findings

| source | as written | input that shows it | evidently intended | confidence | as-written member | corrected member |
|---|---|---|---|---|---|---|
| pt1/sample.cpp:361-375 | the drop branch pushes the dropped state and the re-picked state without marking them visited | three rooms: entrance 0 holds a sword and leads to room 1; room 1 holds an ogre only the sword beats, a cloak and a second sword; the treasure room 2 is unreachable | every pushed state is marked visited, so the search ends and reports no path | not executed | TreasureAsWritten.AsWrittenRunsForever | TreasureSearch.FindShortestPath |
| pt1/sample.cpp:252-267 | parent links name `current` after its treasure and stealth flags were updated, so that state is not a key; the path is rebuilt from it, and the seed's entrance move is never emitted | two rooms 0 and 1 joined both ways, entrance 0, treasure in room 1: the result is [Move(0)], which is no solution, while [Move(0), Move(1), Move(0)] is one; a single room that is entrance and treasure room gives [] although [Move(0)] is a solution | links name the dequeued state, and the path starts with the move into the entrance, so a returned path is a solution | not executed | TreasureAsWritten.AsWrittenTruncatesPath | TreasureSearch.FindShortestPath |
| pt1/sample.cpp:385-394 | move successors are linked to `current`, the processed state, which is never marked visited itself, so it can be queued again later and linked onward: the links can form a cycle, and `reconstructPath` then never ends | rooms 0 → 1 → 2 → {1, 0}, entrance 0, treasure in room 1: the flagged states of rooms 1 and 2 end up linked to each other, and rebuilding from room 0 runs round them, although [Move(0), Move(1), Move(2), Move(0)] is a solution | links name the dequeued state, each linked once when first queued, so rebuilding follows the recorded paths back to a seed and ends | not executed | TreasureAsWritten.AsWrittenLoopsOnCycle | TreasureSearch.RebuildLinked |
