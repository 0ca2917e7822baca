/**
 * `find_shortest_path` and `reconstructPath` (pt1/sample.cpp), corrected as described in
 * README.md under "Findings": parent links name the dequeued state, every discovered
 * state is marked visited, and the reconstructed path starts with the entrance move.
 * The search is a 0-1 breadth-first search over `State`s: item actions cost nothing and
 * are pushed at the front of the deque, moves are pushed at the back.
 */
module TreasureSearch {
  import opened Wrappers
  import opened Combat
  import opened Dungeon
  import opened Loadout
  import opened SearchSpace

  /** The pseudo-parent of the seed states. */
  const OUT_STATE := State(SIZE_MAX, false, [], false)

  datatype ParentInfo = ParentInfo(parent: State, action: Action)

  /** The search's bookkeeping: the deque, the visited set and the parent links. */
  datatype Frontier = Frontier(q: seq<State>, visited: set<State>, parents: map<State, ParentInfo>)

  /** The hero's state `p` after replaying a path stands for the processed state `c`: the
      same room and loadout, the treasure whenever `c` has it, and no sneaking whenever
      `c` did not sneak. */
  predicate Covers(p: State, c: State) {
    && p.room == c.room && p.equipped == c.equipped
    && (c.hasTreasure ==> p.hasTreasure)
    && (!c.usedStealth ==> !p.usedStealth)
  }

  /** `Covers` for a state `s` that is not processed yet: when the hero did not sneak, it
      also holds the treasure in the treasure room, so processing `s` raises no flag the
      replay lacks. */
  predicate CoversPending(treasure: nat, p: State, s: State) {
    && p.room == s.room && p.equipped == s.equipped
    && (s.hasTreasure ==> p.hasTreasure)
    && (!s.usedStealth ==> !p.usedStealth && (s.room == treasure ==> p.hasTreasure))
  }

  /** `pathTo[s]` is a path the hero can play, and once `s` survives its encounter the
      replay of the path stands for the processed state. */
  ghost predicate Reached(rooms: seq<Room>, entrances: seq<nat>, treasure: nat, s: State, path: seq<Action>) {
    && Enterable(rooms, s.room)
    && (Process(rooms, treasure, s).Some? ==>
          Play(rooms, entrances, treasure, path).Some? &&
          Covers(Play(rooms, entrances, treasure, path).value, Process(rooms, treasure, s).value))
  }

  /** `pathTo'` keeps the paths recorded for the states of `visited`. */
  ghost predicate Keeps(visited: set<State>, pathTo: map<State, seq<Action>>, pathTo': map<State, seq<Action>>) {
    && visited <= pathTo.Keys
    && forall s :: s in visited ==> s in pathTo' && pathTo'[s] == pathTo[s]
  }

  /** Following the parent links from `s` and collecting the actions yields `pathTo[s]`. */
  ghost predicate Linked(parents: map<State, ParentInfo>, pathTo: map<State, seq<Action>>) {
    && parents.Keys <= pathTo.Keys
    && forall s {:trigger parents[s]} | s in parents ::
         if parents[s].parent.room == SIZE_MAX then pathTo[s] == [parents[s].action]
         else parents[s].parent in parents && pathTo[s] == pathTo[parents[s].parent] + [parents[s].action]
  }

  /** What the search keeps: the queue holds visited states, every visited state is sound
      and reached along its recorded path, and the parent links rebuild those paths. */
  ghost predicate Inv(rooms: seq<Room>, entrances: seq<nat>, treasure: nat, f: Frontier, pathTo: map<State, seq<Action>>) {
    && f.visited == f.parents.Keys
    && (forall i :: 0 <= i < |f.q| ==> f.q[i] in f.visited)
    && AllReached(rooms, entrances, treasure, f.visited, pathTo)
    && Linked(f.parents, pathTo)
  }

  /** What the invariant says of one visited state. */
  lemma InvAt(rooms: seq<Room>, entrances: seq<nat>, treasure: nat, f: Frontier, pathTo: map<State, seq<Action>>, s: State)
    requires Inv(rooms, entrances, treasure, f, pathTo) && s in f.visited
    ensures s in pathTo && s in f.parents
    ensures Sound(rooms, s) && Reached(rooms, entrances, treasure, s, pathTo[s])
  {
    assert s in pathTo;
    assert pathTo[s] == pathTo[s];
  }

  /** A finite set holding every sound state (`Universe(rooms)`). */
  lemma BoundingSet(rooms: seq<Room>) returns (universe: set<State>)
    ensures forall s :: Sound(rooms, s) ==> s in universe
  {
    universe := Universe(rooms);
    forall s | Sound(rooms, s) ensures s in universe {
      SoundInUniverse(rooms, s);
    }
  }

  lemma VisitedInUniverse(rooms: seq<Room>, universe: set<State>, visited: set<State>)
    requires forall s :: Sound(rooms, s) ==> s in universe
    requires forall s | s in visited :: Sound(rooms, s)
    ensures visited <= universe
  {
  }

  /** A replay that covers a pending state covers it once it is processed. */
  lemma PendingReached(rooms: seq<Room>, entrances: seq<nat>, treasure: nat, s: State, path: seq<Action>)
    requires Enterable(rooms, s.room)
    requires Play(rooms, entrances, treasure, path).Some?
    requires CoversPending(treasure, Play(rooms, entrances, treasure, path).value, s)
    ensures Reached(rooms, entrances, treasure, s, path)
  {
  }

  /** A replay that covers the processed state `c` of `s` also covers `c` as a pending state:
      the encounter already raised the treasure flag if it could. */
  lemma CoversProcessed(rooms: seq<Room>, treasure: nat, s: State, p: State)
    requires Enterable(rooms, s.room) && Process(rooms, treasure, s).Some?
    requires Covers(p, Process(rooms, treasure, s).value)
    ensures CoversPending(treasure, p, Process(rooms, treasure, s).value)
  {
  }

  /** A move from the processed state `c`, played after a path whose replay covers `c`, is
      a path to the move successor: both sides meet the same monster with the same
      loadout, and the replay holds the treasure at least as often. */
  lemma MoveReached(rooms: seq<Room>, entrances: seq<nat>, treasure: nat, path: seq<Action>, p: State, c: State, n: nat)
    requires Play(rooms, entrances, treasure, path) == Some(p) && CoversPending(treasure, p, c)
    requires c.room < |rooms| && n in rooms[c.room].neighbors && Enterable(rooms, n)
    ensures Reached(rooms, entrances, treasure, MoveSuccessor(c, n), path + [Move(n)])
  {
    PlayAppend(rooms, entrances, treasure, path, Move(n));
    var x, y := MoveSuccessor(c, n), MoveSuccessor(p, n);
    assert Play(rooms, entrances, treasure, path + [Move(n)]) == Process(rooms, treasure, y);
    assert Process(rooms, treasure, x).Some? <==> Process(rooms, treasure, y).Some?;
  }

  /** Picking up item `i` after a path whose replay covers the pending state `s`. */
  lemma PickupReached(rooms: seq<Room>, entrances: seq<nat>, treasure: nat, path: seq<Action>, p: State, s: State, i: nat)
    requires Play(rooms, entrances, treasure, path) == Some(p) && CoversPending(treasure, p, s)
    requires Enterable(rooms, s.room) && i < |rooms[s.room].items| && !s.usedStealth
    requires !HasType(s.equipped, rooms[s.room].items[i].itemType)
    ensures Play(rooms, entrances, treasure, path + [Pickup(i)]) == Some(EquipItem(p, rooms[s.room].items[i]))
    ensures CoversPending(treasure, EquipItem(p, rooms[s.room].items[i]), EquipItem(s, rooms[s.room].items[i]))
    ensures Reached(rooms, entrances, treasure, EquipItem(s, rooms[s.room].items[i]), path + [Pickup(i)])
  {
    PlayAppend(rooms, entrances, treasure, path, Pickup(i));
  }

  /** Dropping an equipped type after a path whose replay covers the pending state `s`. */
  lemma DropReached(rooms: seq<Room>, entrances: seq<nat>, treasure: nat, path: seq<Action>, p: State, s: State, t: ItemType)
    requires Play(rooms, entrances, treasure, path) == Some(p) && CoversPending(treasure, p, s)
    requires Enterable(rooms, s.room) && HasType(s.equipped, t)
    ensures Play(rooms, entrances, treasure, path + [Drop(t)]) == Some(DropItem(p, t))
    ensures CoversPending(treasure, DropItem(p, t), DropItem(s, t))
    ensures Reached(rooms, entrances, treasure, DropItem(s, t), path + [Drop(t)])
  {
    PlayAppend(rooms, entrances, treasure, path, Drop(t));
  }

  /** Linking a new state to a non-seed parent keeps the links consistent. */
  lemma LinkedAdd(parents: map<State, ParentInfo>, pathTo: map<State, seq<Action>>, x: State, p: State, a: Action)
    requires Linked(parents, pathTo) && x !in parents && p in parents && p.room != SIZE_MAX
    ensures Linked(parents[x := ParentInfo(p, a)], pathTo[x := pathTo[p] + [a]])
  {
    var parents', pathTo' := parents[x := ParentInfo(p, a)], pathTo[x := pathTo[p] + [a]];
    forall s | s in parents'
      ensures if parents'[s].parent.room == SIZE_MAX then pathTo'[s] == [parents'[s].action]
              else parents'[s].parent in parents' && pathTo'[s] == pathTo'[parents'[s].parent] + [parents'[s].action]
    {
      if s != x {
        assert parents'[s] == parents[s];
      }
    }
  }

  /** Pushing a visited state keeps every queued state visited. */
  lemma QueuedVisited(q: seq<State>, visited: set<State>, x: State, front: bool)
    requires forall i :: 0 <= i < |q| ==> q[i] in visited
    ensures var q' := if front then [x] + q else q + [x];
            forall i :: 0 <= i < |q'| ==> q'[i] in visited + {x}
  {
    var q' := if front then [x] + q else q + [x];
    forall i | 0 <= i < |q'| ensures q'[i] in visited + {x} {
      if front && i > 0 { assert q'[i] == q[i - 1]; }
      if !front && i < |q| { assert q'[i] == q[i]; }
    }
  }

  /** Every state of `visited` is sound and reached along its recorded path. */
  ghost predicate AllReached(rooms: seq<Room>, entrances: seq<nat>, treasure: nat, visited: set<State>, pathTo: map<State, seq<Action>>) {
    && visited <= pathTo.Keys
    && forall s {:trigger pathTo[s]} | s in visited :: Sound(rooms, s) && Reached(rooms, entrances, treasure, s, pathTo[s])
  }

  /** A new state reached from a visited one by a possible action keeps `AllReached`. */
  lemma AllReachedAdd(rooms: seq<Room>, entrances: seq<nat>, treasure: nat, visited: set<State>,
                      pathTo: map<State, seq<Action>>, x: State, p: State, a: Action)
    requires AllReached(rooms, entrances, treasure, visited, pathTo)
    requires p in visited && x !in visited && Sound(rooms, x)
    requires Reached(rooms, entrances, treasure, x, pathTo[p] + [a])
    ensures AllReached(rooms, entrances, treasure, visited + {x}, pathTo[x := pathTo[p] + [a]])
  {
    var pathTo' := pathTo[x := pathTo[p] + [a]];
    forall s | s in visited + {x}
      ensures Sound(rooms, s) && Reached(rooms, entrances, treasure, s, pathTo'[s])
    {
      if s != x {
        assert pathTo'[s] == pathTo[s];
      }
    }
  }

  /** Adding a new state reached from a visited one by a possible action keeps `Inv`. */
  lemma InvAdd(rooms: seq<Room>, entrances: seq<nat>, treasure: nat,
               f: Frontier, pathTo: map<State, seq<Action>>, x: State, p: State, a: Action, front: bool)
    requires |rooms| < SIZE_MAX
    requires Inv(rooms, entrances, treasure, f, pathTo)
    requires p in f.visited && x !in f.visited && Sound(rooms, x)
    requires Reached(rooms, entrances, treasure, x, pathTo[p] + [a])
    ensures Inv(rooms, entrances, treasure,
                Frontier(if front then [x] + f.q else f.q + [x], f.visited + {x}, f.parents[x := ParentInfo(p, a)]),
                pathTo[x := pathTo[p] + [a]])
  {
    AllReachedAdd(rooms, entrances, treasure, f.visited, pathTo, x, p, a);
    InvAt(rooms, entrances, treasure, f, pathTo, p);
    LinkedAdd(f.parents, pathTo, x, p, a);
    QueuedVisited(f.q, f.visited, x, front);
  }

  /** Discovering `x` from the visited state `p` by the action `a` (lines 356-359, 364-366,
      370-373 and 389-392): a state not yet visited is queued, at the front for item actions
      and at the back for moves, linked to `p`, and marked visited. */
  method Discover(ghost rooms: seq<Room>, ghost entrances: seq<nat>, ghost treasure: nat,
                  f: Frontier, ghost pathTo: map<State, seq<Action>>,
                  x: State, p: State, a: Action, front: bool)
    returns (f': Frontier, ghost pathTo': map<State, seq<Action>>)
    requires |rooms| < SIZE_MAX
    requires Inv(rooms, entrances, treasure, f, pathTo)
    requires p in f.visited && Sound(rooms, x)
    requires Reached(rooms, entrances, treasure, x, pathTo[p] + [a])
    ensures Inv(rooms, entrances, treasure, f', pathTo')
    ensures f' == Discovered(f, x, p, a, front)
    ensures pathTo' == if x in f.visited then pathTo else pathTo[x := pathTo[p] + [a]]
    ensures Keeps(f.visited, pathTo, pathTo')
    ensures f'.visited == f.visited + {x}
    ensures |f'.q| + |f.visited| <= |f.q| + |f'.visited|
  {
    if x in f.visited {
      assert f.visited + {x} == f.visited;
      f', pathTo' := f, pathTo;
      return;
    }
    InvAdd(rooms, entrances, treasure, f, pathTo, x, p, a, front);
    var q := if front then [x] + f.q else f.q + [x];
    f' := Frontier(q, f.visited + {x}, f.parents[x := ParentInfo(p, a)]);
    pathTo' := pathTo[x := pathTo[p] + [a]];
    KeepsAdd(f.visited, pathTo, x, pathTo[p] + [a]);
  }

  lemma KeepsAdd(visited: set<State>, pathTo: map<State, seq<Action>>, x: State, path: seq<Action>)
    requires visited <= pathTo.Keys && x !in visited
    ensures Keeps(visited, pathTo, pathTo[x := path])
  {
  }

  // ---------------------------------------------------------------------------------
  // The item loop (lines 347-377)

  /** The state the item loop tries first for item `idx`: picking it up when no item of
      its type is equipped and the hero did not sneak in, dropping the equipped item of
      its type otherwise. */
  function PrimarySuccessor(rooms: seq<Room>, c: State, idx: nat): Option<State> {
    if c.room >= |rooms| || idx >= |rooms[c.room].items| then None
    else
    var item := rooms[c.room].items[idx];
    if !HasType(c.equipped, item.itemType) && !c.usedStealth then Some(EquipItem(c, item))
    else if HasType(c.equipped, item.itemType) then Some(DropItem(c, item.itemType))
    else None
  }

  /** The swap the item loop also tries: drop the equipped item of that type, then pick
      this one up (only when the hero did not sneak in). */
  function RepickSuccessor(rooms: seq<Room>, c: State, idx: nat): Option<State> {
    if c.room >= |rooms| || idx >= |rooms[c.room].items| then None
    else
    var item := rooms[c.room].items[idx];
    if HasType(c.equipped, item.itemType) && !c.usedStealth then Some(EquipItem(DropItem(c, item.itemType), item))
    else None
  }

  /** The value of an option as a set of at most one element. */
  function OptSet<T>(o: Option<T>): (r: set<T>)
    ensures o.None? <==> r == {}
    ensures o.Some? ==> o.value in r
  {
    match o
    case None => {}
    case Some(x) => {x}
  }

  /** The states the item loop may add for item `idx`. */
  ghost function Candidates(rooms: seq<Room>, c: State, idx: nat): set<State>
  {
    OptSet(PrimarySuccessor(rooms, c, idx)) + OptSet(RepickSuccessor(rooms, c, idx))
  }

  /** Item `idx`'s first-tried successor is in `v2`, and `v2` adds only its candidates to `v1`. */
  ghost predicate ItemDone(rooms: seq<Room>, c: State, v1: set<State>, v2: set<State>, idx: nat)
  {
    OptSet(PrimarySuccessor(rooms, c, idx)) <= v2 <= v1 + Candidates(rooms, c, idx)
  }

  /** What one round of the item loop does to the visited set: a missing type is picked
      up unless the hero sneaked in; a held type is dropped and, unless the hero sneaked
      in, this item is picked up after the drop. */
  ghost predicate ItemOutcome(rooms: seq<Room>, c: State, v1: set<State>, v2: set<State>, idx: nat)
    requires c.room < |rooms| && idx < |rooms[c.room].items|
  {
    var item := rooms[c.room].items[idx];
    var dropped := DropItem(c, item.itemType);
    if !HasType(c.equipped, item.itemType) then v2 == v1 + (if c.usedStealth then {} else {EquipItem(c, item)})
    else dropped in v2 && v1 <= v2 <= v1 + {dropped} + (if c.usedStealth then {} else {EquipItem(dropped, item)})
  }

  /** The outcome of a round is the bookkeeping `ItemDone` asks for. */
  lemma ItemOutcomeDone(rooms: seq<Room>, c: State, v1: set<State>, v2: set<State>, idx: nat)
    requires c.room < |rooms| && idx < |rooms[c.room].items|
    requires ItemOutcome(rooms, c, v1, v2, idx)
    ensures v1 <= v2 && ItemDone(rooms, c, v1, v2, idx)
  {
  }

  /** One round of the item loop, for item `itemIndex` of the room. */
  method ItemStep(rooms: seq<Room>, ghost entrances: seq<nat>, ghost treasure: nat,
                  f: Frontier, ghost pathTo: map<State, seq<Action>>, popped: State, c: State, itemIndex: nat,
                  ghost p: State)
    returns (f': Frontier, ghost pathTo': map<State, seq<Action>>)
    requires WellFormed(rooms, entrances)
    requires Inv(rooms, entrances, treasure, f, pathTo) && popped in f.visited && Sound(rooms, c)
    requires itemIndex < |rooms[c.room].items|
    requires Play(rooms, entrances, treasure, pathTo[popped]) == Some(p) && CoversPending(treasure, p, c)
    ensures Inv(rooms, entrances, treasure, f', pathTo')
    ensures f.visited <= f'.visited && Keeps(f.visited, pathTo, pathTo')
    ensures |f'.q| + |f.visited| <= |f.q| + |f'.visited|
    ensures ItemOutcome(rooms, c, f.visited, f'.visited, itemIndex)
    ensures f' == ItemRound(rooms, popped, c, f, itemIndex)
  {
    f', pathTo' := f, pathTo;
    var item := rooms[c.room].items[itemIndex];
    var next := c;
    var haveThisType := FindType(next.equipped, item.itemType) < |next.equipped|;
    if !haveThisType && !c.usedStealth {
      f', pathTo' := PickUp(rooms, entrances, treasure, f', pathTo', popped, c, itemIndex, p);
    } else if haveThisType {
      f', pathTo' := DropAndRepick(rooms, entrances, treasure, f', pathTo', popped, c, itemIndex, p);
    }
  }

  /** The branch of the item loop for an item whose type is already equipped (lines
      361-375): drop the equipped one and, unless the hero sneaked in, pick this one up. */
  method DropAndRepick(rooms: seq<Room>, ghost entrances: seq<nat>, ghost treasure: nat,
                       f: Frontier, ghost pathTo: map<State, seq<Action>>, popped: State, c: State, itemIndex: nat,
                       ghost p: State)
    returns (f': Frontier, ghost pathTo': map<State, seq<Action>>)
    requires WellFormed(rooms, entrances)
    requires Inv(rooms, entrances, treasure, f, pathTo) && popped in f.visited && Sound(rooms, c)
    requires itemIndex < |rooms[c.room].items|
    requires Play(rooms, entrances, treasure, pathTo[popped]) == Some(p) && CoversPending(treasure, p, c)
    requires HasType(c.equipped, rooms[c.room].items[itemIndex].itemType)
    ensures Inv(rooms, entrances, treasure, f', pathTo')
    ensures f.visited <= f'.visited && Keeps(f.visited, pathTo, pathTo')
    ensures |f'.q| + |f.visited| <= |f.q| + |f'.visited|
    ensures DropItem(c, rooms[c.room].items[itemIndex].itemType) in f'.visited
    ensures f' == ItemRound(rooms, popped, c, f, itemIndex)
    ensures var dropped := DropItem(c, rooms[c.room].items[itemIndex].itemType);
            f'.visited <= f.visited + {dropped} + (if c.usedStealth then {} else {EquipItem(dropped, rooms[c.room].items[itemIndex])})
  {
    f', pathTo' := f, pathTo;
    var item := rooms[c.room].items[itemIndex];
    var temp := c;
    temp := DropItem(temp, item.itemType);
    if temp !in f'.visited {
      DropItemSound(rooms, c, item.itemType);
      DropItemMeaning(c, item.itemType);
      DropReached(rooms, entrances, treasure, pathTo[popped], p, c, item.itemType);
      f', pathTo' := Discover(rooms, entrances, treasure, f', pathTo', temp, popped, Drop(item.itemType), true);
      if !c.usedStealth {
        f', pathTo' := PickUp(rooms, entrances, treasure, f', pathTo', temp, temp, itemIndex, DropItem(p, item.itemType));
      }
    }
  }

  /** Picking up item `itemIndex` of the room from state `s`, recorded as reached from
      the visited state `parent` (lines 351-359 and 370-374); the new state goes to the
      front. `p` is the replay of the path recorded for `parent`. */
  method PickUp(rooms: seq<Room>, ghost entrances: seq<nat>, ghost treasure: nat,
                f: Frontier, ghost pathTo: map<State, seq<Action>>, parent: State, s: State, itemIndex: nat,
                ghost p: State)
    returns (f': Frontier, ghost pathTo': map<State, seq<Action>>)
    requires WellFormed(rooms, entrances)
    requires Inv(rooms, entrances, treasure, f, pathTo) && parent in f.visited && Sound(rooms, s)
    requires itemIndex < |rooms[s.room].items| && !s.usedStealth
    requires !HasType(s.equipped, rooms[s.room].items[itemIndex].itemType)
    requires Play(rooms, entrances, treasure, pathTo[parent]) == Some(p) && CoversPending(treasure, p, s)
    ensures Inv(rooms, entrances, treasure, f', pathTo')
    ensures f'.visited == f.visited + {EquipItem(s, rooms[s.room].items[itemIndex])}
    ensures f' == Discovered(f, EquipItem(s, rooms[s.room].items[itemIndex]), parent, Pickup(itemIndex), true)
    ensures Keeps(f.visited, pathTo, pathTo')
    ensures |f'.q| + |f.visited| <= |f.q| + |f'.visited|
  {
    var next := s;
    next := EquipItem(next, rooms[s.room].items[itemIndex]);
    EquipRoomItemSound(rooms, s, itemIndex);
    PickupReached(rooms, entrances, treasure, pathTo[parent], p, s, itemIndex);
    f', pathTo' := Discover(rooms, entrances, treasure, f, pathTo, next, parent, Pickup(itemIndex), true);
  }

  /** The union of `F(k)` for every `k` below `n`. */
  ghost function UnionUpTo<T>(F: nat -> set<T>, n: nat): set<T>
  {
    if n == 0 then {} else UnionUpTo(F, n - 1) + F(n - 1)
  }

  /** `UnionUpTo` holds exactly the members of the sets it collects. */
  lemma {:induction false} UnionUpToMeaning<T>(F: nat -> set<T>, n: nat, x: T)
    ensures x in UnionUpTo(F, n) <==> exists k :: 0 <= k < n && x in F(k)
  {
    if n > 0 {
      UnionUpToMeaning(F, n - 1, x);
      if x in F(n - 1) {
        assert 0 <= n - 1 < n && x in F(n - 1);
      }
    }
  }

  /** The first-tried successors of the first `n` items. */
  ghost function Primaries(rooms: seq<Room>, c: State, n: nat): set<State>
  {
    UnionUpTo((k: nat) => OptSet(PrimarySuccessor(rooms, c, k)), n)
  }

  /** Every state the item loop may add for the first `n` items. */
  ghost function AllCandidates(rooms: seq<Room>, c: State, n: nat): set<State>
  {
    UnionUpTo((k: nat) => Candidates(rooms, c, k), n)
  }

  lemma ItemLoopStep(rooms: seq<Room>, c: State, v0: set<State>, v1: set<State>, v2: set<State>, n: nat)
    requires v0 + Primaries(rooms, c, n) <= v1 <= v0 + AllCandidates(rooms, c, n)
    requires v1 <= v2 && ItemDone(rooms, c, v1, v2, n)
    ensures v0 + Primaries(rooms, c, n + 1) <= v2 <= v0 + AllCandidates(rooms, c, n + 1)
  {
  }

  /** The item loop for the processed state `c` of the dequeued state `popped`: every
      first-tried successor ends up visited, and nothing but item successors is added. */
  method ExpandItems(rooms: seq<Room>, ghost entrances: seq<nat>, ghost treasure: nat,
                     f: Frontier, ghost pathTo: map<State, seq<Action>>, popped: State, c: State, ghost p: State)
    returns (f': Frontier, ghost pathTo': map<State, seq<Action>>)
    requires WellFormed(rooms, entrances)
    requires Inv(rooms, entrances, treasure, f, pathTo) && popped in f.visited && Sound(rooms, c)
    requires Play(rooms, entrances, treasure, pathTo[popped]) == Some(p) && CoversPending(treasure, p, c)
    ensures Inv(rooms, entrances, treasure, f', pathTo')
    ensures f.visited <= f'.visited && Keeps(f.visited, pathTo, pathTo')
    ensures |f'.q| + |f.visited| <= |f.q| + |f'.visited|
    ensures f.visited + Primaries(rooms, c, |rooms[c.room].items|) <= f'.visited
    ensures f'.visited <= f.visited + AllCandidates(rooms, c, |rooms[c.room].items|)
    ensures f' == ItemLoop(rooms, popped, c, f, |rooms[c.room].items|)
  {
    f', pathTo' := f, pathTo;
    for itemIndex := 0 to |rooms[c.room].items|
      invariant Inv(rooms, entrances, treasure, f', pathTo')
      invariant f.visited <= f'.visited && Keeps(f.visited, pathTo, pathTo')
      invariant |f'.q| + |f.visited| <= |f.q| + |f'.visited|
      invariant f.visited + Primaries(rooms, c, itemIndex) <= f'.visited
      invariant f'.visited <= f.visited + AllCandidates(rooms, c, itemIndex)
      invariant f' == ItemLoop(rooms, popped, c, f, itemIndex)
    {
      ghost var v1 := f'.visited;
      f', pathTo' := ItemStep(rooms, entrances, treasure, f', pathTo', popped, c, itemIndex, p);
      ItemOutcomeDone(rooms, c, v1, f'.visited, itemIndex);
      ItemLoopStep(rooms, c, f.visited, v1, f'.visited, itemIndex);
      assert ItemLoop(rooms, popped, c, f, itemIndex + 1) == ItemRound(rooms, popped, c, ItemLoop(rooms, popped, c, f, itemIndex), itemIndex);
    }
  }

  // ---------------------------------------------------------------------------------
  // The move loop (lines 385-394)

  /** The move successors to the first `n` neighbours. */
  ghost function MoveTargets(c: State, neighbors: seq<nat>, n: nat): set<State>
  {
    UnionUpTo((k: nat) => if k < |neighbors| then {MoveSuccessor(c, neighbors[k])} else {}, n)
  }

  lemma MoveLoopStep(c: State, neighbors: seq<nat>, v0: set<State>, v1: set<State>, v2: set<State>, n: nat)
    requires n < |neighbors|
    requires v0 + MoveTargets(c, neighbors, n) <= v1 <= v0 + MoveTargets(c, neighbors, n)
    requires v1 <= v2 <= v1 + {MoveSuccessor(c, neighbors[n])}
    requires MoveSuccessor(c, neighbors[n]) in v2
    ensures v0 + MoveTargets(c, neighbors, n + 1) <= v2 <= v0 + MoveTargets(c, neighbors, n + 1)
  {
  }

  /** Every neighbour's move successor ends up visited, and nothing else is added. */
  method ExpandMoves(rooms: seq<Room>, ghost entrances: seq<nat>, ghost treasure: nat,
                     f: Frontier, ghost pathTo: map<State, seq<Action>>, popped: State, c: State, ghost p: State)
    returns (f': Frontier, ghost pathTo': map<State, seq<Action>>)
    requires WellFormed(rooms, entrances)
    requires Inv(rooms, entrances, treasure, f, pathTo) && popped in f.visited && Sound(rooms, c)
    requires Play(rooms, entrances, treasure, pathTo[popped]) == Some(p) && CoversPending(treasure, p, c)
    ensures Inv(rooms, entrances, treasure, f', pathTo')
    ensures f.visited <= f'.visited
    ensures |f'.q| + |f.visited| <= |f.q| + |f'.visited|
    ensures f.visited + MoveTargets(c, rooms[c.room].neighbors, |rooms[c.room].neighbors|) <= f'.visited
    ensures f'.visited <= f.visited + MoveTargets(c, rooms[c.room].neighbors, |rooms[c.room].neighbors|)
    ensures f' == MoveLoop(rooms, popped, c, f, |rooms[c.room].neighbors|)
  {
    f', pathTo' := f, pathTo;
    var neighbors := rooms[c.room].neighbors;
    for i := 0 to |neighbors|
      invariant Inv(rooms, entrances, treasure, f', pathTo')
      invariant f.visited <= f'.visited && Keeps(f.visited, pathTo, pathTo')
      invariant |f'.q| + |f.visited| <= |f.q| + |f'.visited|
      invariant f.visited + MoveTargets(c, neighbors, i) <= f'.visited <= f.visited + MoveTargets(c, neighbors, i)
      invariant f' == MoveLoop(rooms, popped, c, f, i)
    {
      ghost var v1 := f'.visited;
      var tba := c;
      tba := tba.(room := neighbors[i]);
      tba := tba.(usedStealth := false);
      assert tba == MoveSuccessor(c, neighbors[i]);
      assert neighbors[i] in rooms[c.room].neighbors;
      MoveReached(rooms, entrances, treasure, pathTo[popped], p, c, neighbors[i]);
      f', pathTo' := Discover(rooms, entrances, treasure, f', pathTo', tba, popped, Move(neighbors[i]), false);
      MoveLoopStep(c, neighbors, f.visited, v1, f'.visited, i);
      assert MoveLoop(rooms, popped, c, f, i + 1) == Discovered(MoveLoop(rooms, popped, c, f, i), tba, popped, Move(neighbors[i]), false);
    }
  }

  // ---------------------------------------------------------------------------------
  // Path reconstruction (lines 252-266)

  lemma Assoc<T>(x: seq<T>, y: seq<T>, z: seq<T>)
    ensures (x + y) + z == x + (y + z)
  {
  }

  /** Follows the parent links from `start` back to a seed, collecting the actions; with
      the links' invariant this is exactly the path the search recorded for `start`. */
  method ReconstructPath(parents: map<State, ParentInfo>, start: State, ghost pathTo: map<State, seq<Action>>)
    returns (path: seq<Action>)
    requires start in parents && Linked(parents, pathTo)
    ensures path == pathTo[start]
  {
    path := [];
    var current := start;
    while true
      invariant current in parents
      invariant pathTo[current] + path == pathTo[start]
      decreases |pathTo[current]|
    {
      var pi := parents[current];
      ghost var rest := path;
      path := [pi.action] + path;
      if pi.parent.room == SIZE_MAX {
        break;
      }
      Assoc(pathTo[pi.parent], [pi.action], rest);
      current := pi.parent;
    }
  }

  // ---------------------------------------------------------------------------------
  // The rounds of the search as functions

  /** Every queued state names a real room. */
  predicate RoomsOk(rooms: seq<Room>, q: seq<State>) {
    forall i :: 0 <= i < |q| ==> q[i].room < |rooms|
  }

  /** The seeding loop of lines 305-315 over the first `n` entrances. */
  function Seeds(rooms: seq<Room>, entrances: seq<nat>, n: nat): (f: Frontier)
    requires n <= |entrances|
    requires forall k :: 0 <= k < |entrances| ==> entrances[k] < |rooms|
    ensures RoomsOk(rooms, f.q) && |f.q| == n
  {
    if n == 0 then Frontier([], {}, map[])
    else
      var f := Seeds(rooms, entrances, n - 1);
      var en := entrances[n - 1];
      var s := State(en, false, [], false);
      Frontier(f.q + [s], f.visited + {s}, f.parents[s := ParentInfo(OUT_STATE, Move(en))])
  }

  /** The bookkeeping of discovering `x` from `p` by the action `a`: a state not yet
      visited is queued, at the front or at the back, marked visited and linked to `p`;
      a visited one changes nothing. */
  function Discovered(f: Frontier, x: State, p: State, a: Action, front: bool): (f': Frontier)
    ensures x in f.visited ==> f' == f
    ensures x !in f.visited ==> f'.visited == f.visited + {x} && f'.parents == f.parents[x := ParentInfo(p, a)]
    ensures x !in f.visited ==> f'.q == if front then [x] + f.q else f.q + [x]
  {
    if x in f.visited then f
    else Frontier(if front then [x] + f.q else f.q + [x], f.visited + {x}, f.parents[x := ParentInfo(p, a)])
  }

  /** Round `idx` of the item loop (lines 347-377) for the processed state `c` of the
      dequeued state `popped`, with every discovered state marked visited and linked to
      the dequeued state. */
  function ItemRound(rooms: seq<Room>, popped: State, c: State, f: Frontier, idx: nat): (f': Frontier)
    requires c.room < |rooms| && idx < |rooms[c.room].items|
    ensures RoomsOk(rooms, f.q) ==> RoomsOk(rooms, f'.q)
  {
    var item := rooms[c.room].items[idx];
    if !HasType(c.equipped, item.itemType) && !c.usedStealth then
      Discovered(f, EquipItem(c, item), popped, Pickup(idx), true)
    else if HasType(c.equipped, item.itemType) then
      var temp := DropItem(c, item.itemType);
      if temp in f.visited then f
      else
        var f1 := Discovered(f, temp, popped, Drop(item.itemType), true);
        if c.usedStealth then f1 else Discovered(f1, EquipItem(temp, item), temp, Pickup(idx), true)
    else f
  }

  /** The item loop over the first `n` items of the room. */
  function ItemLoop(rooms: seq<Room>, popped: State, c: State, f: Frontier, n: nat): (f': Frontier)
    requires c.room < |rooms| && n <= |rooms[c.room].items|
    ensures RoomsOk(rooms, f.q) ==> RoomsOk(rooms, f'.q)
  {
    if n == 0 then f else ItemRound(rooms, popped, c, ItemLoop(rooms, popped, c, f, n - 1), n - 1)
  }

  /** The move loop of lines 385-394 over the first `n` neighbours. */
  function MoveLoop(rooms: seq<Room>, popped: State, c: State, f: Frontier, n: nat): (f': Frontier)
    requires c.room < |rooms| && n <= |rooms[c.room].neighbors|
    requires forall k :: 0 <= k < |rooms[c.room].neighbors| ==> rooms[c.room].neighbors[k] < |rooms|
    ensures RoomsOk(rooms, f.q) ==> RoomsOk(rooms, f'.q)
  {
    if n == 0 then f
    else
      var nb := rooms[c.room].neighbors[n - 1];
      Discovered(MoveLoop(rooms, popped, c, f, n - 1), MoveSuccessor(c, nb), popped, Move(nb), false)
  }

  /** What a round of the main loop ends with: the search goes on, or the exit test fires
      and the path is rebuilt from `last` through `parents`. */
  datatype Outcome = Continue(f: Frontier) | Found(parents: map<State, ParentInfo>, last: State)

  /** The round of the main loop (lines 319-394) for the dequeued state `popped`, once it
      has been taken off the deque of `f`. */
  function Expand(rooms: seq<Room>, entrances: seq<nat>, treasure: nat, f: Frontier, popped: State): (r: Outcome)
    requires WellFormed(rooms, entrances) && popped.room < |rooms|
    ensures RoomsOk(rooms, f.q) && r.Continue? ==> RoomsOk(rooms, r.f.q)
  {
    match Process(rooms, treasure, popped)
    case None => Continue(f.(visited := f.visited + {popped}))
    case Some(c) =>
      var f1 := ItemLoop(rooms, popped, c, f, |rooms[c.room].items|);
      if c.hasTreasure && c.room in entrances then Found(f1.parents, popped)
      else Continue(MoveLoop(rooms, popped, c, f1, |rooms[c.room].neighbors|))
  }

  /** The corrected `reconstructPath`: follows the links back to the seed, collecting every
      action including the seed's move; None when the budget runs out or a state has no
      link. */
  function Rebuild(parents: map<State, ParentInfo>, s: State, fuel: nat): Option<seq<Action>>
    decreases fuel
  {
    if fuel == 0 || s !in parents then None
    else if parents[s].parent.room == SIZE_MAX then Some([parents[s].action])
    else
      match Rebuild(parents, parents[s].parent, fuel - 1)
      case None => None
      case Some(p) => Some(p + [parents[s].action])
  }

  /** The main loop from `f` with a budget of `fuel` rounds: Some(path) when the search
      returns `path` within the budget (the empty path when the deque runs dry), None
      otherwise. */
  function Rounds(rooms: seq<Room>, entrances: seq<nat>, treasure: nat, f: Frontier, fuel: nat): Option<seq<Action>>
    requires WellFormed(rooms, entrances) && RoomsOk(rooms, f.q)
    decreases fuel
  {
    if fuel == 0 then None
    else if f.q == [] then Some([])
    else
      match Expand(rooms, entrances, treasure, f.(q := f.q[1..]), f.q[0])
      case Found(parents, s) => Rebuild(parents, s, fuel)
      case Continue(g) => Rounds(rooms, entrances, treasure, g, fuel - 1)
  }

  /** The corrected `find_shortest_path` from its seeds, run for at most `fuel` rounds. */
  function Search(rooms: seq<Room>, entrances: seq<nat>, treasure: nat, fuel: nat): Option<seq<Action>>
    requires WellFormed(rooms, entrances)
  {
    Rounds(rooms, entrances, treasure, Seeds(rooms, entrances, |entrances|), fuel)
  }

  /** With consistent links and enough budget, rebuilding gives the recorded path. */
  lemma {:induction false} RebuildLinked(parents: map<State, ParentInfo>, pathTo: map<State, seq<Action>>, s: State, fuel: nat)
    requires Linked(parents, pathTo) && s in parents && fuel > |pathTo[s]|
    ensures Rebuild(parents, s, fuel) == Some(pathTo[s])
    decreases fuel
  {
    var link := parents[s];
    if link.parent.room != SIZE_MAX {
      assert link.parent in parents && pathTo[s] == pathTo[link.parent] + [link.action];
      RebuildLinked(parents, pathTo, link.parent, fuel - 1);
    } else {
      assert pathTo[s] == [link.action];
    }
  }

  /** A larger budget rebuilds the same path. */
  lemma {:induction false} RebuildMore(parents: map<State, ParentInfo>, s: State, fuel: nat, fuel': nat)
    requires Rebuild(parents, s, fuel).Some? && fuel <= fuel'
    ensures Rebuild(parents, s, fuel') == Rebuild(parents, s, fuel)
    decreases fuel
  {
    if parents[s].parent.room != SIZE_MAX {
      RebuildMore(parents, parents[s].parent, fuel - 1, fuel' - 1);
    }
  }

  /** A larger budget runs to the same result. */
  lemma {:induction false} RoundsMore(rooms: seq<Room>, entrances: seq<nat>, treasure: nat, f: Frontier, fuel: nat, fuel': nat)
    requires WellFormed(rooms, entrances) && RoomsOk(rooms, f.q)
    requires Rounds(rooms, entrances, treasure, f, fuel).Some? && fuel <= fuel'
    ensures Rounds(rooms, entrances, treasure, f, fuel') == Rounds(rooms, entrances, treasure, f, fuel)
    decreases fuel
  {
    if f.q != [] {
      match Expand(rooms, entrances, treasure, f.(q := f.q[1..]), f.q[0])
      case Found(parents, s) => RebuildMore(parents, s, fuel, fuel');
      case Continue(g) => RoundsMore(rooms, entrances, treasure, g, fuel - 1, fuel' - 1);
    }
  }

  /** The search has at most one result, whatever budget it is given. */
  lemma SearchDeterministic(rooms: seq<Room>, entrances: seq<nat>, treasure: nat, fuel1: nat, fuel2: nat)
    requires WellFormed(rooms, entrances)
    requires Search(rooms, entrances, treasure, fuel1).Some? && Search(rooms, entrances, treasure, fuel2).Some?
    ensures Search(rooms, entrances, treasure, fuel1) == Search(rooms, entrances, treasure, fuel2)
  {
    var f := Seeds(rooms, entrances, |entrances|);
    if fuel1 <= fuel2 {
      RoundsMore(rooms, entrances, treasure, f, fuel1, fuel2);
    } else {
      RoundsMore(rooms, entrances, treasure, f, fuel2, fuel1);
    }
  }

  /** Running from `f0` takes `k` rounds more than running from `f` to the same result. */
  ghost predicate RunsAs(rooms: seq<Room>, entrances: seq<nat>, treasure: nat, f0: Frontier, k: nat, f: Frontier)
  {
    && WellFormed(rooms, entrances) && RoomsOk(rooms, f0.q) && RoomsOk(rooms, f.q)
    && forall fuel: nat :: Rounds(rooms, entrances, treasure, f0, fuel + k) == Rounds(rooms, entrances, treasure, f, fuel)
  }

  /** A round that goes on, taken by the main loop, is one round of `Rounds`. */
  lemma RunsAsStep(rooms: seq<Room>, entrances: seq<nat>, treasure: nat, f0: Frontier, k: nat, f: Frontier, g: Frontier)
    requires WellFormed(rooms, entrances) && RoomsOk(rooms, f0.q) && RoomsOk(rooms, f.q) && RoomsOk(rooms, g.q)
    requires RunsAs(rooms, entrances, treasure, f0, k, f) && f.q != []
    requires Expand(rooms, entrances, treasure, f.(q := f.q[1..]), f.q[0]) == Continue(g)
    ensures RunsAs(rooms, entrances, treasure, f0, k + 1, g)
  {
    forall fuel: nat
      ensures Rounds(rooms, entrances, treasure, f0, fuel + (k + 1)) == Rounds(rooms, entrances, treasure, g, fuel)
    {
      assert Rounds(rooms, entrances, treasure, f0, (fuel + 1) + k) == Rounds(rooms, entrances, treasure, f, fuel + 1);
    }
  }

  /** The queue of a frontier that keeps `Inv` names real rooms. */
  lemma InvRoomsOk(rooms: seq<Room>, entrances: seq<nat>, treasure: nat, f: Frontier, pathTo: map<State, seq<Action>>)
    requires Inv(rooms, entrances, treasure, f, pathTo)
    ensures RoomsOk(rooms, f.q)
  {
    forall i | 0 <= i < |f.q| ensures f.q[i].room < |rooms| {
      InvAt(rooms, entrances, treasure, f, pathTo, f.q[i]);
    }
  }

  // ---------------------------------------------------------------------------------
  // The search

  /** The encounter of lines 324-345 on the dequeued state, exactly as `Process` states it:
      None for a dead end, otherwise the state with its flags updated. */
  method Encounter(rooms: seq<Room>, treasure: nat, s: State) returns (r: Option<State>)
    requires s.room < |rooms|
    requires rooms[s.room].monster.Some? ==> rooms[s.room].monster.value.hp > 0
    ensures r == Process(rooms, treasure, s)
  {
    var current := s;
    var room := rooms[current.room];
    if room.monster.Some? {
      var hasStealth := HasStealth(current);
      var hasFirstAttack := HasFirstAttack(current);
      var heroObj := CalcFighterStats(current.equipped);
      var combatResult := if hasFirstAttack then SimulateCombat(heroObj, room.monster.value)
                          else SimulateCombat(room.monster.value, heroObj);
      var survived := if hasFirstAttack then combatResult == AWins else combatResult == BWins;
      assert survived == HeroSurvives(s.equipped, room.monster.value);
      if !survived {
        if !hasStealth {
          return None;
        }
        current := current.(usedStealth := true);
      }
    }
    if current.room == treasure && !current.usedStealth {
      current := current.(hasTreasure := true);
    }
    r := Some(current);
  }

  /** The seeding loop (lines 305-315): one state per entrance, linked to `OUT_STATE`
      by the move into that entrance. */
  method Seed(rooms: seq<Room>, entrances: seq<nat>, ghost treasure: nat)
    returns (f: Frontier, ghost pathTo: map<State, seq<Action>>)
    requires WellFormed(rooms, entrances)
    ensures Inv(rooms, entrances, treasure, f, pathTo)
    ensures f == Seeds(rooms, entrances, |entrances|)
  {
    f := Frontier([], {}, map[]);
    pathTo := map[];
    for i := 0 to |entrances|
      invariant Inv(rooms, entrances, treasure, f, pathTo)
      invariant forall s {:trigger f.parents[s]} | s in f.parents :: f.parents[s] == ParentInfo(OUT_STATE, Move(s.room))
      invariant f == Seeds(rooms, entrances, i)
    {
      var en := entrances[i];
      var s := State(en, false, [], false);
      SeedsStep(rooms, entrances, i);
      f := Frontier(f.q + [s], f.visited + {s}, f.parents[s := ParentInfo(OUT_STATE, Move(en))]);
      pathTo := pathTo[s := [Move(en)]];
      assert Play(rooms, entrances, treasure, [Move(en)]) == Process(rooms, treasure, s);
    }
  }

  lemma SeedsStep(rooms: seq<Room>, entrances: seq<nat>, i: nat)
    requires WellFormed(rooms, entrances) && i < |entrances|
    ensures var f, s := Seeds(rooms, entrances, i), State(entrances[i], false, [], false);
            Seeds(rooms, entrances, i + 1) ==
              Frontier(f.q + [s], f.visited + {s}, f.parents[s := ParentInfo(OUT_STATE, Move(entrances[i]))])
  {
  }

  /** Dequeueing keeps `Inv`, and the dequeued state was visited. */
  lemma InvPop(rooms: seq<Room>, entrances: seq<nat>, treasure: nat, f: Frontier, pathTo: map<State, seq<Action>>)
    requires Inv(rooms, entrances, treasure, f, pathTo) && f.q != []
    ensures f.q[0] in f.visited
    ensures Inv(rooms, entrances, treasure, f.(q := f.q[1..]), pathTo)
  {
    forall i | 0 <= i < |f.q| - 1 ensures f.q[1..][i] in f.visited {
      assert f.q[1..][i] == f.q[i + 1];
    }
  }

  /** The measure of the main loop goes down when something new was visited. */
  lemma Progress<T>(universe: set<T>, v0: set<T>, v1: set<T>)
    requires v0 <= v1 && v1 <= universe && v0 != v1
    ensures |universe - v1| < |universe - v0|
  {
    var x :| x in v1 && x !in v0;
    assert universe - v0 == (universe - v1) + (v1 - v0);
    assert (universe - v1) * (v1 - v0) == {};
    assert x in v1 - v0;
  }

  /** The exit test of lines 379-383 is sound: a processed state carrying the treasure
      in an entrance room makes the path recorded for its dequeued state a solution. */
  lemma FoundIsSolution(rooms: seq<Room>, entrances: seq<nat>, treasure: nat, popped: State, c: State, path: seq<Action>)
    requires Reached(rooms, entrances, treasure, popped, path)
    requires Process(rooms, treasure, popped) == Some(c)
    requires c.hasTreasure && c.room in entrances
    ensures IsSolution(rooms, entrances, treasure, path)
  {
  }

  /** One round of the main loop on the dequeued state `popped` (lines 319-394): the
      encounter, then the expansion of the processed state. When the processed state
      carries the treasure and stands in an entrance, `done` is set and `path` is the
      reconstructed solution. */
  method ExpandState(rooms: seq<Room>, entrances: seq<nat>, treasure: nat,
                     f: Frontier, ghost pathTo: map<State, seq<Action>>, popped: State)
    returns (f': Frontier, ghost pathTo': map<State, seq<Action>>, done: bool, path: seq<Action>)
    requires WellFormed(rooms, entrances)
    requires Inv(rooms, entrances, treasure, f, pathTo) && popped in f.visited
    ensures Inv(rooms, entrances, treasure, f', pathTo')
    ensures f.visited <= f'.visited
    ensures |f'.q| + |f.visited| <= |f.q| + |f'.visited|
    ensures done ==> path != [] && IsSolution(rooms, entrances, treasure, path)
    ensures Expand(rooms, entrances, treasure, f, popped) == if done then Found(f'.parents, popped) else Continue(f')
    ensures done ==> popped in f'.parents && path == pathTo'[popped]
  {
    InvAt(rooms, entrances, treasure, f, pathTo, popped);
    var processed := Encounter(rooms, treasure, popped);
    if processed.None? {
      assert f.visited + {popped} == f.visited;
      f', pathTo', done, path := f.(visited := f.visited + {popped}), pathTo, false, [];
      return;
    }
    f', pathTo', done, path := ExpandProcessed(rooms, entrances, treasure, f, pathTo, popped, processed.value);
  }

  /** The rest of the round for a state that survived its encounter (lines 339-394). */
  method ExpandProcessed(rooms: seq<Room>, entrances: seq<nat>, treasure: nat,
                         f: Frontier, ghost pathTo: map<State, seq<Action>>, popped: State, current: State)
    returns (f': Frontier, ghost pathTo': map<State, seq<Action>>, done: bool, path: seq<Action>)
    requires WellFormed(rooms, entrances)
    requires Inv(rooms, entrances, treasure, f, pathTo) && popped in f.visited
    requires Process(rooms, treasure, popped) == Some(current)
    ensures Inv(rooms, entrances, treasure, f', pathTo')
    ensures f.visited <= f'.visited
    ensures |f'.q| + |f.visited| <= |f.q| + |f'.visited|
    ensures done ==> path != [] && IsSolution(rooms, entrances, treasure, path)
    ensures Expand(rooms, entrances, treasure, f, popped) == if done then Found(f'.parents, popped) else Continue(f')
    ensures done ==> popped in f'.parents && path == pathTo'[popped]
  {
    InvAt(rooms, entrances, treasure, f, pathTo, popped);
    ghost var p := Play(rooms, entrances, treasure, pathTo[popped]).value;
    CoversProcessed(rooms, treasure, popped, p);
    f', pathTo' := ExpandItems(rooms, entrances, treasure, f, pathTo, popped, current, p);
    done, path := false, [];

    if current.hasTreasure && current.room in entrances {
      InvAt(rooms, entrances, treasure, f', pathTo', popped);
      path := ReconstructPath(f'.parents, popped, pathTo');
      done := true;
      FoundIsSolution(rooms, entrances, treasure, popped, current, pathTo'[popped]);
      return;
    }

    f', pathTo' := ExpandMoves(rooms, entrances, treasure, f', pathTo', popped, current, p);
  }

  /** One pass of the main loop (lines 318-394): dequeue, then expand. The pass is one
      round of `Rounds`: the search goes on from the new frontier, or it returns `path`. */
  method SearchRound(rooms: seq<Room>, entrances: seq<nat>, treasure: nat,
                     f: Frontier, ghost pathTo: map<State, seq<Action>>, ghost f0: Frontier, ghost k: nat)
    returns (f': Frontier, ghost pathTo': map<State, seq<Action>>, done: bool, path: seq<Action>)
    requires WellFormed(rooms, entrances)
    requires Inv(rooms, entrances, treasure, f, pathTo) && f.q != []
    requires f0 == Seeds(rooms, entrances, |entrances|) && RunsAs(rooms, entrances, treasure, f0, k, f)
    ensures Inv(rooms, entrances, treasure, f', pathTo')
    ensures f.visited <= f'.visited && (f'.visited == f.visited ==> |f'.q| < |f.q|)
    ensures !done ==> RunsAs(rooms, entrances, treasure, f0, k + 1, f')
    ensures done ==> path != [] && IsSolution(rooms, entrances, treasure, path)
    ensures done ==> Search(rooms, entrances, treasure, |path| + 1 + k) == Some(path)
  {
    var popped := f.q[0];
    InvPop(rooms, entrances, treasure, f, pathTo);
    f' := f.(q := f.q[1..]);
    f', pathTo', done, path := ExpandState(rooms, entrances, treasure, f', pathTo, popped);
    if done {
      Finished(rooms, entrances, treasure, f0, k, f, f'.parents, pathTo', popped, path);
      return;
    }
    InvRoomsOk(rooms, entrances, treasure, f', pathTo');
    RunsAsStep(rooms, entrances, treasure, f0, k, f, f');
  }

  /** `find_shortest_path`: a path that is not empty is a solution. Replayed from outside
      the dungeon, the hero survives every encounter, performs only allowed pickups and
      drops, and ends in an entrance holding the treasure. The search terminates because
      every state it produces lies in the finite `Universe(rooms)`, and the path is the
      one the rounds of `Search` return. */
  method FindShortestPath(rooms: seq<Room>, entrances: seq<nat>, treasure: nat) returns (path: seq<Action>)
    requires WellFormed(rooms, entrances)
    ensures path != [] ==> IsSolution(rooms, entrances, treasure, path)
    ensures exists fuel: nat :: Search(rooms, entrances, treasure, fuel) == Some(path)
  {
    var f;
    ghost var pathTo;
    f, pathTo := Seed(rooms, entrances, treasure);
    ghost var f0, k := f, 0;
    InvRoomsOk(rooms, entrances, treasure, f, pathTo);

    ghost var universe := BoundingSet(rooms);
    while f.q != []
      invariant Inv(rooms, entrances, treasure, f, pathTo)
      invariant f0 == Seeds(rooms, entrances, |entrances|) && RunsAs(rooms, entrances, treasure, f0, k, f)
      decreases |universe - f.visited|, |f.q|
    {
      ghost var v0 := f.visited;
      var done;
      f, pathTo, done, path := SearchRound(rooms, entrances, treasure, f, pathTo, f0, k);
      if done {
        return;
      }
      k := k + 1;
      if f.visited != v0 {
        VisitedInUniverse(rooms, universe, f.visited);
        Progress(universe, v0, f.visited);
      }
    }
    path := [];
    Exhausted(rooms, entrances, treasure, f0, k, f);
  }

  /** When the deque runs dry, the search returns the empty path. */
  lemma Exhausted(rooms: seq<Room>, entrances: seq<nat>, treasure: nat, f0: Frontier, k: nat, f: Frontier)
    requires WellFormed(rooms, entrances) && RoomsOk(rooms, f.q) && f.q == []
    requires f0 == Seeds(rooms, entrances, |entrances|) && RunsAs(rooms, entrances, treasure, f0, k, f)
    ensures Search(rooms, entrances, treasure, 1 + k) == Some([])
  {
    assert Rounds(rooms, entrances, treasure, f, 1) == Some([]);
  }

  /** When the exit test fires, the search returns the path recorded for the dequeued state. */
  lemma Finished(rooms: seq<Room>, entrances: seq<nat>, treasure: nat, f0: Frontier, k: nat, f: Frontier,
                 parents: map<State, ParentInfo>, pathTo: map<State, seq<Action>>, popped: State, path: seq<Action>)
    requires WellFormed(rooms, entrances) && RoomsOk(rooms, f.q) && f.q != [] && popped == f.q[0]
    requires f0 == Seeds(rooms, entrances, |entrances|) && RunsAs(rooms, entrances, treasure, f0, k, f)
    requires Expand(rooms, entrances, treasure, f.(q := f.q[1..]), popped) == Found(parents, popped)
    requires Linked(parents, pathTo) && popped in parents && path == pathTo[popped]
    ensures Search(rooms, entrances, treasure, |path| + 1 + k) == Some(path)
  {
    RebuildLinked(parents, pathTo, popped, |path| + 1);
    assert Rounds(rooms, entrances, treasure, f, |path| + 1) == Some(path);
  }
}
