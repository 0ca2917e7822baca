/**
 * A dungeon on which the corrected search of module TreasureSearch (and the search of
 * pt1/sample.cpp, whose item loop it shares) returns a solution that is not the shortest:
 * the item successors go to the front of the deque at no cost, so a state whose sword was
 * picked up one room earlier is expanded first and claims the states of the rooms after
 * it, and the exit test fires at the first dequeued state that stands in an entrance with
 * the treasure, whatever the length of the path it was reached by.
 */
module TreasureExamples {
  import opened Wrappers
  import opened Combat
  import opened Dungeon
  import opened Loadout
  import opened SearchSpace
  import opened TreasureSearch
  import W = TreasureAsWritten

  /** Room 0 (an entrance) holds a sword and leads to room 1; room 1 (an entrance) holds a
      second sword and leads to room 2; room 2 holds the treasure and the ogre, which only
      an armed hero beats, and leads back to room 1. */
  const Detour: seq<Room> := [Room([1], None, [W.Sword]), Room([2], None, [W.Sword]), Room([1], Some(W.Ogre), [])]

  const Bare0 := State(0, false, [], false)
  const Armed0 := State(0, false, [W.S], false)
  const Bare1 := State(1, false, [], false)
  const Armed1 := State(1, false, [W.S], false)
  const Bare2 := State(2, false, [], false)
  const Armed2 := State(2, false, [W.S], false)
  const Won2 := State(2, true, [W.S], false)
  const Home1 := State(1, true, [W.S], false)
  const HomeBare1 := State(1, true, [], false)

  /** The path the search returns: in at room 0, pick up its sword, walk to the treasure
      and back to room 1. */
  const Returned := [Move(0), Pickup(0), Move(1), Move(2), Move(1)]

  /** A shorter solution: in at room 1, pick up its sword, walk to the treasure and back. */
  const Shortcut := [Move(1), Pickup(0), Move(2), Move(1)]

  /** The rooms a path enters, counted as the `room_count` of check_solution
      (pt1/sample.cpp:443-456): one per move. */
  function RoomCount(path: seq<Action>): (n: nat)
    ensures n <= |path|
  {
    if path == [] then 0 else RoomCount(path[..|path| - 1]) + (if path[|path| - 1].Move? then 1 else 0)
  }

  lemma DetourWellFormed()
    ensures WellFormed(Detour, [0, 1])
  {
  }

  /** The links of `Returned`, the first `n` of them, from the seed onwards. */
  ghost predicate Chain(p: map<State, ParentInfo>, n: nat) {
    && (n >= 1 ==> Bare0 in p && p[Bare0] == ParentInfo(OUT_STATE, Move(0)))
    && (n >= 2 ==> Armed0 in p && p[Armed0] == ParentInfo(Bare0, Pickup(0)))
    && (n >= 3 ==> Armed1 in p && p[Armed1] == ParentInfo(Armed0, Move(1)))
    && (n >= 4 ==> Armed2 in p && p[Armed2] == ParentInfo(Armed1, Move(2)))
    && (n >= 5 ==> Home1 in p && p[Home1] == ParentInfo(Armed2, Move(1)))
  }

  /** The frontier after round k of the search on `Detour` (round 0: the seeds). */
  ghost predicate After0(f: Frontier) {
    f.q == [Bare0, Bare1] && f.visited == {Bare0, Bare1} && Chain(f.parents, 1)
  }

  ghost predicate After1(f: Frontier) {
    f.q == [Armed0, Bare1] && f.visited == {Bare0, Bare1, Armed0} && Chain(f.parents, 2)
  }

  ghost predicate After2(f: Frontier) {
    f.q == [Bare1, Armed1] && f.visited == {Bare0, Bare1, Armed0, Armed1} && Chain(f.parents, 3)
  }

  ghost predicate After3(f: Frontier) {
    f.q == [Armed1, Bare2] && f.visited == {Bare0, Bare1, Armed0, Armed1, Bare2} && Chain(f.parents, 3)
  }

  ghost predicate After4(f: Frontier) {
    f.q == [Bare2, Armed2] && f.visited == {Bare0, Bare1, Armed0, Armed1, Bare2, Armed2} && Chain(f.parents, 4)
  }

  ghost predicate After5(f: Frontier) {
    f.q == [Armed2] && f.visited == {Bare0, Bare1, Armed0, Armed1, Bare2, Armed2} && Chain(f.parents, 4)
  }

  ghost predicate After6(f: Frontier) {
    f.q == [Home1] && f.visited == {Bare0, Bare1, Armed0, Armed1, Bare2, Armed2, Home1} && Chain(f.parents, 5)
  }

  /** The round taken from `f`, as `Rounds` takes it. */
  function Next(f: Frontier): Outcome
    requires RoomsOk(Detour, f.q) && f.q != []
  {
    DetourWellFormed();
    Expand(Detour, [0, 1], 2, f.(q := f.q[1..]), f.q[0])
  }

  lemma DetourSeeds()
    ensures After0(Seeds(Detour, [0, 1], 2))
  {
    assert Seeds(Detour, [0, 1], 1).q == [Bare0];
  }

  /** Round 1: the sword of room 0 is picked up (front); room 1 bare is already seeded. */
  lemma Round1(f: Frontier) returns (g: Frontier)
    requires After0(f)
    ensures RoomsOk(Detour, f.q) && Next(f) == Continue(g)
    ensures After1(g)
  {
    DetourWellFormed();
    assert Process(Detour, 2, Bare0) == Some(Bare0);
    assert EquipItem(Bare0, W.Sword) == Armed0;
    var f0 := f.(q := f.q[1..]);
    var i1 := ItemLoop(Detour, Bare0, Bare0, f0, 1);
    assert ItemLoop(Detour, Bare0, Bare0, f0, 0) == f0;
    assert i1 == Discovered(f0, Armed0, Bare0, Pickup(0), true);
    assert MoveLoop(Detour, Bare0, Bare0, i1, 0) == i1;
    assert MoveSuccessor(Bare0, 1) == Bare1;
    g := i1;
  }

  /** Round 2: dropping the sword gives the visited entrance state; room 1 armed is new. */
  lemma Round2(f: Frontier) returns (g: Frontier)
    requires After1(f)
    ensures RoomsOk(Detour, f.q) && Next(f) == Continue(g)
    ensures After2(g)
  {
    DetourWellFormed();
    assert Process(Detour, 2, Armed0) == Some(Armed0);
    assert DropItem(Armed0, Weapon) == Bare0;
    var f0 := f.(q := f.q[1..]);
    assert ItemLoop(Detour, Armed0, Armed0, f0, 0) == f0;
    assert ItemLoop(Detour, Armed0, Armed0, f0, 1) == f0;
    assert MoveLoop(Detour, Armed0, Armed0, f0, 0) == f0;
    assert MoveSuccessor(Armed0, 1) == Armed1;
    g := Discovered(f0, Armed1, Armed0, Move(1), false);
  }

  /** Round 3: the sword of room 1 gives the already claimed armed state; room 2 bare is new. */
  lemma Round3(f: Frontier) returns (g: Frontier)
    requires After2(f)
    ensures RoomsOk(Detour, f.q) && Next(f) == Continue(g)
    ensures After3(g)
  {
    DetourWellFormed();
    assert Process(Detour, 2, Bare1) == Some(Bare1);
    assert EquipItem(Bare1, W.Sword) == Armed1;
    var f0 := f.(q := f.q[1..]);
    assert ItemLoop(Detour, Bare1, Bare1, f0, 0) == f0;
    assert ItemLoop(Detour, Bare1, Bare1, f0, 1) == f0;
    assert MoveLoop(Detour, Bare1, Bare1, f0, 0) == f0;
    assert MoveSuccessor(Bare1, 2) == Bare2;
    g := Discovered(f0, Bare2, Bare1, Move(2), false);
  }

  /** Round 4: dropping the sword gives the visited bare state; room 2 armed is new. */
  lemma Round4(f: Frontier) returns (g: Frontier)
    requires After3(f)
    ensures RoomsOk(Detour, f.q) && Next(f) == Continue(g)
    ensures After4(g)
  {
    DetourWellFormed();
    assert Process(Detour, 2, Armed1) == Some(Armed1);
    assert DropItem(Armed1, Weapon) == Bare1;
    var f0 := f.(q := f.q[1..]);
    assert ItemLoop(Detour, Armed1, Armed1, f0, 0) == f0;
    assert ItemLoop(Detour, Armed1, Armed1, f0, 1) == f0;
    assert MoveLoop(Detour, Armed1, Armed1, f0, 0) == f0;
    assert MoveSuccessor(Armed1, 2) == Armed2;
    g := Discovered(f0, Armed2, Armed1, Move(2), false);
  }

  /** Round 5: the bare hero dies to the ogre. */
  lemma Round5(f: Frontier) returns (g: Frontier)
    requires After4(f)
    ensures RoomsOk(Detour, f.q) && Next(f) == Continue(g)
    ensures After5(g)
  {
    DetourWellFormed();
    assert FighterStats([]) == Monster(10000, 3, 2, 0, 0);
    assert !AnyFirstAttack([]) && !AnyStealth([]);
    assert Process(Detour, 2, Bare2) == None;
    g := f.(q := f.q[1..]);
  }

  /** Round 6: the armed hero beats the ogre and takes the treasure; the move back to room 1
      is new, linked to the dequeued state. */
  lemma Round6(f: Frontier) returns (g: Frontier)
    requires After5(f)
    ensures RoomsOk(Detour, f.q) && Next(f) == Continue(g)
    ensures After6(g)
  {
    DetourWellFormed();
    W.SwordLoadout([W.S]);
    assert Process(Detour, 2, Armed2) == Some(Won2);
    var f0 := f.(q := f.q[1..]);
    assert ItemLoop(Detour, Armed2, Won2, f0, 0) == f0;
    assert MoveLoop(Detour, Armed2, Won2, f0, 0) == f0;
    assert MoveSuccessor(Won2, 1) == Home1;
    g := Discovered(f0, Home1, Armed2, Move(1), false);
  }

  /** Round 7: back in room 1 with the treasure, the item loop queues the dropped state and
      the exit test fires. */
  lemma Round7(f: Frontier) returns (p: map<State, ParentInfo>)
    requires After6(f)
    ensures RoomsOk(Detour, f.q) && Next(f) == Found(p, Home1) && Chain(p, 5)
  {
    DetourWellFormed();
    assert Process(Detour, 2, Home1) == Some(Home1);
    assert DropItem(Home1, Weapon) == HomeBare1;
    assert EquipItem(HomeBare1, W.Sword) == Home1;
    var f0 := f.(q := f.q[1..]);
    assert ItemLoop(Detour, Home1, Home1, f0, 0) == f0;
    var f1 := Discovered(f0, HomeBare1, Home1, Drop(Weapon), true);
    assert ItemLoop(Detour, Home1, Home1, f0, 1) == f1;
    p := f1.parents;
  }

  /** Following the links of `Returned` back from the last state. */
  lemma RebuildReturned(p: map<State, ParentInfo>, fuel: nat)
    requires Chain(p, 5) && fuel >= 5
    ensures Rebuild(p, Home1, fuel) == Some(Returned)
  {
    assert [Move(0)] + [Pickup(0)] == [Move(0), Pickup(0)];
    assert [Move(0), Pickup(0)] + [Move(1)] == [Move(0), Pickup(0), Move(1)];
    assert [Move(0), Pickup(0), Move(1)] + [Move(2)] == [Move(0), Pickup(0), Move(1), Move(2)];
    assert [Move(0), Pickup(0), Move(1), Move(2)] + [Move(1)] == Returned;
    assert Rebuild(p, Bare0, fuel - 4) == Some([Move(0)]);
    assert Rebuild(p, Armed0, fuel - 3) == Some([Move(0), Pickup(0)]);
    assert Rebuild(p, Armed1, fuel - 2) == Some([Move(0), Pickup(0), Move(1)]);
    assert Rebuild(p, Armed2, fuel - 1) == Some([Move(0), Pickup(0), Move(1), Move(2)]);
  }

  /** Given eleven rounds or more, the search on `Detour` returns `Returned`. */
  lemma DetourSearch(fuel: nat)
    requires fuel >= 11
    ensures WellFormed(Detour, [0, 1])
    ensures Search(Detour, [0, 1], 2, fuel) == Some(Returned)
  {
    DetourWellFormed();
    DetourSeeds();
    var f0 := Seeds(Detour, [0, 1], 2);
    var f1 := Round1(f0);
    var f2 := Round2(f1);
    var f3 := Round3(f2);
    var f4 := Round4(f3);
    var f5 := Round5(f4);
    var f6 := Round6(f5);
    var p := Round7(f6);
    RebuildReturned(p, fuel - 6);
    SevenRounds(Detour, [0, 1], 2, f0, f1, f2, f3, f4, f5, f6, p, Home1, fuel);
  }

  /** Six rounds that go on and a seventh whose exit test fires make up `Rounds`. */
  lemma SevenRounds(rooms: seq<Room>, entrances: seq<nat>, treasure: nat,
                    f0: Frontier, f1: Frontier, f2: Frontier, f3: Frontier, f4: Frontier, f5: Frontier, f6: Frontier,
                    p: map<State, ParentInfo>, s: State, fuel: nat)
    requires WellFormed(rooms, entrances) && fuel >= 7
    requires Goes(rooms, entrances, treasure, f0, f1) && Goes(rooms, entrances, treasure, f1, f2)
    requires Goes(rooms, entrances, treasure, f2, f3) && Goes(rooms, entrances, treasure, f3, f4)
    requires Goes(rooms, entrances, treasure, f4, f5) && Goes(rooms, entrances, treasure, f5, f6)
    requires RoomsOk(rooms, f6.q) && f6.q != [] && Expand(rooms, entrances, treasure, f6.(q := f6.q[1..]), f6.q[0]) == Found(p, s)
    ensures Rounds(rooms, entrances, treasure, f0, fuel) == Rebuild(p, s, fuel - 6)
  {
    Step(rooms, entrances, treasure, f5, f6, fuel - 5);
    Step(rooms, entrances, treasure, f4, f5, fuel - 4);
    Step(rooms, entrances, treasure, f3, f4, fuel - 3);
    Step(rooms, entrances, treasure, f2, f3, fuel - 2);
    Step(rooms, entrances, treasure, f1, f2, fuel - 1);
    Step(rooms, entrances, treasure, f0, f1, fuel);
  }

  /** The round taken from `f` goes on with `g`. */
  ghost predicate Goes(rooms: seq<Room>, entrances: seq<nat>, treasure: nat, f: Frontier, g: Frontier) {
    && WellFormed(rooms, entrances) && RoomsOk(rooms, f.q) && f.q != []
    && Expand(rooms, entrances, treasure, f.(q := f.q[1..]), f.q[0]) == Continue(g)
  }

  /** A round that goes on is one round of `Rounds`. */
  lemma Step(rooms: seq<Room>, entrances: seq<nat>, treasure: nat, f: Frontier, g: Frontier, fuel: nat)
    requires Goes(rooms, entrances, treasure, f, g) && fuel > 0
    ensures RoomsOk(rooms, g.q)
    ensures Rounds(rooms, entrances, treasure, f, fuel) == Rounds(rooms, entrances, treasure, g, fuel - 1)
  {
  }

  /** `Shortcut` is a solution: the hero arms in room 1, beats the ogre and comes back. */
  lemma ShortcutIsSolution()
    ensures IsSolution(Detour, [0, 1], 2, Shortcut)
  {
    var p := Shortcut;
    assert p[..1] == [Move(1)] && p[..2] == [Move(1), Pickup(0)] && p[..3] == [Move(1), Pickup(0), Move(2)];
    assert p[..2][..1] == [Move(1)] && p[..3][..2] == p[..2];
    assert Play(Detour, [0, 1], 2, p[..1]) == Some(Bare1);
    assert !HasType([], Weapon) && EquipItem(Bare1, W.Sword) == Armed1;
    assert Play(Detour, [0, 1], 2, p[..2]) == Some(Armed1);
    W.SwordLoadout([W.S]);
    assert Play(Detour, [0, 1], 2, p[..3]) == Some(Won2);
    assert Play(Detour, [0, 1], 2, p) == Some(Home1);
  }

  /** Whatever budget it returns within, the search on `Detour` (and so `FindShortestPath`,
      whose result is the search's) returns `Returned`, although `Shortcut` is a solution
      with fewer actions and fewer rooms. */
  lemma DetourNotShortest(path: seq<Action>)
    requires WellFormed(Detour, [0, 1])
    requires exists fuel: nat :: Search(Detour, [0, 1], 2, fuel) == Some(path)
    ensures path == Returned
    ensures IsSolution(Detour, [0, 1], 2, Shortcut)
    ensures |Shortcut| < |path| && RoomCount(Shortcut) < RoomCount(path)
  {
    var fuel: nat :| Search(Detour, [0, 1], 2, fuel) == Some(path);
    DetourSearch(11);
    SearchDeterministic(Detour, [0, 1], 2, fuel, 11);
    ShortcutIsSolution();
    RoomCounts();
  }

  lemma RoomCounts()
    ensures RoomCount(Shortcut) == 3 && RoomCount(Returned) == 4
  {
    assert [Move(1)][..0] == [] && [Move(0)][..0] == [];
    assert RoomCount([Move(1)]) == 1 && RoomCount([Move(0)]) == 1;
    assert [Move(1), Pickup(0)][..1] == [Move(1)] && [Move(0), Pickup(0)][..1] == [Move(0)];
    assert RoomCount([Move(1), Pickup(0)]) == 1 && RoomCount([Move(0), Pickup(0)]) == 1;
    assert Shortcut[..3][..2] == [Move(1), Pickup(0)];
    assert RoomCount(Shortcut[..3]) == 2;
    assert Returned[..4][..3][..2] == [Move(0), Pickup(0)];
    assert RoomCount(Returned[..4][..3]) == 2;
    assert RoomCount(Returned[..4]) == 3;
  }
  // ---------------------------------------------------------------------------------
  // The replay is more permissive than the search

  /** A weapon without any stats. */
  const Stick := Item("stick", Weapon, 0, 0, 0, 0, 0, false, false)

  /** Room 0 (the entrance) holds a sword; room 1 holds the treasure, the ogre and a stick. */
  const Swap: seq<Room> := [Room([1], None, [W.Sword]), Room([0], Some(W.Ogre), [Stick])]

  /** In at room 0 with its sword, through the ogre's room, where the sword is swapped for
      the stick, and back out. */
  const Swapping := [Move(0), Pickup(0), Move(1), Drop(Weapon), Pickup(0), Move(0)]

  /** The state after swapping the sword for the stick in the ogre's room (`Home1` and
      `HomeBare1` are the states before and between). */
  const Sticked := State(1, true, [FromItem(Stick)], false)

  /** `Play` meets a room's monster only when the hero enters the room, so the replay
      accepts swapping the sword for the stick next to the ogre. The search re-runs the
      encounter on every dequeued state, the states its item loop queues included
      (pt1/sample.cpp:324-345 and 357-371), and the hero holding only the stick loses
      there: the search never returns this path. */
  lemma ReplayMorePermissive()
    ensures WellFormed(Swap, [0])
    ensures IsSolution(Swap, [0], 1, Swapping)
    ensures Process(Swap, 1, Sticked) == None
  {
    SwapPlays();
    StickLoses();
  }

  lemma SwapPlays()
    ensures Play(Swap, [0], 1, Swapping) == Some(Sticked.(room := 0))
  {
    var p3 := [Move(0), Pickup(0), Move(1)];
    SwapArrives();
    PlayAppend(Swap, [0], 1, p3, Drop(Weapon));
    assert FindType([W.S], Weapon) == 0 && [W.S][..0] + [W.S][1..] == [];
    assert Play(Swap, [0], 1, p3 + [Drop(Weapon)]) == Some(HomeBare1);
    PlayAppend(Swap, [0], 1, p3 + [Drop(Weapon)], Pickup(0));
    assert EquipItem(HomeBare1, Stick) == Sticked;
    assert Play(Swap, [0], 1, p3 + [Drop(Weapon)] + [Pickup(0)]) == Some(Sticked);
    PlayAppend(Swap, [0], 1, p3 + [Drop(Weapon)] + [Pickup(0)], Move(0));
    assert p3 + [Drop(Weapon)] + [Pickup(0)] + [Move(0)] == Swapping;
  }

  /** With the sword of room 0 the hero beats the ogre and takes the treasure. */
  lemma SwapArrives()
    ensures Play(Swap, [0], 1, [Move(0), Pickup(0), Move(1)]) == Some(Home1)
  {
    var p := [Move(0), Pickup(0), Move(1)];
    assert p[..1] == [Move(0)] && p[..2] == [Move(0), Pickup(0)] && p[..2][..1] == p[..1];
    assert Play(Swap, [0], 1, p[..1]) == Some(W.S0);
    assert !HasType([], Weapon) && EquipItem(W.S0, W.Sword) == W.S0Sword;
    assert Play(Swap, [0], 1, p[..2]) == Some(W.S0Sword);
    W.SwordLoadout([W.S]);
  }

  /** Holding only the stick, the hero loses to the ogre and cannot sneak past it. */
  lemma StickLoses()
    ensures Process(Swap, 1, Sticked) == None
  {
    assert [FromItem(Stick)][1..] == [];
    assert Total([FromItem(Stick)]) == Monster(0, 0, 0, 0, 0);
    assert FighterStats([FromItem(Stick)]) == Monster(10000, 3, 2, 0, 0);
    assert !AnyFirstAttack([FromItem(Stick)]) && !AnyStealth([FromItem(Stick)]);
  }
}
