/**
 * `find_shortest_path` and `reconstructPath` of pt1/sample.cpp exactly as they are written,
 * as functions with a round budget (`fuel`) so that lemmas can run them. Two details differ
 * from the corrected search of module TreasureSearch (see README.md, "Findings"):
 *  - the drop branch of the item loop pushes the dropped state and the re-picked state
 *    without marking them visited, so they can be pushed again and again;
 *  - parent links name the state after the encounter (`current`, whose treasure and stealth
 *    flags may have just changed), and the path is rebuilt from that state, which is in
 *    general not a key of the parent map; the entrance move of a seed is never emitted.
 */
module TreasureAsWritten {
  import opened Wrappers
  import opened Combat
  import opened Dungeon
  import opened Loadout
  import opened SearchSpace
  import opened TreasureSearch

  /** One round of the item loop (lines 347-377) for item `itemIndex`, as written: the
      dropped state and the re-picked state are pushed without being marked visited. */
  function ItemRoundAsWritten(rooms: seq<Room>, current: State, f: Frontier, itemIndex: nat): (f': Frontier)
    requires current.room < |rooms| && itemIndex < |rooms[current.room].items|
    requires RoomsOk(rooms, f.q)
    ensures RoomsOk(rooms, f'.q) && f'.visited <= f.visited + {EquipItem(current, rooms[current.room].items[itemIndex])}
  {
    var item := rooms[current.room].items[itemIndex];
    var haveThisType := HasType(current.equipped, item.itemType);
    if !haveThisType && !current.usedStealth then
      var next := EquipItem(current, item);
      if next in f.visited then f
      else Frontier([next] + f.q, f.visited + {next}, f.parents[next := ParentInfo(current, Pickup(itemIndex))])
    else if haveThisType then
      var temp := DropItem(current, item.itemType);
      if temp in f.visited then f
      else
        var f1 := f.(q := [temp] + f.q, parents := f.parents[temp := ParentInfo(current, Drop(item.itemType))]);
        if current.usedStealth then f1
        else
          var temp2 := EquipItem(temp, item);
          if temp2 in f1.visited then f1
          else f1.(q := [temp2] + f1.q, parents := f1.parents[temp2 := ParentInfo(temp, Pickup(itemIndex))])
    else f
  }

  /** The item loop over the first `n` items of the room. */
  function ItemsAsWritten(rooms: seq<Room>, current: State, f: Frontier, n: nat): (f': Frontier)
    requires current.room < |rooms| && n <= |rooms[current.room].items|
    requires RoomsOk(rooms, f.q)
    ensures RoomsOk(rooms, f'.q)
  {
    if n == 0 then f
    else ItemRoundAsWritten(rooms, current, ItemsAsWritten(rooms, current, f, n - 1), n - 1)
  }

  /** The move loop of lines 385-394 over the first `n` neighbours. */
  function MovesAsWritten(rooms: seq<Room>, current: State, f: Frontier, n: nat): (f': Frontier)
    requires current.room < |rooms| && n <= |rooms[current.room].neighbors|
    requires forall k :: 0 <= k < |rooms[current.room].neighbors| ==> rooms[current.room].neighbors[k] < |rooms|
    requires RoomsOk(rooms, f.q)
    ensures RoomsOk(rooms, f'.q)
  {
    if n == 0 then f
    else
      var g := MovesAsWritten(rooms, current, f, n - 1);
      var tba := MoveSuccessor(current, rooms[current.room].neighbors[n - 1]);
      if tba in g.visited then g
      else Frontier(g.q + [tba], g.visited + {tba}, g.parents[tba := ParentInfo(current, Move(tba.room))])
  }

  /** One round of the main loop (lines 319-394) as written. */
  function RoundAsWritten(rooms: seq<Room>, entrances: seq<nat>, treasure: nat, f: Frontier): (r: Outcome)
    requires WellFormed(rooms, entrances)
    requires f.q != [] && RoomsOk(rooms, f.q)
    ensures r.Continue? ==> RoomsOk(rooms, r.f.q)
  {
    var popped := f.q[0];
    var f0 := f.(q := f.q[1..]);
    match Process(rooms, treasure, popped)
    case None => Continue(f0.(visited := f0.visited + {popped}))
    case Some(current) =>
      var f1 := ItemsAsWritten(rooms, current, f0, |rooms[current.room].items|);
      if current.hasTreasure && current.room in entrances then Found(f1.parents, current)
      else Continue(MovesAsWritten(rooms, current, f1, |rooms[current.room].neighbors|))
  }

  /** `reconstructPath` as written (lines 252-266): it stops at a state that is not a key
      and at a link to `OUT_STATE` before collecting that link's action. None when the
      budget runs out. */
  function ReconstructAsWritten(parents: map<State, ParentInfo>, current: State, fuel: nat): Option<seq<Action>>
    decreases fuel
  {
    if fuel == 0 then None
    else if current !in parents then Some([])
    else if parents[current].parent.room == SIZE_MAX then Some([])
    else
      match ReconstructAsWritten(parents, parents[current].parent, fuel - 1)
      case None => None
      case Some(p) => Some(p + [parents[current].action])
  }

  /** The main loop with a budget of `fuel` rounds: Some(path) when the search returns
      `path` within the budget (the empty path when the deque runs dry), None otherwise. */
  function RunAsWritten(rooms: seq<Room>, entrances: seq<nat>, treasure: nat, f: Frontier, fuel: nat): Option<seq<Action>>
    requires WellFormed(rooms, entrances) && RoomsOk(rooms, f.q)
    decreases fuel
  {
    if fuel == 0 then None
    else if f.q == [] then Some([])
    else
      match RoundAsWritten(rooms, entrances, treasure, f)
      case Found(parents, current) => ReconstructAsWritten(parents, current, fuel)
      case Continue(f') => RunAsWritten(rooms, entrances, treasure, f', fuel - 1)
  }

  /** `find_shortest_path` as written, run for at most `fuel` rounds. */
  function FindShortestPathAsWritten(rooms: seq<Room>, entrances: seq<nat>, treasure: nat, fuel: nat): Option<seq<Action>>
    requires WellFormed(rooms, entrances)
  {
    RunAsWritten(rooms, entrances, treasure, Seeds(rooms, entrances, |entrances|), fuel)
  }

  // ---------------------------------------------------------------------------------
  // Finding 1: the drop branch can make the search run forever

  /** A weapon that lets the hero beat the monster of room 1. */
  const Sword := Item("sword", Weapon, 0, 100, 0, 0, 0, false, false)
  /** An armour that only grants stealth. */
  const Cloak := Item("cloak", Armor, 0, 0, 0, 0, 0, false, true)
  const Ogre := Monster(100, 1000, 0, 0, 0)

  /** Room 0 (the entrance) holds a sword and leads to room 1; room 1 holds the ogre, a
      cloak and a second sword and leads nowhere; the treasure lies in room 2, which
      nothing leads to. */
  const Loop: seq<Room> := [Room([1], None, [Sword]), Room([], Some(Ogre), [Cloak, Sword]), Room([], None, [])]

  const S := FromItem(Sword)
  const C := FromItem(Cloak)

  /** The two states the drop branch keeps pushing: cloak then sword, and cloak alone. */
  const Looping := State(1, false, [C, S], false)
  const CloakOnly := State(1, false, [C], false)

  lemma LoopWellFormed()
    ensures WellFormed(Loop, [0])
  {
  }

  lemma Slices()
    ensures [S, C][1..] == [C] && [C, S][1..] == [S] && [S][1..] == [] && [C][1..] == []
    ensures [S, C][..0] == [] && [S, C][..1] == [S] && [S, C][2..] == []
    ensures [C, S][..0] == [] && [C, S][..1] == [C] && [C, S][2..] == []
    ensures [S][..0] == [] && [] + [S] == [S] && [S] + [C] == [S, C] && [C] + [S] == [C, S]
  {
  }

  /** The bare hero loses to the ogre and cannot sneak past it. */
  lemma BareHeroDies()
    ensures Process(Loop, 2, S1).None?
  {
    assert FighterStats([]) == Monster(10000, 3, 2, 0, 0);
    assert !AnyFirstAttack([]) && !AnyStealth([]);
  }

  /** With the sword, whatever else the hero carries, the ogre is beaten. */
  lemma SwordWins(s: State)
    requires s.room == 1 && (s.equipped == [S] || s.equipped == [S, C] || s.equipped == [C, S])
    requires !s.hasTreasure && !s.usedStealth
    ensures Process(Loop, 2, s) == Some(s)
  {
    SwordLoadout(s.equipped);
  }

  lemma SwordLoadout(e: seq<EquippedItem>)
    requires e == [S] || e == [S, C] || e == [C, S]
    ensures FighterStats(e) == Monster(10000, 103, 2, 0, 0)
    ensures !AnyFirstAttack(e) && HeroSurvives(e, Ogre)
  {
    Slices();
    assert Total([C]) == Monster(0, 0, 0, 0, 0);
    assert Total([S]) == Monster(0, 100, 0, 0, 0);
    assert FighterStats(e) == Monster(10000, 103, 2, 0, 0);
  }

  /** Dropping either item from a sword-and-cloak loadout. */
  lemma DropFacts()
    ensures DropItem(S1SwordCloak, Armor) == S1Sword && DropItem(S1SwordCloak, Weapon) == CloakOnly
    ensures DropItem(Looping, Armor) == S1Sword && DropItem(Looping, Weapon) == CloakOnly
    ensures EquipItem(CloakOnly, Sword) == Looping
  {
    Slices();
    assert FindType([S, C], Armor) == 1;
    assert FindType([C, S], Weapon) == 1;
    assert FindType([C], Weapon) == 1;
  }

  /** The sword-only state of room 1 has been seen, the two states the drop branch
      pushes never are. */
  ghost predicate Stuck(v: set<State>) {
    S1Sword in v && CloakOnly !in v && Looping !in v
  }

  /** The item loop of room 1 for a hero holding the sword and the cloak: dropping the
      cloak gives the visited sword-only state; dropping the sword gives `CloakOnly`,
      and re-picking the second sword gives `Looping`, both pushed to the front unvisited. */
  lemma SwapBack(c: State, f0: Frontier)
    requires c == S1SwordCloak || c == Looping
    requires RoomsOk(Loop, f0.q) && Stuck(f0.visited)
    ensures ItemsAsWritten(Loop, c, f0, 2).q == [Looping] + ([CloakOnly] + f0.q)
    ensures ItemsAsWritten(Loop, c, f0, 2).visited == f0.visited
  {
    CloakDropSeen(c, f0);
    SwordSwap(c, f0);
    assert ItemsAsWritten(Loop, c, f0, 0) == f0;
  }

  lemma CloakDropSeen(c: State, f0: Frontier)
    requires c == S1SwordCloak || c == Looping
    requires RoomsOk(Loop, f0.q) && Stuck(f0.visited)
    ensures ItemRoundAsWritten(Loop, c, f0, 0) == f0
  {
    DropFacts();
    assert DropItem(c, Armor) == S1Sword;
  }

  lemma SwordSwap(c: State, f0: Frontier)
    requires c == S1SwordCloak || c == Looping
    requires RoomsOk(Loop, f0.q) && Stuck(f0.visited)
    ensures ItemRoundAsWritten(Loop, c, f0, 1).q == [Looping] + ([CloakOnly] + f0.q)
    ensures ItemRoundAsWritten(Loop, c, f0, 1).visited == f0.visited
  {
    SwordDropFacts(c);
  }

  lemma SwordDropFacts(c: State)
    requires c == S1SwordCloak || c == Looping
    ensures HasType(c.equipped, Weapon) && DropItem(c, Weapon) == CloakOnly && EquipItem(CloakOnly, Sword) == Looping
  {
    DropFacts();
  }

  /** A round from a configuration whose deque starts with `Looping` and whose visited set
      is `Stuck` ends in such a configuration again: the drop branch pushes
      `CloakOnly` and then `Looping` back to the front, and nothing is marked visited. */
  lemma LoopRound(f: Frontier)
    requires RoomsOk(Loop, f.q) && f.q != [] && f.q[0] == Looping && Stuck(f.visited)
    ensures WellFormed(Loop, [0])
    ensures RoundAsWritten(Loop, [0], 2, f).Continue?
    ensures var g := RoundAsWritten(Loop, [0], 2, f).f;
            |g.q| > 0 && g.q[0] == Looping && g.visited == f.visited
  {
    LoopWellFormed();
    SwordWins(Looping);
    var f0 := f.(q := f.q[1..]);
    SwapBack(Looping, f0);
    var i2 := ItemsAsWritten(Loop, Looping, f0, 2);
    assert MovesAsWritten(Loop, Looping, i2, 0) == i2;
  }

  lemma {:induction false} LoopForever(f: Frontier, fuel: nat)
    requires RoomsOk(Loop, f.q) && f.q != [] && f.q[0] == Looping && Stuck(f.visited)
    ensures WellFormed(Loop, [0])
    ensures RunAsWritten(Loop, [0], 2, f, fuel) == None
    decreases fuel
  {
    LoopWellFormed();
    if fuel > 0 {
      LoopRound(f);
      var f' := RoundAsWritten(Loop, [0], 2, f).f;
      LoopForever(f', fuel - 1);
    }
  }

  /** However many rounds it is given, the search as written started from `f` is still going. */
  ghost predicate NeverReturns(rooms: seq<Room>, entrances: seq<nat>, treasure: nat, f: Frontier) {
    && WellFormed(rooms, entrances) && RoomsOk(rooms, f.q)
    && forall fuel: nat :: RunAsWritten(rooms, entrances, treasure, f, fuel) == None
  }

  /** A round that goes on to a configuration that never returns does not return either. */
  lemma NeverStep(rooms: seq<Room>, entrances: seq<nat>, treasure: nat, f: Frontier, g: Frontier)
    requires WellFormed(rooms, entrances) && RoomsOk(rooms, f.q) && f.q != []
    requires RoundAsWritten(rooms, entrances, treasure, f) == Continue(g) && NeverReturns(rooms, entrances, treasure, g)
    ensures NeverReturns(rooms, entrances, treasure, f)
  {
    forall fuel: nat ensures RunAsWritten(rooms, entrances, treasure, f, fuel) == None {
      if fuel > 0 {
        assert RunAsWritten(rooms, entrances, treasure, g, fuel - 1) == None;
      }
    }
  }

  /** The cycle of `LoopRound` never ends. */
  lemma LoopNever(f: Frontier)
    requires RoomsOk(Loop, f.q) && f.q != [] && f.q[0] == Looping && Stuck(f.visited)
    ensures NeverReturns(Loop, [0], 2, f)
  {
    LoopWellFormed();
    forall fuel: nat ensures RunAsWritten(Loop, [0], 2, f, fuel) == None {
      LoopForever(f, fuel);
    }
  }

  const S0 := State(0, false, [], false)
  const S0Sword := State(0, false, [S], false)
  const S1 := State(1, false, [], false)
  const S1Sword := State(1, false, [S], false)
  const S1SwordCloak := State(1, false, [S, C], false)

  /** The seeding loop queues the entrance state, and the full search starts from it. */
  lemma SeedFacts()
    ensures WellFormed(Loop, [0])
    ensures Seeds(Loop, [0], 1).q == [S0] && Seeds(Loop, [0], 1).visited == {S0}
    ensures forall fuel: nat {:trigger FindShortestPathAsWritten(Loop, [0], 2, fuel)} ::
              FindShortestPathAsWritten(Loop, [0], 2, fuel) == RunAsWritten(Loop, [0], 2, Seeds(Loop, [0], 1), fuel)
  {
    LoopWellFormed();
  }

  /** The item and move loops of round 1: the sword goes to the front, room 1 to the back. */
  lemma Round1Loops(f0: Frontier)
    requires f0.q == [] && f0.visited == {S0}
    ensures RoomsOk(Loop, f0.q) && WellFormed(Loop, [0])
    ensures var m := MovesAsWritten(Loop, S0, ItemsAsWritten(Loop, S0, f0, 1), 1);
            m.q == [S0Sword, S1] && m.visited == {S0, S0Sword, S1}
  {
    LoopWellFormed();
    assert EquipItem(S0, Sword) == S0Sword;
    var i1 := ItemRoundAsWritten(Loop, S0, f0, 0);
    assert i1.q == [S0Sword] && i1.visited == {S0, S0Sword};
    assert ItemsAsWritten(Loop, S0, f0, 1) == i1;
    assert MovesAsWritten(Loop, S0, i1, 0) == i1;
    assert MoveSuccessor(S0, 1) == S1;
  }

  /** Round 1: the entrance state picks up the sword (front) and moves to room 1 (back). */
  lemma Round1() returns (g: Frontier)
    ensures WellFormed(Loop, [0]) && RoomsOk(Loop, Seeds(Loop, [0], 1).q)
    ensures NeverReturns(Loop, [0], 2, g) ==> NeverReturns(Loop, [0], 2, Seeds(Loop, [0], 1))
    ensures g.q == [S0Sword, S1] && S0 in g.visited && S1 in g.visited
    ensures S1Sword !in g.visited && S1SwordCloak !in g.visited && CloakOnly !in g.visited && Looping !in g.visited
  {
    var f := Seeds(Loop, [0], 1);
    SeedFacts();
    assert Process(Loop, 2, S0) == Some(S0);
    var f0 := f.(q := f.q[1..]);
    Round1Loops(f0);
    g := MovesAsWritten(Loop, S0, ItemsAsWritten(Loop, S0, f0, 1), 1);
    assert RoundAsWritten(Loop, [0], 2, f) == Continue(g);
    if NeverReturns(Loop, [0], 2, g) { NeverStep(Loop, [0], 2, f, g); }
  }

  /** Round 2: with the sword, dropping it gives the visited entrance state; moving to room 1
      with the sword is new. */
  lemma Round2(f: Frontier) returns (g: Frontier)
    requires f.q == [S0Sword, S1] && S0 in f.visited && S1 in f.visited
    requires S1Sword !in f.visited && S1SwordCloak !in f.visited && CloakOnly !in f.visited && Looping !in f.visited
    ensures WellFormed(Loop, [0]) && RoomsOk(Loop, f.q)
    ensures NeverReturns(Loop, [0], 2, g) ==> NeverReturns(Loop, [0], 2, f)
    ensures g.q == [S1, S1Sword] && S1 in g.visited && S1Sword in g.visited
    ensures S1SwordCloak !in g.visited && CloakOnly !in g.visited && Looping !in g.visited
  {
    LoopWellFormed();
    assert Process(Loop, 2, S0Sword) == Some(S0Sword);
    assert DropItem(S0Sword, Weapon) == S0;
    var f0 := f.(q := f.q[1..]);
    assert f0.q == [S1];
    var i1 := ItemRoundAsWritten(Loop, S0Sword, f0, 0);
    assert i1 == f0;
    assert ItemsAsWritten(Loop, S0Sword, f0, 1) == i1;
    var m1 := MovesAsWritten(Loop, S0Sword, i1, 1);
    assert MovesAsWritten(Loop, S0Sword, i1, 0) == i1;
    assert MoveSuccessor(S0Sword, 1) == S1Sword;
    assert m1.q == [S1, S1Sword] && m1.visited == f.visited + {S1Sword};
    g := m1;
    assert RoundAsWritten(Loop, [0], 2, f) == Continue(g);
    if NeverReturns(Loop, [0], 2, g) { NeverStep(Loop, [0], 2, f, g); }
  }

  /** Round 3: the bare hero dies to the ogre. */
  lemma Round3(f: Frontier) returns (g: Frontier)
    requires f.q == [S1, S1Sword] && S1 in f.visited && S1Sword in f.visited
    requires S1SwordCloak !in f.visited && CloakOnly !in f.visited && Looping !in f.visited
    ensures WellFormed(Loop, [0]) && RoomsOk(Loop, f.q)
    ensures NeverReturns(Loop, [0], 2, g) ==> NeverReturns(Loop, [0], 2, f)
    ensures g.q == [S1Sword] && S1 in g.visited && S1Sword in g.visited
    ensures S1SwordCloak !in g.visited && CloakOnly !in g.visited && Looping !in g.visited
  {
    LoopWellFormed();
    BareHeroDies();
    g := f.(q := f.q[1..], visited := f.visited + {S1});
    assert RoundAsWritten(Loop, [0], 2, f) == Continue(g);
    if NeverReturns(Loop, [0], 2, g) { NeverStep(Loop, [0], 2, f, g); }
  }

  /** Round 4: with the sword the hero beats the ogre and picks up the cloak. */
  lemma Round4(f: Frontier) returns (g: Frontier)
    requires f.q == [S1Sword] && S1 in f.visited && S1Sword in f.visited
    requires S1SwordCloak !in f.visited && CloakOnly !in f.visited && Looping !in f.visited
    ensures WellFormed(Loop, [0]) && RoomsOk(Loop, f.q)
    ensures NeverReturns(Loop, [0], 2, g) ==> NeverReturns(Loop, [0], 2, f)
    ensures g.q == [S1SwordCloak] && Stuck(g.visited)
  {
    LoopWellFormed();
    SwordWins(S1Sword);
    assert FindType([S], Armor) == 1;
    assert EquipItem(S1Sword, Cloak) == S1SwordCloak;
    assert DropItem(S1Sword, Weapon) == S1;
    var f0 := f.(q := f.q[1..]);
    assert f0.q == [];
    var i1 := ItemRoundAsWritten(Loop, S1Sword, f0, 0);
    assert i1.q == [S1SwordCloak] && i1.visited == f.visited + {S1SwordCloak};
    var i2 := ItemRoundAsWritten(Loop, S1Sword, i1, 1);
    assert i2 == i1;
    assert ItemsAsWritten(Loop, S1Sword, f0, 0) == f0;
    assert ItemsAsWritten(Loop, S1Sword, f0, 1) == i1;
    assert ItemsAsWritten(Loop, S1Sword, f0, 2) == i2;
    assert MovesAsWritten(Loop, S1Sword, i2, 0) == i2;
    g := i2;
    assert RoundAsWritten(Loop, [0], 2, f) == Continue(g);
    if NeverReturns(Loop, [0], 2, g) { NeverStep(Loop, [0], 2, f, g); }
  }

  /** Round 5: swapping the sword for the second one pushes `CloakOnly` and `Looping`,
      neither marked visited. */
  lemma Round5(f: Frontier) returns (g: Frontier)
    requires f.q == [S1SwordCloak] && Stuck(f.visited)
    ensures WellFormed(Loop, [0]) && RoomsOk(Loop, f.q)
    ensures NeverReturns(Loop, [0], 2, g) ==> NeverReturns(Loop, [0], 2, f)
    ensures g.q == [Looping, CloakOnly] && Stuck(g.visited)
  {
    LoopWellFormed();
    SwordWins(S1SwordCloak);
    var f0 := f.(q := f.q[1..]);
    assert f0.q == [];
    SwapBack(S1SwordCloak, f0);
    var i2 := ItemsAsWritten(Loop, S1SwordCloak, f0, 2);
    assert MovesAsWritten(Loop, S1SwordCloak, i2, 0) == i2;
    g := i2;
    assert RoundAsWritten(Loop, [0], 2, f) == Continue(g);
    if NeverReturns(Loop, [0], 2, g) { NeverStep(Loop, [0], 2, f, g); }
  }

  /** As written, the search on `Loop` never returns: however many rounds it is given,
      it is still going. (The treasure room cannot be reached, so the intended result is
      the empty path.) */
  lemma AsWrittenRunsForever(fuel: nat)
    ensures WellFormed(Loop, [0])
    ensures FindShortestPathAsWritten(Loop, [0], 2, fuel) == None
  {
    SeedFacts();
    SeedsNeverReturn();
  }

  /** The five rounds from the seeds lead into the cycle. */
  lemma SeedsNeverReturn()
    ensures NeverReturns(Loop, [0], 2, Seeds(Loop, [0], 1))
  {
    var f1 := Round1();
    var f2 := Round2(f1);
    var f3 := Round3(f2);
    LaterRoundsNeverReturn(f3);
  }

  /** From the configuration after round 3, rounds 4 and 5 lead into the cycle. */
  lemma LaterRoundsNeverReturn(f3: Frontier)
    requires f3.q == [S1Sword] && S1 in f3.visited && S1Sword in f3.visited
    requires S1SwordCloak !in f3.visited && CloakOnly !in f3.visited && Looping !in f3.visited
    ensures NeverReturns(Loop, [0], 2, f3)
  {
    var f4 := Round4(f3);
    var f5 := Round5(f4);
    LoopNever(f5);
  }

  // ---------------------------------------------------------------------------------
  // Finding 2: the path is rebuilt from a state that is not a key of the parent map

  /** A single room that is both the entrance and the treasure room. */
  const OneRoom: seq<Room> := [Room([], None, [])]

  /** Two rooms joined by a corridor; the hero enters at room 0 and the treasure lies in
      room 1. */
  const TwoRooms: seq<Room> := [Room([1], None, []), Room([0], None, [])]

  /** Standing in the treasure room at the entrance, the move into the entrance is a
      solution, but the search as written returns the empty path, which means "no
      solution": the processed state carries the treasure flag and is not a key. */
  lemma AsWrittenMissesSolution(fuel: nat)
    requires fuel >= 1
    ensures WellFormed(OneRoom, [0])
    ensures IsSolution(OneRoom, [0], 0, [Move(0)])
    ensures FindShortestPathAsWritten(OneRoom, [0], 0, fuel) == Some([])
  {
    assert Walk(OneRoom, [Move(0)]) == Some(0);
    assert [Move(0)][..1] == [Move(0)];
    var s0 := State(0, false, [], false);
    var f := Seeds(OneRoom, [0], 1);
    assert f.q == [s0] && f.parents == map[s0 := ParentInfo(OUT_STATE, Move(0))];
    var c := State(0, true, [], false);
    assert Process(OneRoom, 0, s0) == Some(c);
    var f0 := f.(q := f.q[1..]);
    assert ItemsAsWritten(OneRoom, c, f0, 0) == f0;
    assert RoundAsWritten(OneRoom, [0], 0, f) == Found(f.parents, c);
    assert c !in f.parents;
  }

  /** In the two-room dungeon the shortest solution walks to the treasure and back; the
      search as written returns only the last move, which never visits the treasure
      room. */
  lemma AsWrittenTruncatesPath(fuel: nat)
    requires fuel >= 4
    ensures WellFormed(TwoRooms, [0])
    ensures IsSolution(TwoRooms, [0], 1, [Move(0), Move(1), Move(0)])
    ensures FindShortestPathAsWritten(TwoRooms, [0], 1, fuel) == Some([Move(0)])
    ensures !IsSolution(TwoRooms, [0], 1, [Move(0)])
  {
    ThreeMoveSolution();
    OneMoveNoSolution();
    TwoRoomsSeeds();
    var f0 := Seeds(TwoRooms, [0], 1);
    var f1 := TwoRoomsRound1(f0);
    var f2 := TwoRoomsRound2(f1);
    var T0 := State(0, true, [], false);
    var T1 := State(1, true, [], false);
    assert Process(TwoRooms, 1, T0) == Some(T0);
    var f2' := f2.(q := f2.q[1..]);
    assert ItemsAsWritten(TwoRooms, T0, f2', 0) == f2';
    assert RoundAsWritten(TwoRooms, [0], 1, f2) == Found(f2.parents, T0);
    assert ReconstructAsWritten(f2.parents, T1, fuel - 3) == Some([]);
    assert f2.parents[T0].parent.room != SIZE_MAX && [] + [Move(0)] == [Move(0)];
    assert ReconstructAsWritten(f2.parents, T0, fuel - 2) == Some([Move(0)]);
    assert RunAsWritten(TwoRooms, [0], 1, f2, fuel - 2) == Some([Move(0)]);
    assert RunAsWritten(TwoRooms, [0], 1, f1, fuel - 1) == Some([Move(0)]);
    assert RunAsWritten(TwoRooms, [0], 1, f0, fuel) == Some([Move(0)]);
  }

  lemma ThreeMoveSolution()
    ensures IsSolution(TwoRooms, [0], 1, [Move(0), Move(1), Move(0)])
  {
    var p := [Move(0), Move(1), Move(0)];
    assert p[..1] == [Move(0)] && p[..2] == [Move(0), Move(1)] && p[..3] == p;
    assert [Move(0), Move(1)][..1] == [Move(0)];
    assert Walk(TwoRooms, p[..2]) == Some(1);
    assert Walk(TwoRooms, p) == Some(0);
  }

  lemma OneMoveNoSolution()
    ensures !IsSolution(TwoRooms, [0], 1, [Move(0)])
  {
    forall k | 1 <= k <= 1 ensures Walk(TwoRooms, [Move(0)][..k]) == Some(0) {
      assert [Move(0)][..k] == [Move(0)];
    }
  }

  /** The two-room dungeon with the ogre in the treasure room; the entrance room holds a
      sword in `Armed` and nothing in `Guarded`. */
  const Guarded: seq<Room> := [Room([1], None, []), Room([0], Some(Ogre), [])]
  const Armed: seq<Room> := [Room([1], None, [Sword]), Room([0], Some(Ogre), [])]

  /** Walking to the treasure room and back is no solution when the bare hero dies there:
      the path walks the room graph through the treasure room, but its replay ends on the
      second move. */
  lemma GuardedWalkIsNoSolution()
    ensures WellFormed(Guarded, [0])
    ensures Walk(Guarded, [Move(0), Move(1), Move(0)]) == Some(0)
    ensures VisitsRoom(Guarded, [Move(0), Move(1), Move(0)], 1)
    ensures !IsSolution(Guarded, [0], 1, [Move(0), Move(1), Move(0)])
  {
    var p := [Move(0), Move(1), Move(0)];
    assert p[..1] == [Move(0)] && p[..2] == [Move(0), Move(1)] && p[..3] == p;
    assert [Move(0), Move(1)][..1] == [Move(0)];
    assert Walk(Guarded, p[..2]) == Some(1);
    GuardedDeath();
    PlayAppend(Guarded, [0], 1, p[..2], Move(0));
  }

  /** The bare hero dies on entering the ogre's room. */
  lemma GuardedDeath()
    ensures Play(Guarded, [0], 1, [Move(0), Move(1)]).None?
  {
    assert [Move(0), Move(1)][..1] == [Move(0)];
    assert FighterStats([]) == Monster(10000, 3, 2, 0, 0);
    assert !AnyFirstAttack([]) && !AnyStealth([]);
    assert Play(Guarded, [0], 1, [Move(0)]) == Some(S0);
  }

  /** Picking up the sword first makes the same walk a solution. */
  lemma ArmedWalkIsSolution()
    ensures WellFormed(Armed, [0])
    ensures IsSolution(Armed, [0], 1, [Move(0), Pickup(0), Move(1), Move(0)])
  {
    var p := [Move(0), Pickup(0), Move(1), Move(0)];
    assert p[..1] == [Move(0)] && p[..2] == [Move(0), Pickup(0)] && p[..3] == [Move(0), Pickup(0), Move(1)];
    assert p[..2][..1] == [Move(0)] && p[..3][..2] == p[..2];
    assert Play(Armed, [0], 1, p[..1]) == Some(S0);
    assert !HasType([], Weapon) && EquipItem(S0, Sword) == S0Sword;
    assert Play(Armed, [0], 1, p[..2]) == Some(S0Sword);
    SwordLoadout([S]);
    assert Play(Armed, [0], 1, p[..3]) == Some(State(1, true, [S], false));
    assert Play(Armed, [0], 1, p) == Some(State(0, true, [S], false));
  }

  /** The two-room search is seeded with the hero outside room 0. */
  lemma TwoRoomsSeeds()
    ensures WellFormed(TwoRooms, [0])
    ensures var f := Seeds(TwoRooms, [0], 1);
      && f.q == [State(0, false, [], false)] && f.visited == {State(0, false, [], false)}
      && f.parents.Keys == {State(0, false, [], false)}
  {
  }

  /** Round 1 of the two-room search: the move into room 1 is queued, linked to the seed. */
  lemma TwoRoomsRound1(f: Frontier) returns (g: Frontier)
    requires WellFormed(TwoRooms, [0])
    requires f.q == [State(0, false, [], false)] && f.visited == {State(0, false, [], false)}
    requires f.parents.Keys == {State(0, false, [], false)}
    ensures RoomsOk(TwoRooms, f.q)
    ensures RoundAsWritten(TwoRooms, [0], 1, f) == Continue(g)
    ensures RoomsOk(TwoRooms, g.q)
    ensures g.q == [State(1, false, [], false)] && State(0, true, [], false) !in g.visited
    ensures State(1, true, [], false) !in g.parents
  {
    var s0 := State(0, false, [], false);
    assert Process(TwoRooms, 1, s0) == Some(s0);
    var f0 := f.(q := f.q[1..]);
    assert ItemsAsWritten(TwoRooms, s0, f0, 0) == f0;
    assert MovesAsWritten(TwoRooms, s0, f0, 0) == f0;
    g := MovesAsWritten(TwoRooms, s0, f0, 1);
    assert g.q == [State(1, false, [], false)] && g.visited == {s0, State(1, false, [], false)};
    assert g.parents.Keys == {s0, State(1, false, [], false)};
  }

  /** Round 2: room 1 raises the treasure flag; the move back is linked to the flagged
      state, which is not a key of the parent map. */
  lemma TwoRoomsRound2(f: Frontier) returns (g: Frontier)
    requires f.q == [State(1, false, [], false)] && State(0, true, [], false) !in f.visited
    requires State(1, true, [], false) !in f.parents
    ensures WellFormed(TwoRooms, [0]) && RoomsOk(TwoRooms, f.q)
    ensures RoundAsWritten(TwoRooms, [0], 1, f) == Continue(g)
    ensures RoomsOk(TwoRooms, g.q)
    ensures g.q == [State(0, true, [], false)]
    ensures State(0, true, [], false) in g.parents && g.parents[State(0, true, [], false)] == ParentInfo(State(1, true, [], false), Move(0))
    ensures State(1, true, [], false) !in g.parents
  {
    var s1 := State(1, false, [], false);
    var c := State(1, true, [], false);
    assert Process(TwoRooms, 1, s1) == Some(c);
    var f0 := f.(q := f.q[1..]);
    assert ItemsAsWritten(TwoRooms, c, f0, 0) == f0;
    assert MovesAsWritten(TwoRooms, c, f0, 0) == f0;
    g := MovesAsWritten(TwoRooms, c, f0, 1);
    assert MoveSuccessor(c, 0) == State(0, true, [], false);
  }
  // ---------------------------------------------------------------------------------
  // Finding 2, continued: the parent links can form a cycle

  /** Room 0 (the entrance) leads to room 1, where the treasure lies; room 1 leads to
      room 2, and room 2 leads back to rooms 1 and 0. */
  const Ring: seq<Room> := [Room([1], None, []), Room([2], None, []), Room([1, 0], None, [])]

  /** The three states with the treasure flag raised. */
  const Flag0 := State(0, true, [], false)
  const Flag1 := State(1, true, [], false)
  const Flag2 := State(2, true, [], false)

  lemma RingWellFormed()
    ensures WellFormed(Ring, [0])
  {
  }

  /** The two links that point at each other: the flagged state of room 2 is linked to the
      flagged state of room 1 (the processed state of round 2), and the flagged state of
      room 1, never marked visited by the encounter, is queued again from room 2 and
      linked back to it. */
  ghost predicate Cycle(p: map<State, ParentInfo>) {
    && Flag1 in p && p[Flag1] == ParentInfo(Flag2, Move(1))
    && Flag2 in p && p[Flag2] == ParentInfo(Flag1, Move(2))
  }

  /** Following a cycle of links never reaches `OUT_STATE`: `reconstructPath` does not end. */
  lemma {:induction false} CycleNeverEnds(p: map<State, ParentInfo>, fuel: nat)
    requires Cycle(p)
    ensures ReconstructAsWritten(p, Flag1, fuel) == None && ReconstructAsWritten(p, Flag2, fuel) == None
    decreases fuel
  {
    if fuel > 0 {
      CycleNeverEnds(p, fuel - 1);
    }
  }

  /** Round 1: the entrance state queues room 1. */
  lemma RingRound1(f: Frontier) returns (g: Frontier)
    requires f.q == [S0] && f.visited == {S0}
    ensures WellFormed(Ring, [0]) && RoomsOk(Ring, f.q)
    ensures RoundAsWritten(Ring, [0], 1, f) == Continue(g)
    ensures g.q == [S1] && g.visited == {S0, S1}
  {
    RingWellFormed();
    assert Process(Ring, 1, S0) == Some(S0);
    var f0 := f.(q := f.q[1..]);
    assert ItemsAsWritten(Ring, S0, f0, 0) == f0;
    assert MovesAsWritten(Ring, S0, f0, 0) == f0;
    assert MoveSuccessor(S0, 1) == S1;
    g := MovesAsWritten(Ring, S0, f0, 1);
  }

  /** Round 2: room 1 raises the treasure flag; room 2 is queued, linked to the flagged
      state of room 1. */
  lemma RingRound2(f: Frontier) returns (g: Frontier)
    requires f.q == [S1] && f.visited == {S0, S1}
    ensures WellFormed(Ring, [0]) && RoomsOk(Ring, f.q)
    ensures RoundAsWritten(Ring, [0], 1, f) == Continue(g)
    ensures g.q == [Flag2] && g.visited == {S0, S1, Flag2}
    ensures Flag2 in g.parents && g.parents[Flag2] == ParentInfo(Flag1, Move(2))
  {
    RingWellFormed();
    assert Process(Ring, 1, S1) == Some(Flag1);
    var f0 := f.(q := f.q[1..]);
    assert ItemsAsWritten(Ring, Flag1, f0, 0) == f0;
    assert MovesAsWritten(Ring, Flag1, f0, 0) == f0;
    assert MoveSuccessor(Flag1, 2) == Flag2;
    g := MovesAsWritten(Ring, Flag1, f0, 1);
  }

  /** Round 3: from room 2 both the flagged state of room 1, which the encounter of round 2
      produced but never marked visited, and the flagged state of room 0 are queued. */
  lemma RingRound3(f: Frontier) returns (g: Frontier)
    requires f.q == [Flag2] && f.visited == {S0, S1, Flag2}
    requires Flag2 in f.parents && f.parents[Flag2] == ParentInfo(Flag1, Move(2))
    ensures WellFormed(Ring, [0]) && RoomsOk(Ring, f.q)
    ensures RoundAsWritten(Ring, [0], 1, f) == Continue(g)
    ensures g.q == [Flag1, Flag0] && g.visited == {S0, S1, Flag2, Flag1, Flag0}
    ensures Cycle(g.parents) && Flag0 in g.parents && g.parents[Flag0] == ParentInfo(Flag2, Move(0))
  {
    RingWellFormed();
    assert Process(Ring, 1, Flag2) == Some(Flag2);
    var f0 := f.(q := f.q[1..]);
    assert ItemsAsWritten(Ring, Flag2, f0, 0) == f0;
    assert MovesAsWritten(Ring, Flag2, f0, 0) == f0;
    assert MoveSuccessor(Flag2, 1) == Flag1 && MoveSuccessor(Flag2, 0) == Flag0;
    var m1 := MovesAsWritten(Ring, Flag2, f0, 1);
    assert m1.q == [Flag1] && m1.visited == f.visited + {Flag1};
    g := MovesAsWritten(Ring, Flag2, f0, 2);
  }

  /** Round 4: room 1 again; its move to room 2 is already visited. */
  lemma RingRound4(f: Frontier) returns (g: Frontier)
    requires f.q == [Flag1, Flag0] && f.visited == {S0, S1, Flag2, Flag1, Flag0}
    requires Cycle(f.parents) && Flag0 in f.parents && f.parents[Flag0] == ParentInfo(Flag2, Move(0))
    ensures WellFormed(Ring, [0]) && RoomsOk(Ring, f.q)
    ensures RoundAsWritten(Ring, [0], 1, f) == Continue(g)
    ensures g.q == [Flag0] && Cycle(g.parents) && Flag0 in g.parents && g.parents[Flag0] == ParentInfo(Flag2, Move(0))
  {
    RingWellFormed();
    assert Process(Ring, 1, Flag1) == Some(Flag1);
    var f0 := f.(q := f.q[1..]);
    assert ItemsAsWritten(Ring, Flag1, f0, 0) == f0;
    assert MovesAsWritten(Ring, Flag1, f0, 0) == f0;
    assert MoveSuccessor(Flag1, 2) == Flag2;
    g := MovesAsWritten(Ring, Flag1, f0, 1);
    assert g == f0;
  }

  /** Round 5: back at the entrance with the treasure, the exit test fires, and the path
      is rebuilt into the cycle. */
  lemma RingRound5(f: Frontier)
    requires f.q == [Flag0] && Cycle(f.parents) && Flag0 in f.parents && f.parents[Flag0] == ParentInfo(Flag2, Move(0))
    ensures WellFormed(Ring, [0]) && RoomsOk(Ring, f.q)
    ensures NeverReturns(Ring, [0], 1, f)
  {
    RingWellFormed();
    assert Process(Ring, 1, Flag0) == Some(Flag0);
    var f0 := f.(q := f.q[1..]);
    assert ItemsAsWritten(Ring, Flag0, f0, 0) == f0;
    assert RoundAsWritten(Ring, [0], 1, f) == Found(f.parents, Flag0);
    forall fuel: nat ensures RunAsWritten(Ring, [0], 1, f, fuel) == None {
      if fuel > 0 {
        CycleNeverEnds(f.parents, fuel - 1);
      }
    }
  }

  /** Enter at room 0, walk to the treasure in room 1, on to room 2 and back to room 0. */
  lemma RingSolution()
    ensures IsSolution(Ring, [0], 1, [Move(0), Move(1), Move(2), Move(0)])
  {
    var p := [Move(0), Move(1), Move(2), Move(0)];
    assert p[..1] == [Move(0)] && p[..2] == [Move(0), Move(1)] && p[..3] == [Move(0), Move(1), Move(2)];
    assert p[..2][..1] == [Move(0)] && p[..3][..2] == p[..2];
    assert Play(Ring, [0], 1, p[..1]) == Some(S0);
    assert Play(Ring, [0], 1, p[..2]) == Some(Flag1);
    assert Play(Ring, [0], 1, p[..3]) == Some(Flag2);
    assert Play(Ring, [0], 1, p) == Some(Flag0);
  }

  /** As written, the search on `Ring` never returns although a solution exists: the
      flagged state of room 1 is queued a second time, its link and the link of room 2
      point at each other, and rebuilding the path from room 0 runs round them forever. */
  lemma AsWrittenLoopsOnCycle(fuel: nat)
    ensures WellFormed(Ring, [0])
    ensures IsSolution(Ring, [0], 1, [Move(0), Move(1), Move(2), Move(0)])
    ensures FindShortestPathAsWritten(Ring, [0], 1, fuel) == None
  {
    RingWellFormed();
    RingSolution();
    var f0 := Seeds(Ring, [0], 1);
    assert f0.q == [S0] && f0.visited == {S0};
    var f1 := RingRound1(f0);
    var f2 := RingRound2(f1);
    var f3 := RingRound3(f2);
    var f4 := RingRound4(f3);
    RingRound5(f4);
    NeverStep(Ring, [0], 1, f3, f4);
    NeverStep(Ring, [0], 1, f2, f3);
    NeverStep(Ring, [0], 1, f1, f2);
    NeverStep(Ring, [0], 1, f0, f1);
  }
}
