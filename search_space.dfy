/**
 * The state-space rules of the treasure-hunt search (pt1/sample.cpp, find_shortest_path):
 * what happens to a dequeued state before its successors are generated (the encounter
 * with the room's monster and the treasure capture), how a path of actions is walked
 * through the room graph and replayed by the rules of the game, and the finite set of
 * states the search can ever produce.
 */
module SearchSpace {
  import opened Wrappers
  import opened Combat
  import opened Dungeon
  import opened Loadout

  /** What the engine assumes of its input (the caller validates it): every neighbour and
      every entrance is a room, no room id is the `SIZE_MAX` marker, and every monster is
      alive, as `turns_to_kill` asserts of the hp it is given. */
  predicate WellFormed(rooms: seq<Room>, entrances: seq<nat>) {
    && |rooms| < SIZE_MAX
    && (forall r, k :: 0 <= r < |rooms| && 0 <= k < |rooms[r].neighbors| ==> rooms[r].neighbors[k] < |rooms|)
    && (forall k :: 0 <= k < |entrances| ==> entrances[k] < |rooms|)
    && (forall r :: 0 <= r < |rooms| && rooms[r].monster.Some? ==> rooms[r].monster.value.hp > 0)
  }

  /** The combat of lines 329-333: the hero strikes first iff some equipped item grants it,
      and survives iff the side it plays wins. */
  function HeroSurvives(e: seq<EquippedItem>, m: Monster): bool
    requires m.hp > 0
  {
    var hero := FighterStats(e);
    if AnyFirstAttack(e) then SimulateCombat(hero, m) == AWins else SimulateCombat(m, hero) == BWins
  }

  /** The encounter and the capture applied to a dequeued state (lines 324-345): None when
      the hero loses and cannot sneak, so the state is a dead end; otherwise the state
      with its stealth flag set when it sneaked past, and its treasure flag set when it
      stands in the treasure room without sneaking. */
  function Process(rooms: seq<Room>, treasure: nat, s: State): (r: Option<State>)
    requires s.room < |rooms|
    requires rooms[s.room].monster.Some? ==> rooms[s.room].monster.value.hp > 0
    ensures r.None? <==>
              rooms[s.room].monster.Some? && !HeroSurvives(s.equipped, rooms[s.room].monster.value) &&
              !AnyStealth(s.equipped)
    ensures r.Some? ==>
              var c := r.value;
              && c.room == s.room && c.equipped == s.equipped
              && c.usedStealth == (s.usedStealth || (rooms[s.room].monster.Some? && !HeroSurvives(s.equipped, rooms[s.room].monster.value)))
              && c.hasTreasure == (s.hasTreasure || (s.room == treasure && !c.usedStealth))
  {
    var afterFight :=
      match rooms[s.room].monster
      case None => Some(s)
      case Some(m) =>
        if HeroSurvives(s.equipped, m) then Some(s)
        else if AnyStealth(s.equipped) then Some(s.(usedStealth := true))
        else None;
    match afterFight
    case None => None
    case Some(c) => Some(if c.room == treasure && !c.usedStealth then c.(hasTreasure := true) else c)
  }

  /** The treasure flag is sticky and is only ever raised in the treasure room, on a
      visit that did not sneak. */
  lemma ProcessTreasureFlag(rooms: seq<Room>, treasure: nat, s: State)
    requires s.room < |rooms|
    requires rooms[s.room].monster.Some? ==> rooms[s.room].monster.value.hp > 0
    requires Process(rooms, treasure, s).Some?
    ensures s.hasTreasure ==> Process(rooms, treasure, s).value.hasTreasure
    ensures !s.hasTreasure && Process(rooms, treasure, s).value.hasTreasure ==>
              s.room == treasure && !Process(rooms, treasure, s).value.usedStealth
  {
  }

  /** A move successor (lines 385-388): the neighbour's room, stealth cleared, loadout and
      treasure flag carried forward. */
  function MoveSuccessor(c: State, neighbour: nat): (t: State)
    ensures t.room == neighbour && !t.usedStealth
    ensures t.equipped == c.equipped && t.hasTreasure == c.hasTreasure
  {
    c.(room := neighbour, usedStealth := false)
  }

  // ---------------------------------------------------------------------------------
  // Walking a path through the room graph

  /** The room after performing `a` in room `cur`, or None if the action is not possible
      there: a move must follow an edge, a pickup must name an item of the room. */
  function StepRoom(rooms: seq<Room>, cur: nat, a: Action): Option<nat> {
    match a
    case Move(n) => if cur < |rooms| && n in rooms[cur].neighbors then Some(n) else None
    case Pickup(i) => if cur < |rooms| && i < |rooms[cur].items| then Some(cur) else None
    case Drop(_) => Some(cur)
  }

  /** The room a path ends in: the path must start with the move into its first room,
      and every later action must be possible where it is performed. */
  function Walk(rooms: seq<Room>, path: seq<Action>): Option<nat>
    decreases |path|
  {
    if |path| == 0 then None
    else if |path| == 1 then (if path[0].Move? && path[0].room < |rooms| then Some(path[0].room) else None)
    else
      match Walk(rooms, path[..|path| - 1])
      case None => None
      case Some(cur) => StepRoom(rooms, cur, path[|path| - 1])
  }

  /** Some prefix of the path ends in room `t`. */
  ghost predicate VisitsRoom(rooms: seq<Room>, path: seq<Action>, t: nat) {
    exists k :: 1 <= k <= |path| && Walk(rooms, path[..k]) == Some(t)
  }

  lemma WalkAppend(rooms: seq<Room>, path: seq<Action>, a: Action)
    requires |path| >= 1
    ensures Walk(rooms, path + [a]) ==
              match Walk(rooms, path)
              case None => None
              case Some(cur) => StepRoom(rooms, cur, a)
  {
    assert (path + [a])[..|path|] == path;
  }

  /** Extending a path keeps the rooms it already visited, and its last room is visited. */
  lemma VisitsAppend(rooms: seq<Room>, path: seq<Action>, a: Action, t: nat)
    requires VisitsRoom(rooms, path, t) || Walk(rooms, path) == Some(t)
    ensures VisitsRoom(rooms, path + [a], t)
  {
    if VisitsRoom(rooms, path, t) {
      var k :| 1 <= k <= |path| && Walk(rooms, path[..k]) == Some(t);
      assert (path + [a])[..k] == path[..k];
    } else {
      assert |path| >= 1;
      assert (path + [a])[..|path|] == path;
    }
  }

  /** The room a path ends in is one it visits. */
  lemma WalkEndVisits(rooms: seq<Room>, path: seq<Action>, t: nat)
    requires Walk(rooms, path) == Some(t)
    ensures VisitsRoom(rooms, path, t)
  {
    assert path[..|path|] == path;
  }

  // ---------------------------------------------------------------------------------
  // Playing a path by the rules of the search

  /** Room `r` exists and its monster, if any, is alive, so the encounter there is defined. */
  predicate Enterable(rooms: seq<Room>, r: nat) {
    r < |rooms| && (rooms[r].monster.Some? ==> rooms[r].monster.value.hp > 0)
  }

  /** The hero's state after performing `a` in state `c` by the game's rules (the
      successors of lines 347-394), or None when the action is not allowed or the hero
      dies: a move follows an edge and the hero then meets the monster of the room it
      enters (`Process`); a pickup names an item of the room, of a type the hero does not
      carry, and is not allowed after sneaking in; a drop removes the equipped item of its
      type. The monster is met only on entering a room; the search also re-runs the
      encounter on the states its item loop queues, so it accepts fewer paths. */
  function PlayStep(rooms: seq<Room>, treasure: nat, c: State, a: Action): Option<State> {
    match a
    case Move(n) =>
      if c.room < |rooms| && n in rooms[c.room].neighbors && Enterable(rooms, n)
      then Process(rooms, treasure, MoveSuccessor(c, n)) else None
    case Pickup(i) =>
      if c.room < |rooms| && i < |rooms[c.room].items| && !c.usedStealth &&
         !HasType(c.equipped, rooms[c.room].items[i].itemType)
      then Some(EquipItem(c, rooms[c.room].items[i])) else None
    case Drop(t) => if HasType(c.equipped, t) then Some(DropItem(c, t)) else None
  }

  /** The hero's state after playing `path` from outside the dungeon, or None when some
      action is not allowed or the hero dies: the first action is the move into an
      entrance, where the hero arrives with nothing equipped and meets the room's monster
      (lines 305-345); every later action is played as `PlayStep` says. */
  function Play(rooms: seq<Room>, entrances: seq<nat>, treasure: nat, path: seq<Action>): Option<State>
    decreases |path|
  {
    if |path| == 0 then None
    else if |path| == 1 then
      (if path[0].Move? && path[0].room in entrances && Enterable(rooms, path[0].room)
       then Process(rooms, treasure, State(path[0].room, false, [], false)) else None)
    else
      match Play(rooms, entrances, treasure, path[..|path| - 1])
      case None => None
      case Some(c) => PlayStep(rooms, treasure, c, path[|path| - 1])
  }

  /** What a returned path must be: played from outside the dungeon, the hero survives
      every encounter, performs only allowed actions, and ends in an entrance carrying the
      treasure (the exit test of lines 379-383). */
  ghost predicate IsSolution(rooms: seq<Room>, entrances: seq<nat>, treasure: nat, path: seq<Action>) {
    && Play(rooms, entrances, treasure, path).Some?
    && Play(rooms, entrances, treasure, path).value.hasTreasure
    && Play(rooms, entrances, treasure, path).value.room in entrances
  }

  lemma PlayAppend(rooms: seq<Room>, entrances: seq<nat>, treasure: nat, path: seq<Action>, a: Action)
    requires |path| >= 1
    ensures Play(rooms, entrances, treasure, path + [a]) ==
              match Play(rooms, entrances, treasure, path)
              case None => None
              case Some(c) => PlayStep(rooms, treasure, c, a)
  {
    assert (path + [a])[..|path|] == path;
  }

  /** A path that can be played walks the room graph from an entrance to the room the hero
      ends in, and passes the treasure room when the hero ends up carrying the treasure. */
  lemma {:induction false} PlayFollowsRooms(rooms: seq<Room>, entrances: seq<nat>, treasure: nat, path: seq<Action>)
    requires Play(rooms, entrances, treasure, path).Some?
    ensures |path| >= 1 && path[0].Move? && path[0].room in entrances
    ensures Walk(rooms, path) == Some(Play(rooms, entrances, treasure, path).value.room)
    ensures Play(rooms, entrances, treasure, path).value.hasTreasure ==> VisitsRoom(rooms, path, treasure)
    decreases |path|
  {
    var c' := Play(rooms, entrances, treasure, path).value;
    if |path| == 1 {
      if c'.hasTreasure {
        WalkEndVisits(rooms, path, treasure);
      }
    } else {
      var prefix, a := path[..|path| - 1], path[|path| - 1];
      assert path == prefix + [a];
      PlayFollowsRooms(rooms, entrances, treasure, prefix);
      assert prefix[0] == path[0];
      var c := Play(rooms, entrances, treasure, prefix).value;
      PlayAppend(rooms, entrances, treasure, prefix, a);
      WalkAppend(rooms, prefix, a);
      if c'.hasTreasure {
        if c.hasTreasure {
          VisitsAppend(rooms, prefix, a, treasure);
        } else {
          assert a.Move?;
          ProcessTreasureFlag(rooms, treasure, MoveSuccessor(c, a.room));
          WalkEndVisits(rooms, path, treasure);
        }
      }
    }
  }

  /** A solution is in particular a walk from an entrance through the treasure room back
      to an entrance. */
  lemma SolutionWalks(rooms: seq<Room>, entrances: seq<nat>, treasure: nat, path: seq<Action>)
    requires IsSolution(rooms, entrances, treasure, path)
    ensures |path| >= 1 && path[0].Move? && path[0].room in entrances
    ensures Walk(rooms, path).Some? && Walk(rooms, path).value in entrances
    ensures VisitsRoom(rooms, path, treasure)
  {
    PlayFollowsRooms(rooms, entrances, treasure, path);
  }

  // ---------------------------------------------------------------------------------
  // The finite universe of search states

  /** Every item of every room, as it is equipped. */
  ghost function AllEquipped(rooms: seq<Room>): set<EquippedItem> {
    set r, i | 0 <= r < |rooms| && 0 <= i < |rooms[r].items| :: FromItem(rooms[r].items[i])
  }

  /** A state the search can produce: a real room and a loadout of room items with at most
      one item per type. */
  ghost predicate Sound(rooms: seq<Room>, s: State) {
    && s.room < |rooms|
    && DistinctTypes(s.equipped)
    && forall i :: 0 <= i < |s.equipped| ==> s.equipped[i] in AllEquipped(rooms)
  }

  /** All sequences of at most `n` elements of `items`. */
  ghost function Loadouts(items: set<EquippedItem>, n: nat): set<seq<EquippedItem>>
    decreases n
  {
    if n == 0 then {[]}
    else
      var shorter := Loadouts(items, n - 1);
      shorter + set e, x | e in shorter && x in items :: e + [x]
  }

  lemma {:induction false} InLoadouts(items: set<EquippedItem>, n: nat, e: seq<EquippedItem>)
    requires |e| <= n && forall i :: 0 <= i < |e| ==> e[i] in items
    ensures e in Loadouts(items, n)
    decreases n
  {
    if n > 0 {
      if |e| <= n - 1 {
        InLoadouts(items, n - 1, e);
      } else {
        var prefix := e[..|e| - 1];
        InLoadouts(items, n - 1, prefix);
        assert e == prefix + [e[|e| - 1]];
      }
    } else {
      assert e == [];
    }
  }

  /** The types held by a loadout. */
  function TypesOf(e: seq<EquippedItem>): set<ItemType>
    decreases |e|
  {
    if e == [] then {} else {e[0].itemType} + TypesOf(e[1..])
  }

  lemma {:induction false} TypesOfMembers(e: seq<EquippedItem>, t: ItemType)
    ensures t in TypesOf(e) <==> exists i :: 0 <= i < |e| && e[i].itemType == t
    decreases |e|
  {
    if e != [] {
      TypesOfMembers(e[1..], t);
      if t in TypesOf(e[1..]) {
        var i :| 0 <= i < |e[1..]| && e[1..][i].itemType == t;
        assert e[i + 1].itemType == t;
      }
      if exists i :: 0 <= i < |e| && e[i].itemType == t {
        var i :| 0 <= i < |e| && e[i].itemType == t;
        if i > 0 { assert e[1..][i - 1].itemType == t; }
      }
    }
  }

  lemma {:induction false} TypesOfCount(e: seq<EquippedItem>)
    requires DistinctTypes(e)
    ensures |TypesOf(e)| == |e|
    decreases |e|
  {
    if e != [] {
      var rest := e[1..];
      assert DistinctTypes(rest) by {
        forall i, j | 0 <= i < j < |rest| ensures rest[i].itemType != rest[j].itemType {
          assert rest[i] == e[i + 1] && rest[j] == e[j + 1];
        }
      }
      TypesOfCount(rest);
      TypesOfMembers(rest, e[0].itemType);
      forall i | 0 <= i < |rest| ensures rest[i].itemType != e[0].itemType {
        assert rest[i] == e[i + 1];
      }
    }
  }

  /** At most one item per type means at most three items. */
  lemma DistinctTypesAtMostThree(e: seq<EquippedItem>)
    requires DistinctTypes(e)
    ensures |e| <= 3
  {
    TypesOfCount(e);
    var all := {Weapon, Armor, RubberDuck};
    assert TypesOf(e) <= all by {
      forall t | t in TypesOf(e) ensures t in all {
        TypesOfMembers(e, t);
      }
    }
    assert all == TypesOf(e) + (all - TypesOf(e));
    assert |all| == 3;
  }

  /** Every state of a well-formed search over `rooms`. */
  ghost function Universe(rooms: seq<Room>): set<State> {
    var loadouts := Loadouts(AllEquipped(rooms), 3);
    set r: nat, t: bool, e, u: bool | r < |rooms| && e in loadouts :: State(r, t, e, u)
  }

  lemma SoundInUniverse(rooms: seq<Room>, s: State)
    requires Sound(rooms, s)
    ensures s in Universe(rooms)
  {
    DistinctTypesAtMostThree(s.equipped);
    InLoadouts(AllEquipped(rooms), 3, s.equipped);
  }

  /** The successor states the item loop builds stay sound. */
  lemma EquipRoomItemSound(rooms: seq<Room>, s: State, idx: nat)
    requires Sound(rooms, s) && idx < |rooms[s.room].items|
    ensures Sound(rooms, EquipItem(s, rooms[s.room].items[idx]))
  {
    var item := rooms[s.room].items[idx];
    EquipItemKeepsDistinct(s, item);
    assert FromItem(item) in AllEquipped(rooms);
  }

  lemma DropItemSound(rooms: seq<Room>, s: State, t: ItemType)
    requires Sound(rooms, s)
    ensures Sound(rooms, DropItem(s, t))
  {
    DropItemMeaning(s, t);
    var r := DropItem(s, t).equipped;
    forall i | 0 <= i < |r| ensures r[i] in AllEquipped(rooms) {
      assert r[i] in r;
    }
  }
}
