/**
 * The hero's loadout in the treasure-hunt engine (pt1/sample.cpp):
 * `EquippedItem`, the search `State` with its item operations, and `calcFighterStats`.
 *
 * `State` is a value type in the source (copied on assignment, compared with `==`,
 * stored in hash sets), so its mutating member functions are modelled as functions
 * that return the updated state.
 */
module Loadout {
  import opened Combat
  import opened Dungeon

  datatype EquippedItem = EquippedItem(
    itemType: ItemType,
    hp: int, off: int, def: int, stackingOff: int, stackingDef: int,
    firstAttack: bool, stealth: bool)

  /** `EquippedItem::fromItem`: everything but the name. */
  function FromItem(i: Item): (e: EquippedItem)
    ensures e.itemType == i.itemType && e.firstAttack == i.firstAttack && e.stealth == i.stealth
  {
    EquippedItem(i.itemType, i.hp, i.off, i.def, i.stackingOff, i.stackingDef, i.firstAttack, i.stealth)
  }

  /** Two items that differ only by name are equipped as the same value. */
  lemma FromItemForgetsName(i: Item, name: string)
    ensures FromItem(i.(name := name)) == FromItem(i)
    ensures FromItem(i).hp == i.hp && FromItem(i).off == i.off && FromItem(i).def == i.def
    ensures FromItem(i).stackingOff == i.stackingOff && FromItem(i).stackingDef == i.stackingDef
  {
  }

  datatype State = State(room: nat, hasTreasure: bool, equipped: seq<EquippedItem>, usedStealth: bool)

  /** The loadout invariant: no two equipped items share a type. */
  ghost predicate DistinctTypes(e: seq<EquippedItem>) {
    forall i, j :: 0 <= i < j < |e| ==> e[i].itemType != e[j].itemType
  }

  /** `std::ranges::find_if` on the item type: the first position holding type `t`, or |e|. */
  function FindType(e: seq<EquippedItem>, t: ItemType): (k: nat)
    ensures k <= |e|
    ensures k < |e| ==> e[k].itemType == t
    ensures forall j :: 0 <= j < k ==> e[j].itemType != t
  {
    if e == [] then 0
    else if e[0].itemType == t then 0
    else 1 + FindType(e[1..], t)
  }

  predicate HasType(e: seq<EquippedItem>, t: ItemType) {
    FindType(e, t) < |e|
  }

  /** `State::equipItem`: appends the item unless one of its type is already equipped. */
  function EquipItem(s: State, item: Item): (r: State)
    ensures r.room == s.room && r.hasTreasure == s.hasTreasure && r.usedStealth == s.usedStealth
    ensures HasType(s.equipped, item.itemType) ==> r == s
    ensures !HasType(s.equipped, item.itemType) ==> r.equipped == s.equipped + [FromItem(item)]
  {
    if FindType(s.equipped, item.itemType) == |s.equipped| then s.(equipped := s.equipped + [FromItem(item)])
    else s
  }

  /** `State::dropItem`: removes the first item of type `t`, if there is one. */
  function DropItem(s: State, t: ItemType): (r: State)
    ensures r.room == s.room && r.hasTreasure == s.hasTreasure && r.usedStealth == s.usedStealth
    ensures !HasType(s.equipped, t) ==> r == s
    ensures HasType(s.equipped, t) ==> |r.equipped| == |s.equipped| - 1
  {
    var k := FindType(s.equipped, t);
    if k < |s.equipped| then s.(equipped := s.equipped[..k] + s.equipped[k + 1..]) else s
  }

  /** Equipping keeps at most one item per type, and afterwards the type is held. */
  lemma EquipItemKeepsDistinct(s: State, item: Item)
    requires DistinctTypes(s.equipped)
    ensures DistinctTypes(EquipItem(s, item).equipped)
    ensures HasType(EquipItem(s, item).equipped, item.itemType)
  {
    var r := EquipItem(s, item);
    if !HasType(s.equipped, item.itemType) {
      assert r.equipped[|s.equipped|] == FromItem(item);
      HasTypeAt(r.equipped, |s.equipped|, item.itemType);
    }
  }

  lemma HasTypeAt(e: seq<EquippedItem>, k: nat, t: ItemType)
    requires k < |e| && e[k].itemType == t
    ensures HasType(e, t)
  {
  }

  /** Equipping the same item twice gives the same loadout as equipping it once. */
  lemma EquipItemIdempotent(s: State, item: Item)
    requires DistinctTypes(s.equipped)
    ensures EquipItem(EquipItem(s, item), item) == EquipItem(s, item)
  {
    EquipItemKeepsDistinct(s, item);
  }

  /** Dropping keeps the invariant, leaves no item of that type behind, and keeps every
      item of another type (and nothing else), in their order: the loadout loses exactly
      the first item of that type, and is unchanged when it holds none. */
  lemma DropItemMeaning(s: State, t: ItemType)
    requires DistinctTypes(s.equipped)
    ensures var r := DropItem(s, t).equipped;
            DistinctTypes(r) && !HasType(r, t) &&
            (forall x :: x in s.equipped && x.itemType != t ==> x in r) &&
            (forall x :: x in r ==> x in s.equipped)
    ensures var e, k := s.equipped, FindType(s.equipped, t);
            DropItem(s, t).equipped == if k < |e| then e[..k] + e[k + 1..] else e
  {
    var e := s.equipped;
    var k := FindType(e, t);
    if k < |e| {
      SubsequenceKeepsDistinct(e, k);
      RemoveAtOnly(e, k);
      RemoveAtKeeps(e, k);
    }
  }

  /** Removing position `k` shifts the later elements down by one. */
  lemma RemoveAtShape(e: seq<EquippedItem>, k: nat)
    requires k < |e|
    ensures var r := RemoveAt(e, k);
            |r| == |e| - 1 && forall i :: 0 <= i < |r| ==> r[i] == if i < k then e[i] else e[i + 1]
  {
  }

  /** Removing the item at `k` from a loadout with distinct types leaves no item of the
      removed one's type, and nothing that was not there. */
  lemma RemoveAtOnly(e: seq<EquippedItem>, k: nat)
    requires k < |e| && DistinctTypes(e)
    ensures forall x :: x in RemoveAt(e, k) ==> x in e && x.itemType != e[k].itemType
  {
    var r := RemoveAt(e, k);
    RemoveAtShape(e, k);
    forall x | x in r ensures x in e && x.itemType != e[k].itemType {
      var i :| 0 <= i < |r| && r[i] == x;
      if i < k { assert e[i] == x; } else { assert e[i + 1] == x; }
    }
  }

  /** Removing position `k` keeps every item of another type. */
  lemma RemoveAtKeeps(e: seq<EquippedItem>, k: nat)
    requires k < |e|
    ensures forall x :: x in e && x.itemType != e[k].itemType ==> x in RemoveAt(e, k)
  {
    var r := RemoveAt(e, k);
    RemoveAtShape(e, k);
    forall x | x in e && x.itemType != e[k].itemType ensures x in r {
      var i :| 0 <= i < |e| && e[i] == x;
      if i < k { assert r[i] == x; } else { assert r[i - 1] == x; }
    }
  }

  lemma SubsequenceKeepsDistinct(e: seq<EquippedItem>, k: nat)
    requires DistinctTypes(e) && k < |e|
    ensures DistinctTypes(RemoveAt(e, k))
  {
    RemoveAtShape(e, k);
  }

  /** Dropping the type of an item that was just equipped onto a loadout without that
      type gives the loadout back. */
  lemma DropUndoesEquip(s: State, item: Item)
    requires !HasType(s.equipped, item.itemType)
    ensures DropItem(EquipItem(s, item), item.itemType) == s
  {
    var e := s.equipped;
    var e' := e + [FromItem(item)];
    assert forall j :: 0 <= j < |e| ==> e'[j].itemType != item.itemType;
    FindTypeAt(e', |e|, item.itemType);
    assert e'[..|e|] == e;
  }

  lemma FindTypeAt(e: seq<EquippedItem>, k: nat, t: ItemType)
    requires k < |e| && e[k].itemType == t
    requires forall j :: 0 <= j < k ==> e[j].itemType != t
    ensures FindType(e, t) == k
  {
  }

  /** `State::replaceItem`: drops the held item of the new item's type (logging a Drop)
      and then equips and logs the pickup of item `itemIndex` of the current room. */
  function ReplaceItem(s: State, rooms: seq<Room>, currentRoom: nat, itemIndex: nat, actions: seq<Action>): (r: (State, seq<Action>))
    requires currentRoom < |rooms| && itemIndex < |rooms[currentRoom].items|
    ensures var t := rooms[currentRoom].items[itemIndex].itemType;
            r.1 == actions + (if HasType(s.equipped, t) then [Drop(t)] else []) + [Pickup(itemIndex)]
  {
    var newItem := rooms[currentRoom].items[itemIndex];
    var k := FindType(s.equipped, newItem.itemType);
    var (dropped, logged) :=
      if k < |s.equipped| then (s.(equipped := s.equipped[..k] + s.equipped[k + 1..]), actions + [Drop(newItem.itemType)])
      else (s, actions);
    (dropped.(equipped := dropped.equipped + [FromItem(newItem)]), logged + [Pickup(itemIndex)])
  }

  /** Replacing is dropping the type and then equipping: the new item takes the place of
      the old one of its type and the invariant is kept. */
  lemma ReplaceItemIsDropThenEquip(s: State, rooms: seq<Room>, currentRoom: nat, itemIndex: nat, actions: seq<Action>)
    requires currentRoom < |rooms| && itemIndex < |rooms[currentRoom].items|
    requires DistinctTypes(s.equipped)
    ensures var item := rooms[currentRoom].items[itemIndex];
            var r := ReplaceItem(s, rooms, currentRoom, itemIndex, actions).0;
            r == EquipItem(DropItem(s, item.itemType), item) && DistinctTypes(r.equipped)
  {
    var item := rooms[currentRoom].items[itemIndex];
    DropItemMeaning(s, item.itemType);
    EquipItemKeepsDistinct(DropItem(s, item.itemType), item);
  }

  /** The flag queries: some equipped item carries the flag. */
  predicate AnyStealth(e: seq<EquippedItem>) { exists i :: 0 <= i < |e| && e[i].stealth }

  predicate AnyFirstAttack(e: seq<EquippedItem>) { exists i :: 0 <= i < |e| && e[i].firstAttack }

  /** `State::hasStealth`. */
  method HasStealth(s: State) returns (r: bool)
    ensures r <==> exists i :: 0 <= i < |s.equipped| && s.equipped[i].stealth
  {
    for i := 0 to |s.equipped|
      invariant forall j :: 0 <= j < i ==> !s.equipped[j].stealth
    {
      if s.equipped[i].stealth {
        return true;
      }
    }
    return false;
  }

  /** `State::hasFirstAttack`. */
  method HasFirstAttack(s: State) returns (r: bool)
    ensures r <==> exists i :: 0 <= i < |s.equipped| && s.equipped[i].firstAttack
  {
    for i := 0 to |s.equipped|
      invariant forall j :: 0 <= j < i ==> !s.equipped[j].firstAttack
    {
      if s.equipped[i].firstAttack {
        return true;
      }
    }
    return false;
  }

  /** Adds an item's stat deltas to a stat record. */
  function Plus(m: Monster, x: EquippedItem): Monster {
    Monster(m.hp + x.hp, m.off + x.off, m.def + x.def, m.stackingOff + x.stackingOff, m.stackingDef + x.stackingDef)
  }

  /** The sum of the stat deltas of a loadout, as a `Monster` record. */
  function Total(e: seq<EquippedItem>): Monster
    decreases |e|
  {
    if e == [] then Monster(0, 0, 0, 0, 0) else Plus(Total(e[1..]), e[0])
  }

  /** The hero's fighting stats: base hp 10000, offense 3, defense 2, no stacking, plus
      the equipped deltas, with hp floored at 1. */
  function FighterStats(e: seq<EquippedItem>): (m: Monster)
    ensures m.hp >= 1
    ensures m.hp == Max(10000 + Total(e).hp, 1)
    ensures m.off == 3 + Total(e).off && m.def == 2 + Total(e).def
    ensures m.stackingOff == Total(e).stackingOff && m.stackingDef == Total(e).stackingDef
  {
    var t := Total(e);
    Monster(Max(10000 + t.hp, 1), 3 + t.off, 2 + t.def, t.stackingOff, t.stackingDef)
  }

  lemma {:induction false} TotalAppend(e: seq<EquippedItem>, x: EquippedItem)
    ensures Total(e + [x]) == Plus(Total(e), x)
    decreases |e|
  {
    if e == [] {
      assert [x][1..] == [];
    } else {
      assert (e + [x])[1..] == e[1..] + [x];
      TotalAppend(e[1..], x);
    }
  }

  /** The stats do not depend on the order in which the items were equipped. */
  lemma {:induction false} TotalIgnoresOrder(e: seq<EquippedItem>, f: seq<EquippedItem>)
    requires multiset(e) == multiset(f)
    ensures Total(e) == Total(f)
    decreases |e|
  {
    if e == [] {
      assert |multiset(f)| == 0;
    } else {
      assert e[0] in multiset(e);
      assert e[0] in multiset(f);
      assert e[0] in f;
      var k :| 0 <= k < |f| && f[k] == e[0];
      MultisetRemoveAt(e, 0);
      MultisetRemoveAt(f, k);
      assert RemoveAt(e, 0) == e[1..];
      TotalIgnoresOrder(e[1..], RemoveAt(f, k));
      TotalRemoveAt(f, k);
    }
  }

  function RemoveAt<T>(f: seq<T>, k: nat): seq<T>
    requires k < |f|
  {
    f[..k] + f[k + 1..]
  }

  lemma MultisetRemoveAt<T>(f: seq<T>, k: nat)
    requires k < |f|
    ensures multiset(RemoveAt(f, k)) == multiset(f) - multiset{f[k]}
  {
    assert f == f[..k] + [f[k]] + f[k + 1..];
    assert multiset(f) == multiset(f[..k]) + multiset{f[k]} + multiset(f[k + 1..]);
  }

  /** Taking one item out of the sum and adding it back gives the sum. */
  lemma {:induction false} TotalRemoveAt(f: seq<EquippedItem>, k: nat)
    requires k < |f|
    ensures Total(f) == Plus(Total(RemoveAt(f, k)), f[k])
    decreases k
  {
    if k == 0 {
      assert RemoveAt(f, 0) == f[1..];
    } else {
      var g := f[1..];
      TotalRemoveAt(g, k - 1);
      assert RemoveAt(f, k) == [f[0]] + RemoveAt(g, k - 1);
      assert RemoveAt(f, k)[1..] == RemoveAt(g, k - 1);
    }
  }

  /** `calcFighterStats`. */
  method CalcFighterStats(equipped: seq<EquippedItem>) returns (stats: Monster)
    ensures stats == FighterStats(equipped)
  {
    stats := Monster(10000, 3, 2, 0, 0);
    for i := 0 to |equipped|
      invariant stats == Monster(10000 + Total(equipped[..i]).hp, 3 + Total(equipped[..i]).off,
                                 2 + Total(equipped[..i]).def, Total(equipped[..i]).stackingOff,
                                 Total(equipped[..i]).stackingDef)
    {
      var eq := equipped[i];
      TotalAppend(equipped[..i], eq);
      assert equipped[..i + 1] == equipped[..i] + [eq];
      stats := stats.(hp := stats.hp + eq.hp, off := stats.off + eq.off, def := stats.def + eq.def,
                      stackingOff := stats.stackingOff + eq.stackingOff, stackingDef := stats.stackingDef + eq.stackingDef);
    }
    assert equipped[..|equipped|] == equipped;
    if stats.hp < 1 {
      stats := stats.(hp := 1);
    }
  }
}
