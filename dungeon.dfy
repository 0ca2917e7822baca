/**
 * The input and output vocabulary of the treasure-hunt engine (pt1/sample.cpp):
 * items, rooms and the actions a returned path is made of.
 */
module Dungeon {
  import opened Wrappers
  import opened Combat

  datatype ItemType = Weapon | Armor | RubberDuck

  datatype Item = Item(
    name: string, itemType: ItemType,
    hp: int, off: int, def: int, stackingOff: int, stackingDef: int,
    firstAttack: bool,  // the hero attacks first
    stealth: bool)      // the hero can sneak past monsters, but cannot loot while sneaking

  /** Room ids and item ids are indices into the caller's vectors. */
  datatype Room = Room(neighbors: seq<nat>, monster: Option<Monster>, items: seq<Item>)

  datatype Action = Move(room: nat) | Pickup(item: nat) | Drop(itemType: ItemType)

  /** `RoomId` is `size_t`; the search uses its largest value as the "no room" marker. */
  const SIZE_MAX: nat := 0xFFFF_FFFF_FFFF_FFFF
}
