/**
  The part of the game engine GearCore talks to, reduced to values: live
  items, item definitions looked up by short name, and item containers.
 */
module Items {
  import opened Wrappers

  /** C# `int`. */
  newtype int32 = x: int | -0x8000_0000 <= x < 0x8000_0000

  /** C# `ulong`, used for skin ids. */
  newtype uint64 = x: int | 0 <= x < 0x1_0000_0000_0000_0000

  /** An item's condition, a single-precision float kept as its bit pattern: it is only copied and compared. */
  newtype Condition = x: int | 0 <= x < 0x1_0000_0000

  /** The primary magazine of a projectile weapon: the loaded ammunition's short name (if any) and the round count. */
  datatype Magazine = Magazine(ammoType: Option<string>, contents: int32)

  /**
    A live item. `projectile` is present exactly when the item's category is
    Weapon and its held entity is a projectile weapon; `contents` is the item's
    own sub-container (attachments), absent when the item has none.
   */
  datatype Item = Item(
    shortname: string,
    amount: int32,
    skin: uint64,
    name: Option<string>,
    condition: Condition,
    position: int32,
    projectile: Option<Magazine>,
    contents: Option<seq<Item>>)

  /** What the engine knows about an item kind: the condition, magazine and sub-container a new item starts with. */
  datatype Definition = Definition(maxCondition: Condition, magazine: Option<Magazine>, hasContents: bool)

  /** The engine's item definitions, by short name. */
  type Catalog = map<string, Definition>

  /** Definition lookup; a missing (or null) short name finds nothing. */
  function FindItemDefinition(catalog: Catalog, shortname: Option<string>): (def: Option<Definition>)
    ensures def.Some? <==> shortname.Some? && shortname.value in catalog
    ensures def.Some? ==> def.value == catalog[shortname.value]
  {
    if shortname.Some? && shortname.value in catalog then Some(catalog[shortname.value]) else None
  }

  /**
    Item creation by short name: fails exactly when the short name is unknown;
    otherwise a new item of that kind with the requested amount and skin, no
    name override, slot 0, and its definition's condition, magazine and empty
    sub-container.
   */
  function CreateByName(catalog: Catalog, shortname: Option<string>, amount: int32, skin: uint64): (item: Option<Item>)
    ensures item.Some? <==> FindItemDefinition(catalog, shortname).Some?
    ensures item.Some? ==>
              && Some(item.value.shortname) == shortname
              && item.value.amount == amount && item.value.skin == skin && item.value.name == None
    ensures item.Some? ==> item.value.projectile == catalog[item.value.shortname].magazine
    ensures item.Some? ==> item.value.contents == (if catalog[item.value.shortname].hasContents then Some([]) else None)
  {
    match FindItemDefinition(catalog, shortname)
    case None => None
    case Some(def) =>
      Some(Item(shortname.value, amount, skin, None, def.maxCondition, 0, def.magazine,
                if def.hasContents then Some([]) else None))
  }

  /** An inventory region of a player: its ordered item list. */
  class ItemContainer {
    var itemList: seq<Item>

    constructor (items: seq<Item>)
      ensures itemList == items
    {
      itemList := items;
    }

    /** Removes every item. */
    method Clear()
      modifies this
      ensures itemList == []
    {
      itemList := [];
    }

    /** Parents `item` to this container; slot placement by the engine is not modelled. */
    method Insert(item: Item)
      modifies this
      ensures itemList == old(itemList) + [item]
    {
      itemList := itemList + [item];
    }
  }
}
