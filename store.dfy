/**
  The gear-set store of GearCore: a dictionary from gear-set name to the
  three captured item lists of a player's inventory, with save-or-update,
  delete, equip and list, and the data file it is written to after every
  change.
 */
module GearStore {
  import opened Wrappers
  import opened Items
  import opened Codec

  /** A saved loadout: the records of the main, wear and belt containers, each in container order. */
  datatype GearSet = GearSet(main: seq<ItemInfo>, wear: seq<ItemInfo>, belt: seq<ItemInfo>)

  /** A player's three inventory containers. */
  class PlayerInventory {
    const containerMain: ItemContainer
    const containerWear: ItemContainer
    const containerBelt: ItemContainer

    /** The three containers are distinct objects. */
    ghost predicate Valid()
      reads this
    {
      containerMain != containerWear && containerMain != containerBelt && containerWear != containerBelt
    }

    constructor (main: seq<Item>, wear: seq<Item>, belt: seq<Item>)
      ensures Valid()
      ensures fresh(containerMain) && fresh(containerWear) && fresh(containerBelt)
      ensures containerMain.itemList == main && containerWear.itemList == wear && containerBelt.itemList == belt
    {
      containerMain := new ItemContainer(main);
      containerWear := new ItemContainer(wear);
      containerBelt := new ItemContainer(belt);
    }
  }

  // ---------------------------------------------------------------- listing

  /** `string.Join` with a one-character separator. */
  function Join(separator: char, parts: seq<string>): (joined: string)
    ensures parts == [] ==> joined == []
  {
    if parts == [] then []
    else if |parts| == 1 then parts[0]
    else parts[0] + [separator] + Join(separator, parts[1..])
  }

  /** The fields of `text` between separators (one field more than there are separators). */
  function Split(separator: char, text: string): (fields: seq<string>)
    ensures |fields| >= 1
  {
    if text == [] then [[]]
    else
      var rest := Split(separator, text[1..]);
      if text[0] == separator then [[]] + rest else [[text[0]] + rest[0]] + rest[1..]
  }

  /** A field without the separator followed by the separator and more text splits off as the first field. */
  lemma {:induction false} SplitAfterField(separator: char, field: string, text: string)
    requires separator !in field
    ensures Split(separator, field + [separator] + text) == [field] + Split(separator, text)
  {
    if field == [] {
      assert field + [separator] + text == [separator] + text;
      assert ([separator] + text)[1..] == text;
    } else {
      SplitAfterField(separator, field[1..], text);
      var whole := field + [separator] + text;
      assert whole[0] == field[0] != separator;
      assert whole[1..] == field[1..] + [separator] + text;
      var rest := Split(separator, whole[1..]);
      assert rest == [field[1..]] + Split(separator, text);
      assert [field[0]] + field[1..] == field;
    }
  }

  /** A field without the separator splits into itself. */
  lemma {:induction false} SplitField(separator: char, field: string)
    requires separator !in field
    ensures Split(separator, field) == [field]
  {
    if field != [] {
      SplitField(separator, field[1..]);
      assert [field[0]] + field[1..] == field;
    }
  }

  /**
    Joining a non-empty list of names none of which holds the separator can be
    undone: splitting the text gives the names back.
   */
  lemma {:induction false} SplitJoin(separator: char, parts: seq<string>)
    requires parts != []
    requires forall i :: 0 <= i < |parts| ==> separator !in parts[i]
    ensures Split(separator, Join(separator, parts)) == parts
  {
    if |parts| == 1 {
      SplitField(separator, parts[0]);
    } else {
      SplitJoin(separator, parts[1..]);
      SplitAfterField(separator, parts[0], Join(separator, parts[1..]));
    }
  }

  /** `names` lists every key of `gearSets` exactly once, in some order. */
  ghost predicate EnumeratesKeys(names: seq<string>, gearSets: map<string, GearSet>)
  {
    && (forall i, j :: 0 <= i < j < |names| ==> names[i] != names[j])
    && (forall i :: 0 <= i < |names| ==> names[i] in gearSets)
    && (forall name :: name in gearSets ==> name in names)
  }

  /**
    The newline-joined listing of an enumeration of the keys: empty for an
    empty dictionary, and otherwise, when no name holds a newline, split
    back into the names by cutting at newlines.
   */
  lemma ListingSplitsIntoKeys(names: seq<string>, gearSets: map<string, GearSet>)
    requires EnumeratesKeys(names, gearSets)
    ensures gearSets == map[] ==> Join('\n', names) == []
    ensures gearSets != map[] && (forall name :: name in gearSets ==> '\n' !in name) ==>
              Split('\n', Join('\n', names)) == names
  {
    if names != [] {
      assert names[0] in gearSets;
    }
    if gearSets != map[] && forall name :: name in gearSets ==> '\n' !in name {
      var name :| name in gearSets;
      assert name in names;
      SplitJoin('\n', names);
    }
  }

  // ---------------------------------------------------------------- store

  /**
    The plugin's state: the gear sets by name, the engine's catalog used to
    rebuild items, and (as a ghost) the contents of the data file, absent
    until first written.
   */
  class GearCore {
    var gearSets: map<string, GearSet>
    ghost var persisted: Option<map<string, GearSet>>
    const catalog: Catalog

    /** The data file holds the in-memory dictionary, or is absent while the dictionary is still empty. */
    ghost predicate Valid()
      reads this
    {
      persisted == Some(gearSets) || (persisted == None && gearSets == map[])
    }

    /** Loads the data file, or starts from an empty dictionary when there is none. */
    constructor LoadOrCreate(catalog: Catalog, dataFile: Option<map<string, GearSet>>)
      ensures Valid()
      ensures this.catalog == catalog && persisted == dataFile
      ensures gearSets == if dataFile.Some? then dataFile.value else map[]
    {
      this.catalog := catalog;
      gearSets := if dataFile.Some? then dataFile.value else map[];
      persisted := dataFile;
    }

    /** Writes the whole dictionary to the data file. */
    method SaveData()
      modifies this`persisted
      ensures persisted == Some(gearSets)
    {
      persisted := Some(gearSets);
    }

    /**
      Captures the player's three containers into a new gear set stored
      under `gearSetName`, replacing any previous one whole, and writes the
      data file. Reports whether the name was already taken before the call.
     */
    method SaveOrUpdateGearSet(player: PlayerInventory, gearSetName: string) returns (isUpdate: bool)
      requires Valid()
      modifies this`gearSets, this`persisted
      ensures Valid() && persisted == Some(gearSets)
      ensures isUpdate == (gearSetName in old(gearSets))
      ensures gearSets == old(gearSets)[gearSetName := GearSet(
                CaptureRegion(player.containerMain.itemList),
                CaptureRegion(player.containerWear.itemList),
                CaptureRegion(player.containerBelt.itemList))]
      ensures |gearSets| == |old(gearSets)| + (if isUpdate then 0 else 1)
      ensures forall name :: name != gearSetName ==>
                (name in gearSets <==> name in old(gearSets)) && (name in gearSets ==> gearSets[name] == old(gearSets)[name])
    {
      var main := GetItemsFromContainer(player.containerMain, []);
      var wear := GetItemsFromContainer(player.containerWear, []);
      var belt := GetItemsFromContainer(player.containerBelt, []);
      var gearSet := GearSet(main, wear, belt);

      isUpdate := gearSetName in gearSets;

      gearSets := gearSets[gearSetName := gearSet];
      SaveData();
    }

    /** The names of the gear sets, one per line, in the dictionary's enumeration order `names`. */
    function GetGearSets(names: seq<string>): (text: string)
      reads this
      requires EnumeratesKeys(names, gearSets)
      ensures gearSets == map[] ==> text == []
      ensures gearSets != map[] && (forall name :: name in gearSets ==> '\n' !in name) ==> Split('\n', text) == names
    {
      ListingSplitsIntoKeys(names, gearSets);
      Join('\n', names)
    }

    /**
      Removes the gear set `gearSetName` and writes the data file; when there
      is no such gear set, reports false and changes nothing.
     */
    method DeleteGearSet(gearSetName: string) returns (deleted: bool)
      requires Valid()
      modifies this`gearSets, this`persisted
      ensures Valid()
      ensures deleted == (gearSetName in old(gearSets))
      ensures gearSets == old(gearSets) - {gearSetName}
      ensures deleted ==> persisted == Some(gearSets) && |gearSets| == |old(gearSets)| - 1
      ensures !deleted ==> gearSets == old(gearSets) && persisted == old(persisted)
    {
      if gearSetName !in gearSets {
        return false;
      }

      gearSets := gearSets - {gearSetName};
      SaveData();

      return true;
    }

    /**
      Equips the gear set `gearSetName` on the player: unless told not to,
      empties the three containers first, then rebuilds the main, wear and
      belt records into them. An unknown name reports false and touches no
      container; the dictionary is never changed.
     */
    method EquipGearSet(player: PlayerInventory, gearSetName: string, clearCurrentInventory: bool := true)
      returns (equipped: bool)
      requires player.Valid()
      modifies player.containerMain, player.containerWear, player.containerBelt
      ensures equipped == (gearSetName in gearSets)
      ensures !equipped ==> unchanged(player.containerMain, player.containerWear, player.containerBelt)
      ensures equipped ==>
                player.containerMain.itemList ==
                (if clearCurrentInventory then [] else old(player.containerMain.itemList))
                + RestoreRegion(catalog, gearSets[gearSetName].main)
      ensures equipped ==>
                player.containerWear.itemList ==
                (if clearCurrentInventory then [] else old(player.containerWear.itemList))
                + RestoreRegion(catalog, gearSets[gearSetName].wear)
      ensures equipped ==>
                player.containerBelt.itemList ==
                (if clearCurrentInventory then [] else old(player.containerBelt.itemList))
                + RestoreRegion(catalog, gearSets[gearSetName].belt)
    {
      if gearSetName !in gearSets {
        return false;
      }

      var gearSet := gearSets[gearSetName];

      if clearCurrentInventory {
        player.containerMain.Clear();
        player.containerWear.Clear();
        player.containerBelt.Clear();
      }

      EquipItemsToContainer(catalog, player.containerMain, gearSet.main);
      EquipItemsToContainer(catalog, player.containerWear, gearSet.wear);
      EquipItemsToContainer(catalog, player.containerBelt, gearSet.belt);

      return true;
    }
  }
}
