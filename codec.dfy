/**
  The item snapshot codec of GearCore: capture turns a container's live items
  into serializable `ItemInfo` records, restore rebuilds items from records,
  skipping every record whose short name the engine does not know.
 */
module Codec {
  import opened Wrappers
  import opened Items

  /** A reduced record for ammunition and attachments; the short name is null for an empty magazine type. */
  datatype SubItemInfo = SubItemInfo(shortName: Option<string>, amount: int32)

  /** The stored record of one item. */
  datatype ItemInfo = ItemInfo(
    shortName: string,
    amount: int32,
    skinId: uint64,
    name: Option<string>,
    condition: Condition,
    position: int32,
    ammunition: Option<SubItemInfo>,
    attachments: seq<SubItemInfo>)

  // ---------------------------------------------------------------- capture

  /** The items held in an item's own sub-container; none when it has no sub-container. */
  function Attached(item: Item): seq<Item>
  {
    if item.contents.Some? then item.contents.value else []
  }

  /** One attachment record per attachment, in order, each carrying only short name and amount. */
  function CaptureAttachments(attachments: seq<Item>): (infos: seq<SubItemInfo>)
    ensures |infos| == |attachments|
    ensures forall i :: 0 <= i < |attachments| ==>
              infos[i].shortName == Some(attachments[i].shortname) && infos[i].amount == attachments[i].amount
  {
    if attachments == [] then []
    else
      var last := attachments[|attachments| - 1];
      CaptureAttachments(attachments[..|attachments| - 1]) + [SubItemInfo(Some(last.shortname), last.amount)]
  }

  /** The record captured for one live item. */
  function CaptureItem(item: Item): (info: ItemInfo)
    ensures info.shortName == item.shortname && info.amount == item.amount && info.skinId == item.skin
    ensures info.name == item.name && info.condition == item.condition && info.position == item.position
    ensures info.ammunition.Some? <==> item.projectile.Some?
    ensures item.projectile.Some? ==>
              info.ammunition.value.shortName == item.projectile.value.ammoType
              && info.ammunition.value.amount == item.projectile.value.contents
    ensures item.projectile.None? ==> info.attachments == []
    ensures item.projectile.Some? ==> info.attachments == CaptureAttachments(Attached(item))
  {
    var info := ItemInfo(item.shortname, item.amount, item.skin, item.name, item.condition, item.position, None, []);
    match item.projectile
    case None => info
    case Some(magazine) =>
      info.(ammunition := Some(SubItemInfo(magazine.ammoType, magazine.contents)),
            attachments := CaptureAttachments(Attached(item)))
  }

  /** The records captured for a container's items. */
  function CaptureRegion(items: seq<Item>): (infos: seq<ItemInfo>)
    ensures |infos| == |items|
    ensures forall i :: 0 <= i < |items| ==> infos[i] == CaptureItem(items[i])
  {
    if items == [] then [] else CaptureRegion(items[..|items| - 1]) + [CaptureItem(items[|items| - 1])]
  }

  /**
    Captures every item of `container`, in container order, appending the
    records to `itemList`; the container is only read.
   */
  method GetItemsFromContainer(container: ItemContainer, itemList: seq<ItemInfo>) returns (result: seq<ItemInfo>)
    ensures |result| == |itemList| + |container.itemList|
    ensures result[..|itemList|] == itemList
    ensures result[|itemList|..] == CaptureRegion(container.itemList)
  {
    var items := container.itemList;
    result := itemList;
    var i := 0;
    while i < |items|
      invariant 0 <= i <= |items|
      invariant result == itemList + CaptureRegion(items[..i])
    {
      var itemInfo := GetItemInfo(items[i]);
      result := result + [itemInfo];
      assert items[..i + 1][..i] == items[..i];
      i := i + 1;
    }
    assert items[..i] == items;
  }

  /**
    Captures one item (the body of the capture loop): the weapon case reads
    the magazine and copies the attachments one level deep.
   */
  method GetItemInfo(item: Item) returns (itemInfo: ItemInfo)
    ensures itemInfo == CaptureItem(item)
  {
    itemInfo := ItemInfo(item.shortname, item.amount, item.skin, item.name, item.condition, item.position, None, []);
    if item.projectile.Some? {
      var magazine := item.projectile.value;
      var attachmentInfos: seq<SubItemInfo> := [];
      if item.contents.Some? && |item.contents.value| > 0 {
        var attachments := item.contents.value;
        var j := 0;
        while j < |attachments|
          invariant 0 <= j <= |attachments|
          invariant attachmentInfos == CaptureAttachments(attachments[..j])
        {
          attachmentInfos := attachmentInfos + [SubItemInfo(Some(attachments[j].shortname), attachments[j].amount)];
          assert attachments[..j + 1][..j] == attachments[..j];
          j := j + 1;
        }
        assert attachments[..j] == attachments;
      }
      itemInfo := itemInfo.(ammunition := Some(SubItemInfo(magazine.ammoType, magazine.contents)),
                            attachments := attachmentInfos);
    }
  }

  // ---------------------------------------------------------------- restore

  /** The records whose short name the catalog knows, in order. */
  function KnownSubItems(catalog: Catalog, infos: seq<SubItemInfo>): (known: seq<SubItemInfo>)
    ensures |known| <= |infos|
    ensures forall i :: 0 <= i < |known| ==> FindItemDefinition(catalog, known[i].shortName).Some?
  {
    if infos == [] then []
    else
      var rest := KnownSubItems(catalog, infos[..|infos| - 1]);
      if FindItemDefinition(catalog, infos[|infos| - 1].shortName).Some? then rest + [infos[|infos| - 1]] else rest
  }

  /** The item records whose short name the catalog knows, in order. */
  function KnownRecords(catalog: Catalog, infos: seq<ItemInfo>): (known: seq<ItemInfo>)
    ensures |known| <= |infos|
    ensures forall i :: 0 <= i < |known| ==> known[i].shortName in catalog
  {
    if infos == [] then []
    else
      var rest := KnownRecords(catalog, infos[..|infos| - 1]);
      if infos[|infos| - 1].shortName in catalog then rest + [infos[|infos| - 1]] else rest
  }

  /**
    The attachments created from attachment records: one per record whose
    short name is known, in order, each with that short name and amount
    (recapturing them gives back exactly the known records).
   */
  function RestoreAttachments(catalog: Catalog, infos: seq<SubItemInfo>): (items: seq<Item>)
    ensures CaptureAttachments(items) == KnownSubItems(catalog, infos)
  {
    if infos == [] then []
    else
      var rest := RestoreAttachments(catalog, infos[..|infos| - 1]);
      var last := infos[|infos| - 1];
      match CreateByName(catalog, last.shortName, last.amount, 0)
      case None => rest
      case Some(attachment) => rest + [attachment]
  }

  /** The magazine after restoring ammunition: round count always, ammo type only when its definition is found. */
  function RestoreMagazine(catalog: Catalog, magazine: Magazine, ammunition: SubItemInfo): Magazine
  {
    var magazine := magazine.(contents := ammunition.amount);
    if FindItemDefinition(catalog, ammunition.shortName).Some? then magazine.(ammoType := ammunition.shortName) else magazine
  }

  /**
    The item rebuilt from one record, or None when the record's short name is
    unknown. A rebuilt item carries the record's short name, amount, skin,
    name, condition and position; a projectile weapon with recorded
    ammunition gets its round count and, when the ammunition is known, its
    type; a sub-container receives the known attachments.
   */
  function RestoredItem(catalog: Catalog, info: ItemInfo): (item: Option<Item>)
    ensures item.Some? <==> info.shortName in catalog
  {
    match CreateByName(catalog, Some(info.shortName), info.amount, info.skinId)
    case None => None
    case Some(created) =>
      var item := created.(condition := info.condition, position := info.position, name := info.name);
      Some(AddAttachments(catalog, LoadAmmunition(catalog, item, info), info))
  }

  /** A projectile weapon with recorded ammunition gets that magazine state; any other item is unchanged. */
  function LoadAmmunition(catalog: Catalog, item: Item, info: ItemInfo): Item
  {
    if item.projectile.Some? && info.ammunition.Some?
    then item.(projectile := Some(RestoreMagazine(catalog, item.projectile.value, info.ammunition.value)))
    else item
  }

  /** An item with a sub-container receives the attachments rebuilt from a non-empty list; any other item is unchanged. */
  function AddAttachments(catalog: Catalog, item: Item, info: ItemInfo): Item
  {
    if |info.attachments| > 0 && item.contents.Some?
    then item.(contents := Some(item.contents.value + RestoreAttachments(catalog, info.attachments)))
    else item
  }

  /**
    What a rebuilt item carries: the record's short name, amount, skin,
    name, condition and position; a projectile weapon exactly when its
    definition is one; for recorded ammunition, its round count and, when the
    ammunition is known, its type (otherwise the definition's); a
    sub-container exactly when its definition has one, holding the known
    attachments in order.
   */
  lemma RestoredItemFields(catalog: Catalog, info: ItemInfo)
    requires info.shortName in catalog
    ensures var item := RestoredItem(catalog, info).value;
            && item.shortname == info.shortName && item.amount == info.amount
            && item.skin == info.skinId && item.name == info.name
            && item.condition == info.condition && item.position == info.position
            && (item.projectile.Some? <==> catalog[info.shortName].magazine.Some?)
            && (info.ammunition.None? ==> item.projectile == catalog[info.shortName].magazine)
            && (item.projectile.Some? && info.ammunition.Some? ==>
                  && item.projectile.value.contents == info.ammunition.value.amount
                  && item.projectile.value.ammoType ==
                     (if FindItemDefinition(catalog, info.ammunition.value.shortName).Some?
                      then info.ammunition.value.shortName
                      else catalog[info.shortName].magazine.value.ammoType))
            && (item.contents.Some? <==> catalog[info.shortName].hasContents)
            && (item.contents.Some? ==> CaptureAttachments(item.contents.value) == KnownSubItems(catalog, info.attachments))
  {
  }

  /**
    The items rebuilt from a list of records: exactly the records with a known
    short name, each rebuilt, in their original relative order.
   */
  function RestoreRegion(catalog: Catalog, infos: seq<ItemInfo>): (items: seq<Item>)
    ensures |items| == |KnownRecords(catalog, infos)|
  {
    if infos == [] then [] else RestoreRegion(catalog, infos[..|infos| - 1]) + Rebuilt(catalog, infos[|infos| - 1])
  }

  /** The rebuilt item of one record, as a list of zero or one items. */
  function Rebuilt(catalog: Catalog, info: ItemInfo): seq<Item>
  {
    match RestoredItem(catalog, info)
    case None => []
    case Some(item) => [item]
  }

  /** Restore rebuilds, in order, exactly the records whose short name is known. */
  lemma {:induction false} RestoreRegionKnown(catalog: Catalog, infos: seq<ItemInfo>)
    ensures forall i :: 0 <= i < |KnownRecords(catalog, infos)| ==>
              RestoredItem(catalog, KnownRecords(catalog, infos)[i]) == Some(RestoreRegion(catalog, infos)[i])
  {
    if infos != [] {
      var init := infos[..|infos| - 1];
      RestoreRegionKnown(catalog, init);
    }
  }

  /** Rebuilds the item of one record (the body of the restore loop). */
  method RestoreItem(catalog: Catalog, itemInfo: ItemInfo) returns (result: Option<Item>)
    ensures result == RestoredItem(catalog, itemInfo)
  {
    var created := CreateByName(catalog, Some(itemInfo.shortName), itemInfo.amount, itemInfo.skinId);
    if created.None? {
      return None;
    }
    var item := created.value.(condition := itemInfo.condition, position := itemInfo.position, name := itemInfo.name);
    ghost var named := item;
    if item.projectile.Some? && itemInfo.ammunition.Some? {
      var ammunition := itemInfo.ammunition.value;
      var magazine := item.projectile.value.(contents := ammunition.amount);
      var ammoDef := FindItemDefinition(catalog, ammunition.shortName);
      if ammoDef.Some? {
        magazine := magazine.(ammoType := ammunition.shortName);
      }
      item := item.(projectile := Some(magazine));
    }
    assert item == LoadAmmunition(catalog, named, itemInfo);
    ghost var loaded := item;
    if |itemInfo.attachments| > 0 && item.contents.Some? {
      var contents := ParentAttachments(catalog, item.contents.value, itemInfo.attachments);
      item := item.(contents := Some(contents));
    }
    assert item == AddAttachments(catalog, loaded, itemInfo);
    return Some(item);
  }

  /** Creates each attachment of `attachmentInfos` in order and parents it to `contents`, skipping unknown ones. */
  method ParentAttachments(catalog: Catalog, contents: seq<Item>, attachmentInfos: seq<SubItemInfo>) returns (result: seq<Item>)
    ensures result == contents + RestoreAttachments(catalog, attachmentInfos)
  {
    result := contents;
    var i := 0;
    while i < |attachmentInfos|
      invariant 0 <= i <= |attachmentInfos|
      invariant result == contents + RestoreAttachments(catalog, attachmentInfos[..i])
    {
      var attachment := CreateByName(catalog, attachmentInfos[i].shortName, attachmentInfos[i].amount, 0);
      if attachment.Some? {
        result := result + [attachment.value];
      }
      assert attachmentInfos[..i + 1][..i] == attachmentInfos[..i];
      i := i + 1;
    }
    assert attachmentInfos[..i] == attachmentInfos;
  }

  /**
    Rebuilds every record of `itemList`, in order, parenting each rebuilt item
    to `container`; a record whose short name is unknown is skipped and the
    loop goes on.
   */
  method EquipItemsToContainer(catalog: Catalog, container: ItemContainer, itemList: seq<ItemInfo>)
    modifies container
    ensures container.itemList == old(container.itemList) + RestoreRegion(catalog, itemList)
  {
    var i := 0;
    while i < |itemList|
      invariant 0 <= i <= |itemList|
      invariant container.itemList == old(container.itemList) + RestoreRegion(catalog, itemList[..i])
    {
      var item := RestoreItem(catalog, itemList[i]);
      if item.Some? {
        container.Insert(item.value);
      }
      assert itemList[..i + 1][..i] == itemList[..i];
      i := i + 1;
    }
    assert itemList[..i] == itemList;
  }

  // ---------------------------------------------------------------- properties

  /**
    A record that restore can rebuild faithfully: its short name is known,
    its definition is a projectile weapon exactly when ammunition was
    recorded, the recorded ammunition type is known (or, when none was
    recorded, the definition's magazine starts without one), attachments
    were recorded only for a weapon whose kind has a sub-container, and every
    attachment's short name is known.
   */
  predicate Restorable(catalog: Catalog, info: ItemInfo)
  {
    && info.shortName in catalog
    && var def := catalog[info.shortName];
    && (def.magazine.Some? <==> info.ammunition.Some?)
    && (info.ammunition.Some? ==>
          match info.ammunition.value.shortName
          case Some(ammoType) => ammoType in catalog
          case None => def.magazine.value.ammoType.None?)
    && (info.attachments != [] ==> info.ammunition.Some? && def.hasContents)
    && forall i :: 0 <= i < |info.attachments| ==> FindItemDefinition(catalog, info.attachments[i].shortName).Some?
  }

  /** Filtering records that are all known keeps them all. */
  lemma {:induction false} KnownSubItemsAllKnown(catalog: Catalog, infos: seq<SubItemInfo>)
    requires forall i :: 0 <= i < |infos| ==> FindItemDefinition(catalog, infos[i].shortName).Some?
    ensures KnownSubItems(catalog, infos) == infos
  {
    if infos != [] {
      var init := infos[..|infos| - 1];
      KnownSubItemsAllKnown(catalog, init);
      assert infos == init + [infos[|infos| - 1]];
    }
  }

  /** Rebuilding a restorable record and capturing the result gives back the record, field for field. */
  lemma RestoreThenCaptureItem(catalog: Catalog, info: ItemInfo)
    requires Restorable(catalog, info)
    ensures RestoredItem(catalog, info).Some?
    ensures CaptureItem(RestoredItem(catalog, info).value) == info
  {
    var item := RestoredItem(catalog, info).value;
    RestoredItemFields(catalog, info);
    KnownSubItemsAllKnown(catalog, info.attachments);
    var captured := CaptureItem(item);
    if info.ammunition.Some? {
      assert captured.ammunition == info.ammunition;
    }
    assert captured.attachments == info.attachments;
  }

  /** Restore distributes over concatenation of record lists. */
  lemma {:induction false} RestoreRegionAppend(catalog: Catalog, front: seq<ItemInfo>, back: seq<ItemInfo>)
    ensures RestoreRegion(catalog, front + back) == RestoreRegion(catalog, front) + RestoreRegion(catalog, back)
  {
    if back == [] {
      assert front + back == front;
    } else {
      var init := back[..|back| - 1];
      var last := back[|back| - 1];
      assert front + back == (front + init) + [last];
      assert ((front + init) + [last])[..|front + init|] == front + init;
      RestoreRegionAppend(catalog, front, init);
      assert RestoreRegion(catalog, front + back) == RestoreRegion(catalog, front + init) + Rebuilt(catalog, last);
    }
  }

  /**
    A record whose short name is unknown is skipped and restoring goes on:
    the records before and after it are rebuilt as if it were not there.
   */
  lemma RestoreSkipsUnknown(catalog: Catalog, before: seq<ItemInfo>, info: ItemInfo, after: seq<ItemInfo>)
    requires info.shortName !in catalog
    ensures RestoreRegion(catalog, before + [info] + after) == RestoreRegion(catalog, before) + RestoreRegion(catalog, after)
  {
    var skipped := RestoreRegion(catalog, [info]);
    assert skipped == [] by {
      assert [info][..0] == [];
      assert RestoredItem(catalog, info).None?;
    }
    RestoreRegionAppend(catalog, before, [info]);
    RestoreRegionAppend(catalog, before + [info], after);
    assert RestoreRegion(catalog, before) + skipped == RestoreRegion(catalog, before);
  }

  /** Rebuilding restorable records and capturing the rebuilt items gives back the records, in order. */
  lemma {:induction false} RestoreThenCaptureRegion(catalog: Catalog, infos: seq<ItemInfo>)
    requires forall i :: 0 <= i < |infos| ==> Restorable(catalog, infos[i])
    ensures CaptureRegion(RestoreRegion(catalog, infos)) == infos
  {
    if infos != [] {
      var init := infos[..|infos| - 1];
      var last := infos[|infos| - 1];
      assert infos == init + [last];
      RestoreThenCaptureRegion(catalog, init);
      RestoreThenCaptureItem(catalog, last);
      var rebuilt := RestoreRegion(catalog, init);
      var item := RestoredItem(catalog, last).value;
      assert RestoreRegion(catalog, infos) == rebuilt + Rebuilt(catalog, last) == rebuilt + [item];
      assert (rebuilt + [item])[..|rebuilt|] == rebuilt;
      assert CaptureRegion(rebuilt + [item]) == CaptureRegion(rebuilt) + [CaptureItem(item)];
    }
  }

  /**
    The round trip of a container: when every captured record is restorable,
    restoring the capture and capturing again reproduces every item's short
    name, amount, skin, name, condition, position, ammunition and attachment
    list, in container order.
   */
  lemma CaptureRestoreRoundTrip(catalog: Catalog, items: seq<Item>)
    requires forall i :: 0 <= i < |items| ==> Restorable(catalog, CaptureItem(items[i]))
    ensures |RestoreRegion(catalog, CaptureRegion(items))| == |items|
    ensures CaptureRegion(RestoreRegion(catalog, CaptureRegion(items))) == CaptureRegion(items)
  {
    RestoreThenCaptureRegion(catalog, CaptureRegion(items));
  }
}
