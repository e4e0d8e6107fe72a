# GearCore in Dafny

A model of the core of the GearCore plugin for a Rust game server (an Oxide
plugin). Players save their inventory as a named *gear set*, equip it again
later, list saved sets and delete them. The model covers two pieces:

- **Item snapshot codec** (`codec.dfy`, module `Codec`).
  - *Capture* turns the ordered items of an inventory container into `ItemInfo` records. A projectile weapon also records its magazine (ammunition type and round count) and its attachments, one level deep.
  - *Restore* rebuilds items from records, best effort. A record or attachment whose short name the engine does not know is skipped, and restoring goes on.
- **Gear-set store** (`store.dfy`, module `GearStore`).
  - The class `GearCore` holds the dictionary from gear-set name to `GearSet` (main, wear and belt record lists).
  - Its methods are save-or-update, delete, equip and list.
  - A ghost field `persisted` stands for the data file. It is written after every change.

The game engine is reduced to values in `items.dfy` (module `Items`):
- a live `Item`, whose `projectile` field is present exactly for a Weapon-category item held as a projectile weapon, with `contents` as its attachment sub-container;
- a `Catalog` of item definitions by short name, which stands in for `ItemManager.FindItemDefinition` and `ItemManager.CreateByName`;
- an `ItemContainer` class whose item list is cleared and appended to.

The engine's item-definition lookup, item creation and container operations are passed in as the catalog and container objects. Nothing is reached through global state.

The main results:
- `Codec.CaptureRestoreRoundTrip`: restoring a capture and capturing again reproduces every item's short name, amount, skin, name, condition, position, ammunition and attachment list, in order, when every record is restorable.
- `Codec.RestoreSkipsUnknown`: a record with an unknown short name drops out without disturbing the records around it.
- The store's methods are proved to change only the named key. Their reports (updated/created, deleted/not found, equipped/not found) match the state before the call.

## Model

| member | source | states |
|---|---|---|
| `Items.FindItemDefinition` | GearCore.cs:374-375 | definition lookup succeeds exactly for a known, non-null short name and returns that definition |
| `Items.CreateByName` | GearCore.cs:361-362 | creation fails exactly when the short name is unknown; a created item has the requested short name, amount and skin, no name override, and its definition's magazine and (empty) sub-container |
| `Items.ItemContainer.Clear` | GearCore.cs:423-425 | a cleared container holds no items |
| `Items.ItemContainer.Insert` | GearCore.cs:367 | parenting an item to a container appends it at the end and keeps the earlier items |
| `Codec.CaptureAttachments` | GearCore.cs:339-350 | one attachment record per attachment, in order, with the attachment's short name and amount |
| `Codec.CaptureItem` | GearCore.cs:320-351 | the record copies short name, amount, skin, name, condition and position; ammunition is present iff the item is a projectile weapon and then holds the magazine's ammo type (null when none is loaded) and round count; non-weapons get no attachments, weapons get their sub-container's items one level deep |
| `Codec.CaptureRegion` | GearCore.cs:316-355 | exactly one record per container item, the i-th being the capture of the i-th item |
| `Codec.GetItemInfo` | GearCore.cs:320-352 | the loop body builds exactly the captured record of the item, with the attachment loop producing the attachment list in order |
| `Codec.GetItemsFromContainer` | GearCore.cs:316-355 | the caller's list is kept as a prefix and extended by the container's capture, one record per item in container order; the container is not changed |
| `Codec.RestoreAttachments` | GearCore.cs:382-387 | recapturing the created attachments gives exactly the attachment records whose short name is known, in order |
| `Codec.RestoredItem` | GearCore.cs:361-389 | a record is rebuilt exactly when its short name is known |
| `Codec.RestoredItemFields` | GearCore.cs:361-388 | a rebuilt item carries the record's short name, amount, skin, name, condition and position; it is a projectile weapon exactly when its definition is; recorded ammunition sets the round count and, only when its short name is known, the ammo type (otherwise the definition's type stays); it receives the known attachments in order when its kind has a sub-container |
| `Codec.RestoreRegion` | GearCore.cs:357-391 | as many items are rebuilt as there are records with a known short name |
| `Codec.RestoreRegionKnown` | GearCore.cs:359-368 | the i-th rebuilt item is the rebuild of the i-th record with a known short name |
| `Codec.RestoreItem` | GearCore.cs:361-389 | the loop body yields exactly the rebuilt item of the record, or nothing for an unknown short name |
| `Codec.ParentAttachments` | GearCore.cs:380-388 | the attachment loop appends the created attachments, skipping unknown ones one by one, after the existing contents |
| `Codec.EquipItemsToContainer` | GearCore.cs:357-391 | the container keeps its items and gains the rebuilt items of the records, in record order, with unknown records skipped |
| `Codec.RestoreRegionAppend` | GearCore.cs:359-390 | restoring a concatenation of record lists restores each list in turn, with no record affecting another |
| `Codec.RestoreSkipsUnknown` | GearCore.cs:361-362 | a record with an unknown short name is skipped and the records before and after it are rebuilt as if it were absent |
| `Codec.RestoreThenCaptureItem` | GearCore.cs:316-391 | a restorable record is rebuilt, and capturing the rebuilt item gives back the same record |
| `Codec.RestoreThenCaptureRegion` | GearCore.cs:316-391 | restoring a list of restorable records and capturing the result gives back the list, in order |
| `Codec.CaptureRestoreRoundTrip` | GearCore.cs:316-391 | when every captured record is restorable, restore rebuilds every item and a second capture equals the first (all fields, ammunition and attachment list, in order) |
| `GearStore.PlayerInventory.constructor` | GearCore.cs:304-306 | a player's inventory is three distinct, freshly allocated containers (main, wear, belt) holding the given item lists |
| `GearStore.ListingSplitsIntoKeys` | GearCore.cs:393-396 | the newline-joined enumeration of the keys is empty for an empty dictionary and otherwise, when no name holds a newline, splits back into every key once |
| `GearStore.SplitJoin` | GearCore.cs:395 | the newline-joined listing of a non-empty list of names without newlines splits back into that list |
| `GearStore.GearCore.LoadOrCreate` | GearCore.cs:148-155 | the dictionary is the data file's, or empty when there is no file |
| `GearStore.GearCore.SaveData` | GearCore.cs:157-160 | the data file holds the whole current dictionary |
| `GearStore.GearCore.SaveOrUpdateGearSet` | GearCore.cs:300-314 | reports true exactly when the name was a key before; the name then maps to the fresh capture of main, wear and belt, every other entry is unchanged, the key count grows by one only for a new name, and the data file equals the dictionary |
| `GearStore.GearCore.GetGearSets` | GearCore.cs:393-396 | an empty dictionary lists as the empty string; otherwise, when no name holds a newline, splitting the listing at newlines gives every name exactly once in enumeration order |
| `GearStore.GearCore.DeleteGearSet` | GearCore.cs:398-407 | reports true exactly when the name was a key; then only that key is removed, the count drops by one and the data file is written; otherwise nothing changes |
| `GearStore.GearCore.EquipGearSet` | GearCore.cs:413-433 | reports true exactly when the name is a key; an unknown name leaves all three containers untouched; otherwise each container is emptied when the flag (default true) is set and then gains the rebuilt items of the matching record list; the dictionary is never changed |

## Left out

- Data-file I/O (`DataFileUtil`) is modelled only as the ghost field `persisted`. Reading, writing and JSON serialization are not modelled.
- `Init`, `Unload` and the static plugin reference are host lifecycle glue and are not modelled. Permission registration and checks are not modelled either.
- The `gear` chat command is not modelled. It only validates arguments and dispatches to the operations above, and its emptiness check before listing corresponds to the empty-dictionary case of `GetGearSets`. Localized messages are not modelled either.
- The engine's slot placement and any refusal by `SetParent` are not modelled: parenting always appends to the container.
- The engine's clamping of a condition when it is assigned is not modelled. The model also has no float semantics: a condition is a 32-bit pattern, copied only.
- Live items are values, not shared objects. The source parents a new item to its container before setting its magazine and attachments. Because the container holds a reference, the final state is the same as appending the finished item, and that is what the model does.
- Item creation fails only for an unknown short name. Any other reason the engine might refuse to create an item (such as a non-positive amount) is outside this model.
- Null references are not representable, because the model's types exclude them: strings are sequences, players are non-null objects, and lists are sequences. The model does not capture the exception the source throws in each of these cases:
  - a null gear-set name passed to save, delete or the `EquipGearSet` hook, where the dictionary lookup throws (GearCore.cs:308, 400, 416);
  - a null player passed to the hook, which throws once the containers are reached (GearCore.cs:423, 428);
  - in a hand-edited data file: a null `GearSet` value, a null `Main`/`Wear`/`Belt` list or a null `ItemInfo` entry, which throw while restoring (GearCore.cs:359-361, 428-430);
  - also in a hand-edited data file: a null `Short Name` or a null `Attachments` list.
- A null ammunition short name is treated as a failed definition lookup.
- The recorded display name is copied verbatim on restore: an empty or absent recorded name replaces the new item's name as well.
- `GearStore.GearCore.GetGearSets`: the dictionary's enumeration order is not modelled; it is a parameter that lists every key once. The listing is characterized only when it is non-empty and no name holds a newline, because otherwise the joined text is ambiguous.
