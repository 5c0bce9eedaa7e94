/** The slots table access of the browser build
    (`src/database_tables/slots_manager.rs`): the `Slot` record, saving a
    value under a (name, string_val) key by deleting and inserting, and
    loading the slots of a key. */
module SlotsTable {
  import opened Wrappers
  import opened Seqs
  import opened Guids
  import opened Database

  const SlotNameNotes: string := "notes"
  const SlotNameNotesSlotTypeValue: int := 4
  const SlotNameDisplayTransactionsOlderThanOneYear: string := "display_transactions_older_than_one_year"
  const SlotNameSettings: string := "settings"

  const NoDatabaseForSave: string := "Please select a database in order to view the account by the given guid."
  const NoDatabaseForLoad: string := "Please select a database in order to load a slot for the given parameters."

  /** The `Slot` record. */
  datatype Slot = Slot(
    id: int,
    obj_guid: Uuid,
    name: string,
    slot_type: int,
    int64_val: int,
    string_val: string,
    double_val: Option<real>,
    timespec_val: Option<string>,
    guid_val: Option<string>,
    numeric_val_num: Option<int>,
    numeric_val_denom: Option<int>,
    gdate_val: Option<string>)

  /** `name=? AND string_val=?`; a NULL `string_val` equals nothing. */
  function KeyIs(name: string, stringVal: string): SlotRow -> bool
  {
    (row: SlotRow) => row.name == name && row.string_val == Some(stringVal)
  }

  function KeyIsNot(name: string, stringVal: string): SlotRow -> bool
  {
    (row: SlotRow) => !(row.name == name && row.string_val == Some(stringVal))
  }

  /** The rows stored under a key, in table order. */
  function WithKey(slots: seq<SlotRow>, name: string, stringVal: string): seq<SlotRow>
  {
    Filter(slots, KeyIs(name, stringVal))
  }

  /** The largest id in the table, 0 for an empty one. */
  function MaxId(slots: seq<SlotRow>): (m: int)
    ensures forall i :: 0 <= i < |slots| ==> slots[i].id <= m
  {
    if slots == [] then 0
    else
      var m := MaxId(slots[1..]);
      assert forall i :: 1 <= i < |slots| ==> slots[i] == slots[1..][i - 1];
      if slots[0].id > m then slots[0].id else m
  }

  /** The id AUTOINCREMENT hands out next: above every id in use and above
      every id handed out before. */
  function NextId(slots: seq<SlotRow>, lastSlotId: int): (id: int)
    ensures id > lastSlotId && forall i :: 0 <= i < |slots| ==> slots[i].id < id
  {
    (if MaxId(slots) > lastSlotId then MaxId(slots) else lastSlotId) + 1
  }

  /** The row `save_slot_for_name_and_string_val_and_int64_val` inserts:
      the fresh object GUID in its sqlite form, slot type 0 (bound as text,
      stored as an integer), the value, and NULL in the six other columns. */
  function NewSlotRow(id: int, objGuid: Uuid, name: string, stringVal: string, int64Val: int): SlotRow
  {
    SlotRow(id, ConvertGuidToSqliteString(objGuid), name, 0, Some(int64Val), Some(stringVal),
            None, None, None, None, None, None)
  }

  /** The slots table after saving `int64Val` under (`name`, `stringVal`). */
  function SlotsAfterSave(slots: seq<SlotRow>, id: int, objGuid: Uuid, name: string, stringVal: string, int64Val: int): seq<SlotRow>
  {
    Filter(slots, KeyIsNot(name, stringVal)) + [NewSlotRow(id, objGuid, name, stringVal, int64Val)]
  }

  /** `save_slot_for_name_and_string_val_and_int64_val`. `objGuid` stands for
      the `Uuid::new_v4()` the source draws at random. */
  method SaveSlotForNameAndStringValAndInt64Val(db: Db, name: string, stringVal: string, int64Val: int, objGuid: Uuid)
    returns (r: Outcome<bool>)
    modifies db
    ensures !old(db.loaded) ==> r == Err(NoDatabaseForSave) && unchanged(db)
    ensures old(db.loaded) ==> r == Ok(true)
    ensures old(db.loaded) ==> db.lastSlotId == NextId(Filter(old(db.slots), KeyIsNot(name, stringVal)), old(db.lastSlotId))
    ensures old(db.loaded) ==> db.slots == SlotsAfterSave(old(db.slots), db.lastSlotId, objGuid, name, stringVal, int64Val)
    ensures db.loaded == old(db.loaded) && db.accounts == old(db.accounts) && db.commodities == old(db.commodities)
    ensures old(db.Valid()) ==> db.Valid()
  {
    if !db.loaded {
      return Err(NoDatabaseForSave);
    }
    // The DELETE.
    db.slots := Filter(db.slots, KeyIsNot(name, stringVal));
    // The INSERT, with the id AUTOINCREMENT chooses.
    var id := NextId(db.slots, db.lastSlotId);
    var row := SlotRow(id, ConvertGuidToSqliteString(objGuid), name, 0, Some(int64Val), Some(stringVal),
                       None, None, None, None, None, None);
    db.slots := db.slots + [row];
    db.lastSlotId := id;
    return Ok(true);
  }

  /** After a save the key holds exactly one slot: the new one, with slot
      type 0, the value, a fresh id, the object GUID and NULL elsewhere. */
  lemma SaveLeavesOneSlot(slots: seq<SlotRow>, id: int, objGuid: Uuid, name: string, stringVal: string, int64Val: int)
    ensures WithKey(SlotsAfterSave(slots, id, objGuid, name, stringVal, int64Val), name, stringVal)
      == [SlotRow(id, Simple(objGuid), name, 0, Some(int64Val), Some(stringVal), None, None, None, None, None, None)]
  {
    SqliteStringIsSimple(objGuid);
    ReplaceLeavesOne(slots, NewSlotRow(id, objGuid, name, stringVal, int64Val), KeyIs(name, stringVal), KeyIsNot(name, stringVal));
  }

  /** Every slot under another key is left as it was, in the same order. */
  lemma SaveKeepsOtherKeys(slots: seq<SlotRow>, id: int, objGuid: Uuid, name: string, stringVal: string, int64Val: int,
                           otherName: string, otherStringVal: string)
    requires otherName != name || otherStringVal != stringVal
    ensures WithKey(SlotsAfterSave(slots, id, objGuid, name, stringVal, int64Val), otherName, otherStringVal)
         == WithKey(slots, otherName, otherStringVal)
  {
    ReplaceKeepsOthers(slots, NewSlotRow(id, objGuid, name, stringVal, int64Val), KeyIsNot(name, stringVal), KeyIs(otherName, otherStringVal));
  }

  /** Saving the same triple twice gives the table of one save, apart from
      the id and the object GUID of the row. */
  lemma SaveTwiceIsSaveOnce(slots: seq<SlotRow>, id1: int, g1: Uuid, id2: int, g2: Uuid, name: string, stringVal: string, int64Val: int)
    ensures SlotsAfterSave(SlotsAfterSave(slots, id1, g1, name, stringVal, int64Val), id2, g2, name, stringVal, int64Val)
         == SlotsAfterSave(slots, id2, g2, name, stringVal, int64Val)
  {
    ReplaceTwice(slots, NewSlotRow(id1, g1, name, stringVal, int64Val), NewSlotRow(id2, g2, name, stringVal, int64Val), KeyIsNot(name, stringVal));
  }

  /** serde's reading of a row into a `Slot`: the object GUID must parse,
      and `int64_val` and `string_val` must not be NULL. */
  function SlotFromRow(row: SlotRow): (r: Option<Slot>)
    ensures r.Some? <==> ParseUuid(row.obj_guid).Some? && row.int64_val.Some? && row.string_val.Some?
    ensures r.Some? ==> r.value.id == row.id && r.value.name == row.name && Some(r.value.int64_val) == row.int64_val
                        && Some(r.value.string_val) == row.string_val
  {
    match ParseUuid(row.obj_guid)
    case None => None
    case Some(g) =>
      if row.int64_val.None? || row.string_val.None? then None
      else Some(Slot(row.id, g, row.name, row.slot_type, row.int64_val.value, row.string_val.value,
                     row.double_val, row.timespec_val, row.guid_val, row.numeric_val_num, row.numeric_val_denom,
                     row.gdate_val))
  }

  /** What `load_slots_for_name_and_string_val` returns. Its query text is
      not part of this model; it is read as selecting the rows of the key. */
  function LoadedSlots(loaded: bool, slots: seq<SlotRow>, name: string, stringVal: string): (r: Outcome<seq<Slot>>)
    ensures !loaded ==> r == Err(NoDatabaseForLoad)
    ensures loaded ==> r.Ok? || r == Panic(UnwrapFailure)
  {
    if !loaded then Err(NoDatabaseForLoad)
    else ReadAll(WithKey(slots, name, stringVal), SlotFromRow, UnwrapFailure)
  }

  /** `load_slots_for_name_and_string_val`: steps through the rows of the
      key, reading each into a `Slot` and unwrapping the reading. */
  method LoadSlotsForNameAndStringVal(db: Db, name: string, stringVal: string) returns (r: Outcome<seq<Slot>>)
    ensures r == LoadedSlots(db.loaded, db.slots, name, stringVal)
  {
    if !db.loaded {
      return Err(NoDatabaseForLoad);
    }
    var table := db.slots;
    var test := KeyIs(name, stringVal);
    var slots: seq<Slot> := [];
    var i := 0;
    while i < |table|
      invariant 0 <= i <= |table|
      invariant ReadAll(Filter(table[..i], test), SlotFromRow, UnwrapFailure) == Ok(slots)
    {
      var row := table[i];
      if test(row) {
        var slot := SlotFromRow(row);
        if slot.None? {
          ReadFilteredPanic(table, i, test, SlotFromRow, UnwrapFailure);
          return Panic(UnwrapFailure);
        }
        ReadFilteredStep(table, i, test, SlotFromRow, UnwrapFailure, slots);
        slots := slots + [slot.value];
      } else {
        ReadFilteredStep(table, i, test, SlotFromRow, UnwrapFailure, slots);
      }
      i := i + 1;
    }
    assert table[..i] == table;
    return Ok(slots);
  }

  /** Loading a key right after saving it gives back exactly the saved slot. */
  lemma LoadAfterSave(slots: seq<SlotRow>, id: int, objGuid: Uuid, name: string, stringVal: string, int64Val: int)
    ensures LoadedSlots(true, SlotsAfterSave(slots, id, objGuid, name, stringVal, int64Val), name, stringVal)
      == Ok([Slot(id, objGuid, name, 0, int64Val, stringVal, None, None, None, None, None, None)])
  {
    SaveLeavesOneSlot(slots, id, objGuid, name, stringVal, int64Val);
    var row := SlotRow(id, Simple(objGuid), name, 0, Some(int64Val), Some(stringVal), None, None, None, None, None, None);
    SavedRowReads(row, objGuid);
    ReadAllSingle(row, SlotFromRow, UnwrapFailure);
  }

  lemma SavedRowReads(row: SlotRow, objGuid: Uuid)
    requires row.obj_guid == Simple(objGuid) && row.int64_val.Some? && row.string_val.Some?
    ensures SlotFromRow(row) == Some(Slot(row.id, objGuid, row.name, row.slot_type, row.int64_val.value, row.string_val.value,
                                          row.double_val, row.timespec_val, row.guid_val, row.numeric_val_num,
                                          row.numeric_val_denom, row.gdate_val))
  {
    ParseUuidOfSimple(objGuid);
  }
}
