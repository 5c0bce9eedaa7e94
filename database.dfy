/** The open GnuCash book: the sql.js database the browser build keeps in its
    global `DATABASE` vector (empty until a file is opened), seen as the
    rows of the three tables the core reads and writes. Column values are
    what SQLite stores: `None` is SQL NULL, and text bound to an INTEGER
    column is kept as the integer it spells (SQLite's type affinity). Rows
    are kept in rowid order, the order an unordered SELECT steps through
    them. */
module Database {
  import opened Wrappers

  /** A row of the `accounts` table. */
  datatype AccountRow = AccountRow(
    guid: string,
    name: string,
    account_type: string,
    commodity_guid: Option<string>,
    commodity_scu: Option<int>,
    non_std_scu: int,
    parent_guid: Option<string>,
    code: Option<string>,
    description: Option<string>,
    hidden: int,
    placeholder: int)

  /** A row of the `commodities` table (`Commodity` of
      `src/database_tables/commodities_manager.rs`). */
  datatype CommodityRow = CommodityRow(
    guid: string,
    namespace: string,
    mnemonic: string,
    fullname: string,
    cusip: string,
    fraction: int,
    quote_flag: int,
    quote_source: Option<string>,
    quote_tz: Option<string>)

  /** A row of the `slots` table. */
  datatype SlotRow = SlotRow(
    id: int,
    obj_guid: string,
    name: string,
    slot_type: int,
    int64_val: Option<int>,
    string_val: Option<string>,
    double_val: Option<real>,
    timespec_val: Option<string>,
    guid_val: Option<string>,
    numeric_val_num: Option<int>,
    numeric_val_denom: Option<int>,
    gdate_val: Option<string>)

  /** The `DATABASE` global and the tables of the book it holds. */
  class Db {
    /** `DATABASE.len() != 0`: a book has been opened. */
    var loaded: bool
    var accounts: seq<AccountRow>
    var commodities: seq<CommodityRow>
    var slots: seq<SlotRow>
    /** The largest slot id handed out so far (`sqlite_sequence` for the
        AUTOINCREMENT column `slots.id`). */
    var lastSlotId: int

    /** Ids handed out by AUTOINCREMENT are never above the sequence. */
    predicate Valid()
      reads this
    {
      forall i :: 0 <= i < |slots| ==> slots[i].id <= lastSlotId
    }

    /** No book opened yet. */
    constructor ()
      ensures !loaded && accounts == [] && commodities == [] && slots == [] && lastSlotId == 0
      ensures Valid()
    {
      loaded := false;
      accounts := [];
      commodities := [];
      slots := [];
      lastSlotId := 0;
    }

    /** A book read from a file. */
    constructor Open(accounts: seq<AccountRow>, commodities: seq<CommodityRow>, slots: seq<SlotRow>, lastSlotId: int)
      requires forall i :: 0 <= i < |slots| ==> slots[i].id <= lastSlotId
      ensures loaded && this.accounts == accounts && this.commodities == commodities
      ensures this.slots == slots && this.lastSlotId == lastSlotId
      ensures Valid()
    {
      loaded := true;
      this.accounts := accounts;
      this.commodities := commodities;
      this.slots := slots;
      this.lastSlotId := lastSlotId;
    }
  }
}
