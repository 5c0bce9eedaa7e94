/** The browser build's accounts table access
    (`src/database_tables/accounts_manager.rs`): the `AccountType` and `Bool`
    enums, the `Account` record, saving an account as a delete followed by an
    insert, and looking up the top-level account of a type. */
module AccountsTable {
  import opened Wrappers
  import opened Seqs
  import opened Guids
  import opened Database

  datatype AccountType = ASSET | BANK | CASH | CREDIT | EQUITY | EXPENSE | INCOME | LIABILITY | RECEIVABLE | ROOT

  /** The variant's name: what `{:?}` prints, and therefore also `Display`. */
  function TypeName(t: AccountType): string
  {
    match t
    case ASSET => "ASSET"
    case BANK => "BANK"
    case CASH => "CASH"
    case CREDIT => "CREDIT"
    case EQUITY => "EQUITY"
    case EXPENSE => "EXPENSE"
    case INCOME => "INCOME"
    case LIABILITY => "LIABILITY"
    case RECEIVABLE => "RECEIVABLE"
    case ROOT => "ROOT"
  }

  /** `Display for AccountType` writes the `Debug` form. */
  function Display(t: AccountType): string
  {
    TypeName(t)
  }

  /** serde's reading of a unit variant: exactly its name. */
  function ParseTypeName(s: string): (r: Option<AccountType>)
    ensures r.Some? ==> TypeName(r.value) == s
    ensures r.None? ==> forall t :: TypeName(t) != s
  {
    if s == "ASSET" then Some(ASSET)
    else if s == "BANK" then Some(BANK)
    else if s == "CASH" then Some(CASH)
    else if s == "CREDIT" then Some(CREDIT)
    else if s == "EQUITY" then Some(EQUITY)
    else if s == "EXPENSE" then Some(EXPENSE)
    else if s == "INCOME" then Some(INCOME)
    else if s == "LIABILITY" then Some(LIABILITY)
    else if s == "RECEIVABLE" then Some(RECEIVABLE)
    else if s == "ROOT" then Some(ROOT)
    else None
  }

  /** Distinct variants have distinct names. */
  lemma TypeNameInjective(a: AccountType, b: AccountType)
    requires TypeName(a) == TypeName(b)
    ensures a == b
  {
    assert ParseTypeName(TypeName(a)) == Some(a);
  }

  /** `#[repr(u8)] enum Bool { False = 0, True = 1 }`. */
  datatype Bool = False | True

  function BoolValue(b: Bool): int
  {
    if b == True then 1 else 0
  }

  /** serde_repr's reading of a `Bool`: 0 or 1, anything else refused. */
  function ParseBool(n: int): (r: Option<Bool>)
    ensures r.Some? <==> n == 0 || n == 1
    ensures r.Some? ==> BoolValue(r.value) == n
  {
    if n == 0 then Some(False) else if n == 1 then Some(True) else None
  }

  /** The `Account` record; `tags` is skipped by serde. */
  datatype Account = Account(
    guid: Uuid,
    name: string,
    account_type: AccountType,
    commodity_guid: Option<Uuid>,
    commodity_scu: int,
    non_std_scu: int,
    parent_guid: Option<Uuid>,
    code: string,
    description: string,
    hidden: Bool,
    placeholder: Bool,
    tags: map<string, string>)

  const NoDatabaseForSave: string := "Please select a database in order to save this new database."
  const NoDatabaseForRefresh: string := "Please select a database to refresh your accounts view."
  const NoAccountForName: string := "No account for this name!"

  /** `(SELECT fraction FROM commodities WHERE guid=g)`: the first matching
      commodity's fraction, NULL when there is none. */
  function FractionOf(commodities: seq<CommodityRow>, g: string): (r: Option<int>)
    ensures r.Some? <==> exists i :: 0 <= i < |commodities| && commodities[i].guid == g
    ensures r.Some? ==> exists i :: FirstWithGuid(commodities, g, i) && commodities[i].fraction == r.value
  {
    if commodities == [] then None
    else if commodities[0].guid == g then Some(commodities[0].fraction)
    else
      var r := FractionOf(commodities[1..], g);
      assert forall i :: 1 <= i < |commodities| ==> commodities[i] == commodities[1..][i - 1];
      if r.Some? then
        var i :| FirstWithGuid(commodities[1..], g, i) && commodities[1..][i].fraction == r.value;
        assert FirstWithGuid(commodities, g, i + 1);
        r
      else r
  }

  /** Row `i` is the first commodity row with GUID `g`. */
  predicate FirstWithGuid(commodities: seq<CommodityRow>, g: string, i: int)
  {
    0 <= i < |commodities| && commodities[i].guid == g && forall j :: 0 <= j < i ==> commodities[j].guid != g
  }

  /** The commodity columns written for `commodity_guid`. */
  function CommodityColumns(commodity: Option<Uuid>, commodities: seq<CommodityRow>): (Option<string>, Option<int>)
  {
    match commodity
    case None => (None, Some(0))
    case Some(g) => (Some(ConvertGuidToSqliteString(g)), FractionOf(commodities, ConvertGuidToSqliteString(g)))
  }

  /** The parent column written for `parent_guid`: NULL for none and for nil. */
  function ParentColumn(parent: Option<Uuid>): Option<string>
  {
    if parent.Some? && parent.value != Nil then Some(ConvertGuidToSqliteString(parent.value)) else None
  }

  /** The row `save_new_and_delete_current` inserts for `a`. The scu column is
      the commodity's own fraction, so `a.commodity_scu` is never stored;
      `non_std_scu` is bound as text and stored as the integer it spells. */
  function EncodeAccount(a: Account, commodities: seq<CommodityRow>): (row: AccountRow)
  {
    var (cg, cs) := CommodityColumns(a.commodity_guid, commodities);
    AccountRow(ConvertGuidToSqliteString(a.guid), a.name, TypeName(a.account_type), cg, cs, a.non_std_scu,
               ParentColumn(a.parent_guid), Some(a.code), Some(a.description),
               BoolValue(a.hidden), BoolValue(a.placeholder))
  }

  /** The stored columns: the GUIDs in their 32-digit form, the type by its
      name, the flags as 1 for `True` and 0 otherwise, no commodity as NULL
      with scu 0, and a missing or nil parent as NULL. */
  lemma EncodeAccountFields(a: Account, commodities: seq<CommodityRow>)
    ensures var row := EncodeAccount(a, commodities);
      && row.guid == Simple(a.guid) && row.name == a.name && row.account_type == TypeName(a.account_type)
      && row.non_std_scu == a.non_std_scu && row.code == Some(a.code) && row.description == Some(a.description)
      && (row.hidden == 1 <==> a.hidden == True) && (row.placeholder == 1 <==> a.placeholder == True)
      && row.hidden in {0, 1} && row.placeholder in {0, 1}
      && (a.commodity_guid.None? ==> row.commodity_guid.None? && row.commodity_scu == Some(0))
      && (a.commodity_guid.Some? ==>
            row.commodity_guid == Some(Simple(a.commodity_guid.value)) &&
            row.commodity_scu == FractionOf(commodities, Simple(a.commodity_guid.value)))
      && (row.parent_guid.None? <==> a.parent_guid.None? || a.parent_guid == Some(Nil))
      && (row.parent_guid.Some? ==> row.parent_guid == Some(Simple(a.parent_guid.value)))
  {
    AccountGuidsAreSimple(a);
  }

  lemma AccountGuidsAreSimple(a: Account)
    ensures ConvertGuidToSqliteString(a.guid) == Simple(a.guid)
    ensures a.commodity_guid.Some? ==> ConvertGuidToSqliteString(a.commodity_guid.value) == Simple(a.commodity_guid.value)
    ensures a.parent_guid.Some? ==> ConvertGuidToSqliteString(a.parent_guid.value) == Simple(a.parent_guid.value)
  {
    SqliteStringIsSimple(a.guid);
    if a.commodity_guid.Some? { SqliteStringIsSimple(a.commodity_guid.value); }
    if a.parent_guid.Some? { SqliteStringIsSimple(a.parent_guid.value); }
  }

  function GuidIs(key: string): AccountRow -> bool
  {
    (row: AccountRow) => row.guid == key
  }

  function GuidIsNot(key: string): AccountRow -> bool
  {
    (row: AccountRow) => row.guid != key
  }

  /** What `DELETE FROM Accounts WHERE guid=?` leaves. */
  function WithoutGuid(rows: seq<AccountRow>, key: string): (r: seq<AccountRow>)
  {
    Filter(rows, GuidIsNot(key))
  }

  /** The rows carrying `key`. */
  function WithGuid(rows: seq<AccountRow>, key: string): (r: seq<AccountRow>)
  {
    Filter(rows, GuidIs(key))
  }

  /** The accounts table after `save_new_and_delete_current(a)`. */
  function AccountsAfterSave(rows: seq<AccountRow>, a: Account, commodities: seq<CommodityRow>): (r: seq<AccountRow>)
  {
    WithoutGuid(rows, ConvertGuidToSqliteString(a.guid)) + [EncodeAccount(a, commodities)]
  }

  /** `save_new_and_delete_current`: with a book open, delete the rows with
      the account's GUID, then insert its encoding; without one, refuse. */
  method SaveNewAndDeleteCurrent(db: Db, a: Account) returns (r: Outcome<bool>)
    modifies db
    ensures !old(db.loaded) ==> r == Err(NoDatabaseForSave) && unchanged(db)
    ensures old(db.loaded) ==> r == Ok(true) && db.accounts == AccountsAfterSave(old(db.accounts), a, old(db.commodities))
    ensures db.loaded == old(db.loaded) && db.commodities == old(db.commodities)
    ensures db.slots == old(db.slots) && db.lastSlotId == old(db.lastSlotId)
  {
    if !db.loaded {
      return Err(NoDatabaseForSave);
    }
    var key := ConvertGuidToSqliteString(a.guid);
    var (commodityGuid, commodityScu) := CommodityColumns(a.commodity_guid, db.commodities);
    var parentGuid := ParentColumn(a.parent_guid);
    var hidden := if a.hidden == True then 1 else 0;
    var placeholder := if a.placeholder == True then 1 else 0;
    var row := AccountRow(key, a.name, TypeName(a.account_type), commodityGuid, commodityScu,
                          a.non_std_scu, parentGuid, Some(a.code), Some(a.description), hidden, placeholder);
    // The DELETE, then the INSERT.
    db.accounts := WithoutGuid(db.accounts, key);
    db.accounts := db.accounts + [row];
    return Ok(true);
  }

  /** After a save exactly one row carries the account's GUID: the new one. */
  lemma SaveLeavesOneRow(rows: seq<AccountRow>, a: Account, commodities: seq<CommodityRow>)
    ensures WithGuid(AccountsAfterSave(rows, a, commodities), Simple(a.guid)) == [EncodeAccount(a, commodities)]
  {
    SqliteStringIsSimple(a.guid);
    var key := Simple(a.guid);
    ReplaceLeavesOne(rows, EncodeAccount(a, commodities), GuidIs(key), GuidIsNot(key));
  }

  /** Rows with any other GUID are exactly what they were, in the same order. */
  lemma SaveKeepsOtherRows(rows: seq<AccountRow>, a: Account, commodities: seq<CommodityRow>, other: string)
    requires other != Simple(a.guid)
    ensures WithGuid(AccountsAfterSave(rows, a, commodities), other) == WithGuid(rows, other)
  {
    SqliteStringIsSimple(a.guid);
    var key := Simple(a.guid);
    ReplaceKeepsOthers(rows, EncodeAccount(a, commodities), GuidIsNot(key), GuidIs(other));
  }

  /** Saving the same account twice leaves the table as saving it once. */
  lemma SaveIdempotent(rows: seq<AccountRow>, a: Account, commodities: seq<CommodityRow>)
    ensures AccountsAfterSave(AccountsAfterSave(rows, a, commodities), a, commodities) == AccountsAfterSave(rows, a, commodities)
  {
    SqliteStringIsSimple(a.guid);
    var key := Simple(a.guid);
    ReplaceTwice(rows, EncodeAccount(a, commodities), EncodeAccount(a, commodities), GuidIsNot(key));
  }

  /** serde's reading of a nullable GUID column into `Option<Uuid>`: NULL
      is `None`, text must parse; `None` here means the reading fails. */
  function GuidColumn(c: Option<string>): (r: Option<Option<Uuid>>)
    ensures c.None? ==> r == Some(None)
    ensures c.Some? ==> (r.Some? <==> ParseUuid(c.value).Some?)
    ensures c.Some? && r.Some? ==> r.value == ParseUuid(c.value)
  {
    match c
    case None => Some(None)
    case Some(s) => (match ParseUuid(s) case None => None case Some(g) => Some(Some(g)))
  }

  /** serde's reading of a row from `getAsObject` into an `Account`: GUID
      text through `Uuid`'s parser, the type by its name, the flags through
      `Bool`; a NULL where the record has no `Option` is refused, and `tags`
      starts empty. */
  function AccountFromRow(row: AccountRow): (r: Option<Account>)
    ensures r.Some? ==> ParseUuid(row.guid) == Some(r.value.guid)
    ensures r.Some? ==> TypeName(r.value.account_type) == row.account_type && r.value.tags == map[]
  {
    var guid := ParseUuid(row.guid);
    var accountType := ParseTypeName(row.account_type);
    var commodity := GuidColumn(row.commodity_guid);
    var parent := GuidColumn(row.parent_guid);
    var hidden := ParseBool(row.hidden);
    var placeholder := ParseBool(row.placeholder);
    if guid.None? || accountType.None? || commodity.None? || row.commodity_scu.None? || parent.None?
       || row.code.None? || row.description.None? || hidden.None? || placeholder.None?
    then None
    else Some(Account(guid.value, row.name, accountType.value, commodity.value, row.commodity_scu.value,
                      row.non_std_scu, parent.value, row.code.value, row.description.value,
                      hidden.value, placeholder.value, map[]))
  }

  /** The account a saved row reads back as: the scu becomes the stored
      fraction (0 without a commodity), a nil parent reads back as none, and
      the tags are lost. */
  function Stored(a: Account, commodities: seq<CommodityRow>, scu: int): Account
  {
    a.(commodity_scu := scu,
       parent_guid := if a.parent_guid == Some(Nil) then None else a.parent_guid,
       tags := map[])
  }

  /** Reading back a saved row gives the account, as far as the table keeps it. */
  lemma SavedRowReadsBack(a: Account, commodities: seq<CommodityRow>)
    requires a.commodity_guid.Some? ==> FractionOf(commodities, Simple(a.commodity_guid.value)).Some?
    ensures AccountFromRow(EncodeAccount(a, commodities))
         == Some(Stored(a, commodities, if a.commodity_guid.None? then 0 else FractionOf(commodities, Simple(a.commodity_guid.value)).value))
  {
    var row := EncodeAccount(a, commodities);
    EncodeAccountFields(a, commodities);
    var scu := if a.commodity_guid.None? then 0 else FractionOf(commodities, Simple(a.commodity_guid.value)).value;
    ParseUuidOfSimple(a.guid);
    ParseTypeNameOfName(a.account_type);
    if a.commodity_guid.Some? { ParseUuidOfSimple(a.commodity_guid.value); }
    if a.parent_guid.Some? && a.parent_guid != Some(Nil) { ParseUuidOfSimple(a.parent_guid.value); }
    ReadsAs(row, Stored(a, commodities, scu));
  }

  /** A row whose every column reads as the matching field. */
  lemma ReadsAs(row: AccountRow, acc: Account)
    requires ParseUuid(row.guid) == Some(acc.guid) && row.name == acc.name
    requires ParseTypeName(row.account_type) == Some(acc.account_type)
    requires GuidColumn(row.commodity_guid) == Some(acc.commodity_guid) && row.commodity_scu == Some(acc.commodity_scu)
    requires row.non_std_scu == acc.non_std_scu && GuidColumn(row.parent_guid) == Some(acc.parent_guid)
    requires row.code == Some(acc.code) && row.description == Some(acc.description)
    requires ParseBool(row.hidden) == Some(acc.hidden) && ParseBool(row.placeholder) == Some(acc.placeholder)
    requires acc.tags == map[]
    ensures AccountFromRow(row) == Some(acc)
  {
  }

  lemma ParseTypeNameOfName(t: AccountType)
    ensures ParseTypeName(TypeName(t)) == Some(t)
  {
  }

  /** The `WHERE` clause of `retrieve_account_for_account_type`: the type
      matches, and the parent is a parentless "Root Account" or an account
      named "Liabilities" (a NULL parent is in neither set). */
  predicate TopLevelOfType(table: seq<AccountRow>, accountType: string, row: AccountRow)
  {
    row.account_type == accountType && row.parent_guid.Some? &&
    ((exists i :: 0 <= i < |table| && table[i].guid == row.parent_guid.value && table[i].parent_guid.None? && table[i].name == "Root Account") ||
     (exists i :: 0 <= i < |table| && table[i].guid == row.parent_guid.value && table[i].name == "Liabilities"))
  }

  /** The rows that query steps through, in table order. */
  function TopLevelTest(table: seq<AccountRow>, accountType: string): AccountRow -> bool
  {
    (row: AccountRow) => TopLevelOfType(table, accountType, row)
  }

  function TopLevelRows(table: seq<AccountRow>, accountType: string): seq<AccountRow>
  {
    Filter(table, TopLevelTest(table, accountType))
  }

  /** What `retrieve_account_for_account_type` returns. */
  function AccountForType(loaded: bool, table: seq<AccountRow>, accountType: string): (r: Outcome<Account>)
    ensures !loaded ==> r == Panic(NoDatabaseForRefresh)
  {
    if !loaded then Panic(NoDatabaseForRefresh)
    else
      var read := ReadAll(TopLevelRows(table, accountType), AccountFromRow, UnwrapFailure);
      if read.Panic? then Panic(read.message)
      else if |read.value| > 0 then Ok(read.value[0])
      else Err(NoAccountForName)
  }

  /** The answer is the first top-level row of the type, read as an account;
      `Err` exactly when no row qualifies. */
  lemma AccountForTypeIsFirstMatch(table: seq<AccountRow>, accountType: string)
    ensures AccountForType(true, table, accountType).Ok? ==>
              exists i :: 0 <= i < |table| && TopLevelOfType(table, accountType, table[i])
                && AccountFromRow(table[i]) == Some(AccountForType(true, table, accountType).value)
                && forall j :: 0 <= j < i ==> !TopLevelOfType(table, accountType, table[j])
    ensures AccountForType(true, table, accountType) == Err(NoAccountForName)
        <==> forall i :: 0 <= i < |table| ==> !TopLevelOfType(table, accountType, table[i])
  {
    var test := TopLevelTest(table, accountType);
    var rows := TopLevelRows(table, accountType);
    FilterMembers(table, test);
    ReadAllValues(rows, AccountFromRow, UnwrapFailure);
    if rows != [] {
      FilterFirst(table, test);
    }
  }

  /** A row that does not read panics the lookup as soon as it is among the
      qualifying rows. */
  lemma UnreadableMatchPanics(table: seq<AccountRow>, accountType: string, i: int)
    requires 0 <= i < |table| && TopLevelOfType(table, accountType, table[i]) && AccountFromRow(table[i]).None?
    ensures AccountForType(true, table, accountType) == Panic(UnwrapFailure)
  {
    var test := TopLevelTest(table, accountType);
    var rows := TopLevelRows(table, accountType);
    FilterMembers(table, test);
    ReadAllValues(rows, AccountFromRow, UnwrapFailure);
    assert table[i] in rows;
  }

  /** `retrieve_account_for_account_type`: steps through the matching rows,
      reading each into an account (panicking on one that does not read),
      and answers the first. */
  method RetrieveAccountForAccountType(db: Db, accountType: string) returns (r: Outcome<Account>)
    ensures r == AccountForType(db.loaded, db.accounts, accountType)
  {
    if !db.loaded {
      return Panic(NoDatabaseForRefresh);
    }
    var table := db.accounts;
    var test := TopLevelTest(table, accountType);
    var accounts: seq<Account> := [];
    var i := 0;
    while i < |table|
      invariant 0 <= i <= |table|
      invariant ReadAll(Filter(table[..i], test), AccountFromRow, UnwrapFailure) == Ok(accounts)
    {
      var row := table[i];
      if test(row) {
        var account := AccountFromRow(row);
        if account.None? {
          ReadFilteredPanic(table, i, test, AccountFromRow, UnwrapFailure);
          return Panic(UnwrapFailure);
        }
        ReadFilteredStep(table, i, test, AccountFromRow, UnwrapFailure, accounts);
        accounts := accounts + [account.value];
      } else {
        ReadFilteredStep(table, i, test, AccountFromRow, UnwrapFailure, accounts);
      }
      i := i + 1;
    }
    assert table[..i] == table;
    assert ReadAll(TopLevelRows(table, accountType), AccountFromRow, UnwrapFailure) == Ok(accounts);
    if |accounts| > 0 {
      return Ok(accounts[0]);
    }
    return Err(NoAccountForName);
  }
}
