/** The desktop build's account retrievals (`src/accounts_manager.rs`):
    reading an account type, the row reading shared by every query, and the
    four retrievals whose `WHERE` clauses are row predicates. The book is the
    `accounts` table itself; opening the file and preparing the statement
    are not part of this model. */
module LegacyAccounts {
  import opened Wrappers
  import opened Text
  import opened Seqs
  import Guids
  import opened LegacyGuids
  import opened Database
  import AccountsTable

  /** The same ten variants as the browser build's `AccountType`. */
  type AccountType = AccountsTable.AccountType

  function InvalidTypeMessage(s: string): string
  {
    "The given Account Type '" + s + "' is not valid!"
  }

  /** `convert_to_account_type`. The column read is `None` where rusqlite
      returned `Err`; that is unwrapped, so it panics, as does any string
      other than the ten variant names. It never returns `Err`. */
  function ConvertToAccountType(column: Option<string>): (r: Outcome<AccountType>)
    ensures !r.Err?
    ensures column.None? ==> r == Panic(UnwrapFailure)
    ensures column.Some? && r.Ok? ==> AccountsTable.TypeName(r.value) == column.value
    ensures column.Some? && r.Panic? ==>
              r.message == InvalidTypeMessage(column.value) && forall t :: AccountsTable.TypeName(t) != column.value
  {
    match column
    case None => Panic(UnwrapFailure)
    case Some(s) =>
      if s == "ASSET" then Ok(AccountsTable.ASSET)
      else if s == "BANK" then Ok(AccountsTable.BANK)
      else if s == "CASH" then Ok(AccountsTable.CASH)
      else if s == "CREDIT" then Ok(AccountsTable.CREDIT)
      else if s == "EQUITY" then Ok(AccountsTable.EQUITY)
      else if s == "EXPENSE" then Ok(AccountsTable.EXPENSE)
      else if s == "INCOME" then Ok(AccountsTable.INCOME)
      else if s == "LIABILITY" then Ok(AccountsTable.LIABILITY)
      else if s == "RECEIVABLE" then Ok(AccountsTable.RECEIVABLE)
      else if s == "ROOT" then Ok(AccountsTable.ROOT)
      else Panic(InvalidTypeMessage(s))
  }

  /** Every variant's name reads back as that variant. */
  lemma ConvertToAccountTypeOfName(t: AccountType)
    ensures ConvertToAccountType(Some(AccountsTable.TypeName(t))) == Ok(t)
  {
    var r := ConvertToAccountType(Some(AccountsTable.TypeName(t)));
    AccountsTable.TypeNameInjective(r.value, t);
  }

  /** The desktop `Account` record. A NULL GUID column reads as the null
      GUID, so the GUIDs are not optional here. */
  datatype Account = Account(
    guid: Guids.Uuid,
    name: string,
    account_type: AccountType,
    commodity_guid: Guids.Uuid,
    commodity_scu: int,
    non_std_scu: int,
    parent_guid: Guids.Uuid,
    code: string,
    description: string,
    hidden: bool,
    placeholder: bool)

  /** rusqlite's error for a NULL column read as a non-optional value; it
      stands for `Error::InvalidColumnType`, naming the column. */
  function NullColumn(index: nat, name: string): string
  {
    "Invalid column type Null at index: " + NatToString(index) + ", name: " + name
  }

  /** The `query_map` closure: the fields are read in declaration order and
      the first failure wins. A malformed GUID or type panics (the converters
      unwrap or `panic!`); a NULL `commodity_scu`, `code` or `description` is
      an `Err` passed on by `?`. An integer read as `bool` is `true` iff it
      is not 0. */
  function AccountFromRow(row: AccountRow): (r: Outcome<Account>)
    ensures r.Ok? ==>
              ConvertStringToGuid(row.guid) == Ok(r.value.guid) && r.value.name == row.name
              && AccountsTable.TypeName(r.value.account_type) == row.account_type
              && ConvertStringResultToGuid(row.commodity_guid) == Ok(r.value.commodity_guid)
              && row.commodity_scu == Some(r.value.commodity_scu) && r.value.non_std_scu == row.non_std_scu
              && ConvertStringResultToGuid(row.parent_guid) == Ok(r.value.parent_guid)
              && row.code == Some(r.value.code) && row.description == Some(r.value.description)
              && (r.value.hidden <==> row.hidden != 0) && (r.value.placeholder <==> row.placeholder != 0)
    ensures r.Err? ==> row.commodity_scu.None? || row.code.None? || row.description.None?
  {
    var guid := ConvertStringResultToGuid(Some(row.guid));
    var accountType := ConvertToAccountType(Some(row.account_type));
    var commodity := ConvertStringResultToGuid(row.commodity_guid);
    var parent := ConvertStringResultToGuid(row.parent_guid);
    if !guid.Ok? then Failure(guid)
    else if !accountType.Ok? then Failure(accountType)
    else if !commodity.Ok? then Failure(commodity)
    else if row.commodity_scu.None? then Err(NullColumn(4, "commodity_scu"))
    else if !parent.Ok? then Failure(parent)
    else if row.code.None? then Err(NullColumn(7, "code"))
    else if row.description.None? then Err(NullColumn(8, "description"))
    else Ok(Account(guid.value, row.name, accountType.value, commodity.value, row.commodity_scu.value,
                    row.non_std_scu, parent.value, row.code.value, row.description.value,
                    row.hidden != 0, row.placeholder != 0))
  }

  /** A row whose GUID columns hold sqlite strings (or NULL), whose type is a
      variant name and whose other columns are set reads back as the account
      those columns describe. */
  lemma WellFormedRowReads(row: AccountRow, guid: Guids.Uuid, t: AccountType, commodity: Guids.Uuid, parent: Guids.Uuid)
    requires row.guid == Guids.Simple(guid) && row.account_type == AccountsTable.TypeName(t)
    requires row.commodity_guid == Some(Guids.Simple(commodity)) || (row.commodity_guid.None? && commodity == NullGuid())
    requires row.parent_guid == Some(Guids.Simple(parent)) || (row.parent_guid.None? && parent == NullGuid())
    requires row.commodity_scu.Some? && row.code.Some? && row.description.Some?
    ensures AccountFromRow(row) == Ok(Account(guid, row.name, t, commodity, row.commodity_scu.value, row.non_std_scu,
                                              parent, row.code.value, row.description.value,
                                              row.hidden != 0, row.placeholder != 0))
  {
    GuidColumnReads(Some(row.guid), guid);
    GuidColumnReads(row.commodity_guid, commodity);
    GuidColumnReads(row.parent_guid, parent);
    ConvertToAccountTypeOfName(t);
  }

  lemma GuidColumnReads(column: Option<string>, g: Guids.Uuid)
    requires column == Some(Guids.Simple(g)) || (column.None? && g == NullGuid())
    ensures ConvertStringResultToGuid(column) == Ok(g)
  {
    if column.Some? {
      SqliteStringRoundTrip(g);
    }
  }

  /** `retrieve_active_accounts`: neither hidden nor a placeholder, not of
      type ROOT, EXPENSE, EQUITY or INCOME, and not named "Expenses". */
  predicate IsActive(row: AccountRow)
  {
    row.hidden == 0 && row.placeholder == 0
    && row.account_type != "ROOT" && row.account_type != "EXPENSE"
    && row.account_type != "EQUITY" && row.account_type != "INCOME"
    && row.name != "Expenses"
  }

  /** `retrieve_all_accounts`: everything but the root and the template root. */
  predicate IsListed(row: AccountRow)
  {
    row.name != "Root Account" && row.name != "Template Root"
  }

  /** `retrieve_all_nonhidden_accounts`: listed and not hidden. The text
      `'0'` meets the INTEGER column `hidden` as the number 0. */
  predicate IsNonHidden(row: AccountRow)
  {
    row.name != "Root Account" && row.name != "Template Root" && row.hidden == 0
  }

  function ActiveTest(): AccountRow -> bool
  {
    (row: AccountRow) => IsActive(row)
  }

  function ListedTest(): AccountRow -> bool
  {
    (row: AccountRow) => IsListed(row)
  }

  function NonHiddenTest(): AccountRow -> bool
  {
    (row: AccountRow) => IsNonHidden(row)
  }

  /** `WHERE guid=@account_guid`. */
  function GuidTest(key: string): AccountRow -> bool
  {
    (row: AccountRow) => row.guid == key
  }

  /** What a retrieval answers: the selected rows read in table order. */
  function Retrieved(table: seq<AccountRow>, test: AccountRow -> bool): (r: Outcome<seq<Account>>)
    ensures r.Ok? ==> |r.value| == |Filter(table, test)|
  {
    Collect(Filter(table, test), AccountFromRow)
  }

  /** The loop every retrieval shares: step through the selected rows and
      push each account, returning the first failure. */
  method RetrieveWhere(table: seq<AccountRow>, test: AccountRow -> bool) returns (r: Outcome<seq<Account>>)
    ensures r == Retrieved(table, test)
  {
    var accounts: seq<Account> := [];
    var i := 0;
    while i < |table|
      invariant 0 <= i <= |table|
      invariant Collect(Filter(table[..i], test), AccountFromRow) == Ok(accounts)
    {
      var row := table[i];
      if test(row) {
        var account := AccountFromRow(row);
        if !account.Ok? {
          CollectFilteredStop(table, i, test, AccountFromRow);
          return Failure(account);
        }
        CollectFilteredStep(table, i, test, AccountFromRow, accounts);
        accounts := accounts + [account.value];
      } else {
        CollectFilteredStep(table, i, test, AccountFromRow, accounts);
      }
      i := i + 1;
    }
    assert table[..i] == table;
    return Ok(accounts);
  }

  method RetrieveActiveAccounts(table: seq<AccountRow>) returns (r: Outcome<seq<Account>>)
    ensures r == Retrieved(table, ActiveTest())
  {
    r := RetrieveWhere(table, ActiveTest());
  }

  method RetrieveAllNonhiddenAccounts(table: seq<AccountRow>) returns (r: Outcome<seq<Account>>)
    ensures r == Retrieved(table, NonHiddenTest())
  {
    r := RetrieveWhere(table, NonHiddenTest());
  }

  method RetrieveAllAccounts(table: seq<AccountRow>) returns (r: Outcome<seq<Account>>)
    ensures r == Retrieved(table, ListedTest())
  {
    r := RetrieveWhere(table, ListedTest());
  }

  /** `retrieve_by_guid`: the parameter is the GUID's sqlite string. */
  method RetrieveByGuid(table: seq<AccountRow>, g: Guids.Uuid) returns (r: Outcome<seq<Account>>)
    ensures r == Retrieved(table, GuidTest(Guids.Simple(g)))
  {
    // The `?` on the conversion never fires: it is always `Ok`.
    var key := LegacyGuids.ConvertGuidToSqliteString(g);
    r := RetrieveWhere(table, GuidTest(key.value));
  }

  /** Each retrieval selects exactly the rows its `WHERE` clause describes. */
  lemma SelectionsAreExact(table: seq<AccountRow>, g: Guids.Uuid)
    ensures forall row :: row in Filter(table, ActiveTest()) <==> row in table && IsActive(row)
    ensures forall row :: row in Filter(table, NonHiddenTest()) <==> row in table && IsNonHidden(row)
    ensures forall row :: row in Filter(table, ListedTest()) <==> row in table && IsListed(row)
    ensures forall row :: row in Filter(table, GuidTest(Guids.Simple(g))) <==> row in table && row.guid == Guids.Simple(g)
  {
    SelectedIff(table, ActiveTest());
    SelectedIff(table, NonHiddenTest());
    SelectedIff(table, ListedTest());
    SelectedIff(table, GuidTest(Guids.Simple(g)));
  }

  /** The non-hidden accounts are the non-hidden ones among all accounts, so
      whenever all accounts can be read, so can the non-hidden ones. */
  lemma NonHiddenWithinAll(table: seq<AccountRow>)
    ensures Filter(Filter(table, ListedTest()), NonHiddenTest()) == Filter(table, NonHiddenTest())
    ensures Retrieved(table, ListedTest()).Ok? ==> Retrieved(table, NonHiddenTest()).Ok?
  {
    FilterStronger(table, ListedTest(), NonHiddenTest());
    if Retrieved(table, ListedTest()).Ok? {
      CollectOfFiltered(Filter(table, ListedTest()), NonHiddenTest(), AccountFromRow);
    }
  }

  /** A retrieval succeeds iff every selected row reads, and then the k-th
      account is the reading of the k-th selected row; otherwise it is the
      failure of the first selected row that does not read. */
  lemma RetrievedReadsSelectedRows(table: seq<AccountRow>, test: AccountRow -> bool)
    ensures var rows := Filter(table, test);
      Retrieved(table, test).Ok? <==> forall k :: 0 <= k < |rows| ==> AccountFromRow(rows[k]).Ok?
    ensures var rows := Filter(table, test);
      Retrieved(table, test).Ok? ==>
        forall k :: 0 <= k < |rows| ==> AccountFromRow(rows[k]) == Ok(Retrieved(table, test).value[k])
    ensures var rows := Filter(table, test);
      !Retrieved(table, test).Ok? ==>
        exists k :: 0 <= k < |rows| && !AccountFromRow(rows[k]).Ok?
                    && (forall j :: 0 <= j < k ==> AccountFromRow(rows[j]).Ok?)
                    && Retrieved(table, test) == Failure(AccountFromRow(rows[k]))
  {
    var rows := Filter(table, test);
    assert Retrieved(table, test) == Collect(rows, AccountFromRow);
    CollectValues(rows, AccountFromRow);
  }

  /** Retrievals keep table order: the accounts of an earlier part of the
      table come before those of a later part. */
  lemma RetrievedKeepsOrder(a: seq<AccountRow>, b: seq<AccountRow>, test: AccountRow -> bool)
    requires Retrieved(a + b, test).Ok?
    ensures Retrieved(a, test).Ok? && Retrieved(b, test).Ok?
    ensures Retrieved(a + b, test).value == Retrieved(a, test).value + Retrieved(b, test).value
  {
    FilterConcat(a, b, test);
    CollectConcat(Filter(a, test), Filter(b, test), AccountFromRow);
  }
}
