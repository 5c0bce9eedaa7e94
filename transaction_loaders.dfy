/** The two loaders of `src/html/transactions_screen.rs` that put an
    account's register on the page: the guards they apply to the query
    results before the register and the editor are built. The queries
    themselves are not part of this model; their results are parameters. */
module TransactionLoaders {
  import opened Wrappers
  import opened Text
  import opened Guids
  import opened Register
  import opened TransactionEditor
  import AccountsTable

  /** The editor put under the register: the loaded account and the
      description suggestions. */
  datatype Editor = Editor(account: Uuid, suggestions: seq<string>)

  /** What a loader leaves on the page: an alert, or the register and the
      editor. */
  datatype Screen = Alerted(message: string) | Shown(register: RegisterView, editor: Editor)

  const RetrieveFailure: string := "Failed to retrieve transactions!"
  const NoTransactionsInYear: string :=
    "No transactions were found that matched your request. Perhaps they are more than a year old?"
  const NoDatabaseForView: string := "Please select a database in order to view the account by the given guid."
  const NoTransactions: string := "No transactions were found."

  /** The register and editor for a non-empty list of transactions. */
  function ShownScreen(txns: seq<TransactionWithSplitInformation>, account: Uuid): Screen
    requires txns != []
  {
    Shown(RegisterView(txns[0].excluded_account_name, RowsOf(txns)), Editor(account, Dedup(Descriptions(txns))))
  }

  /** `load_transactions_for_account_into_body_for_one_year_from_memory`,
      given what the past-year query returned: its `Err` is turned into a
      panic by `expect`, and a panic inside the query passes through. */
  function LoadForOneYear(account: Uuid, retrieved: Outcome<seq<TransactionWithSplitInformation>>): (r: Outcome<Screen>)
    ensures retrieved.Err? ==> r == Panic(RetrieveFailure)
    ensures retrieved.Panic? ==> r == Panic(retrieved.message)
    ensures retrieved.Ok? && retrieved.value == [] ==> r == Ok(Alerted(NoTransactionsInYear))
    ensures retrieved.Ok? && retrieved.value != [] ==>
      r.Ok? && r.value.Shown? && r.value.editor.account == account
      && r.value.register.rows == RowsOf(retrieved.value)
  {
    if retrieved.Err? then Panic(RetrieveFailure)
    else if retrieved.Panic? then Panic(retrieved.message)
    else if |retrieved.value| < 1 then Ok(Alerted(NoTransactionsInYear))
    else Ok(ShownScreen(retrieved.value, account))
  }

  /** How chrono prints the bound of the all-time query,
      9999-12-31 23:59:59.999. */
  const MaxDateText: string := "9999-12-31 23:59:59.999"

  /** The alert's text up to the first quoted value. */
  function CountMessagePrefix(count: nat): string
  {
    "Cannot continue! There were " + NatToString(count) + " accounts retrieved for guid '"
  }

  const AsOf: string := "', as of '"

  /** The alert for a count of accounts other than one, as written: the
      date fills the GUID's place and the GUID the date's. */
  function AccountCountMessageAsWritten(count: nat, guid: string): string
  {
    CountMessagePrefix(count) + (MaxDateText + (AsOf + (guid + "'.")))
  }

  /** The alert as intended: the GUID, then the date. */
  function AccountCountMessage(count: nat, guid: string): string
  {
    CountMessagePrefix(count) + (guid + (AsOf + (MaxDateText + "'.")))
  }

  /** The intended alert names the GUID in the place announced for it, and
      the date after "as of". */
  lemma AccountCountMessageNamesGuid(count: nat, guid: string)
    ensures var p := CountMessagePrefix(count);
      var m := AccountCountMessage(count, guid);
      && |m| == |p| + |guid| + |AsOf| + |MaxDateText| + 2
      && m[..|p|] == p && m[|p|..|p| + |guid|] == guid
      && m[|p| + |guid|..|p| + |guid| + |AsOf|] == AsOf
      && m[|p| + |guid| + |AsOf|..|m| - 2] == MaxDateText
  {
    var p := CountMessagePrefix(count);
    var m := AccountCountMessage(count, guid);
    assert m == p + guid + AsOf + MaxDateText + "'.";
  }

  /** As written, the alert names the date where the GUID belongs: it
      differs from the intended alert for every GUID text that does not
      start with '9'. */
  lemma AccountCountMessageAsWrittenMisplacesGuid(count: nat, guid: string)
    requires guid == [] || guid[0] != '9'
    ensures AccountCountMessageAsWritten(count, guid) != AccountCountMessage(count, guid)
  {
    var a := MaxDateText + (AsOf + (guid + "'."));
    var b := guid + (AsOf + (MaxDateText + "'."));
    assert a[0] == '9';
    assert b[0] == (if guid == [] then '\'' else guid[0]);
    DifferAfter(CountMessagePrefix(count), a, b);
  }

  lemma DifferAfter(p: string, a: string, b: string)
    requires a != [] && b != [] && a[0] != b[0]
    ensures p + a != p + b
  {
    assert (p + a)[|p|] == a[0] && (p + b)[|p|] == b[0];
  }

  /** What a statement's stepping loop leaves: the rows it read, or the
      panic of the `unwrap` or `expect` that stopped it on a row. */
  datatype Read<T> = Rows(rows: seq<T>) | Failed(message: string)

  /** The all-time loader with the alert it gives for a count of accounts
      other than one. */
  function AllTimeScreen(loaded: bool, accounts: Read<AccountsTable.Account>,
                         txns: Read<TransactionWithSplitInformation>, countAlert: string): Outcome<Screen>
  {
    if !loaded then Ok(Alerted(NoDatabaseForView))
    else if accounts.Failed? then Panic(accounts.message)
    else if |accounts.rows| != 1 then Ok(Alerted(countAlert))
    else if txns.Failed? then Panic(txns.message)
    else if |txns.rows| < 1 then Ok(Alerted(NoTransactions))
    else Ok(ShownScreen(txns.rows, accounts.rows[0].guid))
  }

  /** `load_transactions_for_account_into_body_for_all_time` as written,
      given whether a database is loaded, the GUID text, and what reading
      the account query and then the transaction query gave. A count of
      accounts other than one is alerted with the date and the GUID in
      each other's places. */
  function LoadForAllTime(loaded: bool, guid: string, accounts: Read<AccountsTable.Account>,
                          txns: Read<TransactionWithSplitInformation>): (r: Outcome<Screen>)
    ensures !loaded ==> r == Ok(Alerted(NoDatabaseForView))
    ensures loaded && accounts.Failed? ==> r == Panic(accounts.message)
    ensures loaded && accounts.Rows? && |accounts.rows| != 1 ==>
      r == Ok(Alerted(AccountCountMessageAsWritten(|accounts.rows|, guid)))
    ensures loaded && accounts.Rows? && |accounts.rows| == 1 && txns.Failed? ==> r == Panic(txns.message)
    ensures loaded && accounts.Rows? && |accounts.rows| == 1 && txns == Rows([]) ==> r == Ok(Alerted(NoTransactions))
    ensures r.Ok? && r.value.Shown? <==>
      loaded && accounts.Rows? && |accounts.rows| == 1 && txns.Rows? && txns.rows != []
    ensures r.Ok? && r.value.Shown? ==>
      r.value.editor.account == accounts.rows[0].guid && r.value.register.rows == RowsOf(txns.rows)
  {
    AllTimeScreen(loaded, accounts, txns, if accounts.Rows? then AccountCountMessageAsWritten(|accounts.rows|, guid) else "")
  }

  /** The all-time loader as intended: the count alert names the GUID,
      then the date; everything else is as written. */
  function LoadForAllTimeIntended(loaded: bool, guid: string, accounts: Read<AccountsTable.Account>,
                                  txns: Read<TransactionWithSplitInformation>): (r: Outcome<Screen>)
    ensures loaded && accounts.Rows? && |accounts.rows| != 1 ==>
      r == Ok(Alerted(AccountCountMessage(|accounts.rows|, guid)))
    ensures !(loaded && accounts.Rows? && |accounts.rows| != 1) ==> r == LoadForAllTime(loaded, guid, accounts, txns)
  {
    AllTimeScreen(loaded, accounts, txns, if accounts.Rows? then AccountCountMessage(|accounts.rows|, guid) else "")
  }

  /** As written, the all-time loader's count alert differs from the
      intended one for every GUID text that does not start with '9'. */
  lemma LoadForAllTimeMisplacesGuid(loaded: bool, guid: string, accounts: Read<AccountsTable.Account>,
                                    txns: Read<TransactionWithSplitInformation>)
    requires loaded && accounts.Rows? && |accounts.rows| != 1
    requires guid == [] || guid[0] != '9'
    ensures LoadForAllTime(loaded, guid, accounts, txns) != LoadForAllTimeIntended(loaded, guid, accounts, txns)
  {
    AccountCountMessageAsWrittenMisplacesGuid(|accounts.rows|, guid);
  }

  /** On the shown register, row k shows transaction k's amount and the
      balance after rows 0 to k, and the header names the account of the
      first transaction; the editor suggests each description once. */
  lemma ShownScreenRows(txns: seq<TransactionWithSplitInformation>, account: Uuid, k: int)
    requires 0 <= k < |txns|
    ensures var s := ShownScreen(txns, account);
      && s.register.accountName == txns[0].excluded_account_name
      && |s.register.rows| == |txns|
      && s.register.rows[k].change == AmountOf(txns[k])
      && s.register.rows[k].balance == BalanceAfter(txns[..k + 1])
      && (forall x :: x in s.editor.suggestions <==> x in Descriptions(txns))
  {
    RowsOfIndex(txns, k);
  }
}
