# rust_money_manager in Dafny

rust_money_manager is a browser money manager for GnuCash SQLite books. It is
written in Rust, compiled to WebAssembly, and runs over sql.js. This project
models the logic at its core and proves properties of that model:

- the GUID and date codecs, in both the current helper module and the legacy one;
- the check that an opened file is an SQLite database;
- the accounts table: saving an account as delete-then-insert, with the field
  encodings for type, flags, commodity and parent, and the lookup of the
  top-level account of a type;
- the legacy account retrievals and their row filters;
- the slots table and the "display transactions older than one year" setting
  stored in it;
- the transaction register: amounts, the running balance, and the increase
  and decrease columns;
- the rules of the transaction editor: amount sanitising, the post date, the
  description suggestions, the category options, and the two option-selection
  loops;
- the rules of the account editor: type options, the record it saves, the
  default and merged record it shows, and which options are marked SELECTED;
- the two exports of `lib.rs`, `reverse` and `add`.

Each source module becomes a Dafny module:

| module | models |
|---|---|
| `Wrappers`, `Text`, `Seqs` | Option and Outcome (`Ok`, `Err`, `Panic`), ASCII text helpers, and filters and row readers over sequences |
| `Guids`, `LegacyGuids` | `src/utility/database_helper_utility.rs` and `src/database_helper_utility.rs`, GUID part |
| `DateTimes` | the `%Y%m%d%H%M%S` date format of both helper modules |
| `DatabaseFile` | `valid_database` |
| `Database` | the global `DATABASE` of sql.js, as a class holding the accounts, commodities and slots tables |
| `AccountsTable`, `LegacyAccounts` | `src/database_tables/accounts_manager.rs` and `src/accounts_manager.rs` |
| `SlotsTable`, `Settings` | `src/database_tables/slots_manager.rs` and `src/html/settings_screen.rs` |
| `Register`, `TransactionEditor`, `TransactionLoaders` | `src/html/transactions_screen.rs` |
| `AccountEditor` | `src/html/accounts_screen.rs` |
| `WasmExports` | `src/lib.rs` |

Modelling conventions:

- A Rust panic (`unwrap`, `expect`, `panic!`, an index out of bounds) is the
  outcome `Panic(message)`. It is not a precondition, so every input the
  source accepts is accepted here.
- A GUID is 16 bytes.
  - The uuid crate prints it lower-case and hyphenated.
  - Its "sqlite string" is the 32 lower-case hex digits without dashes.
- Tables are sequences of rows in rowid order. A DELETE is a filter. An
  INSERT appends a row.
- An f64 amount is an exact real, extended with the two infinities and NaN
  that an f64 division by zero produces. Rounding is not modelled.
- A `u32` sum wraps modulo 2^32, as in a release build.
- Whatever comes from outside the core is a parameter:
  - the current time;
  - `Uuid::new_v4()`;
  - the rows a query returns, where the query is not modelled;
  - the values of the form fields.

## Model

| member | source | states |
|---|---|---|
| `DatabaseFile.ValidDatabase` | src/utility/database_helper_utility.rs:55-77 | A file shorter than 16 bytes is refused with the message that gives its length. Otherwise the file passes iff its first 13 bytes, ASCII-upper-cased, spell "SQLITE FORMAT". The loop builds the descriptor one byte at a time. |
| `DatabaseFile.MagicAccepted` | src/utility/database_helper_utility.rs:65-76 | Every file starting with the 16-byte SQLite 3 magic header passes. |
| `DatabaseFile.VerdictOnlyReadsHeaderWord` | src/utility/database_helper_utility.rs:65-76 | Two files of at least 16 bytes whose first 13 bytes agree up to letter case get the same verdict. Byte 15 and later bytes are never read. |
| `DatabaseFile.WrongFirstByteRefused` | src/utility/database_helper_utility.rs:71-74 | A file whose first byte is not 's' or 'S' gets the bad-header error. |
| `Guids.ConvertStringToGuid` | src/utility/database_helper_utility.rs:80-97 | A 32-character input gets dashes after characters 8, 12, 16 and 20 before parsing. An input of any other length is parsed unchanged. A success is what uuid parsing gives, and a failure is an `Err`. |
| `Guids.SqliteStringIsSimple` | src/utility/database_helper_utility.rs:125-133 | The sqlite string of a GUID has 32 lower-case hex digits and no dash. |
| `Guids.SqliteStringRoundTrip` | src/utility/database_helper_utility.rs:80-133 | Parsing the sqlite string of `g` gives back `Ok(g)`. |
| `Guids.HyphenatedRoundTrip` | src/utility/database_helper_utility.rs:80-97 | The hyphenated text of `g` parses back to `Ok(g)`. |
| `Guids.ParseHexOfHex` | src/utility/database_helper_utility.rs:125-133 | Hex decoding inverts hex encoding. |
| `Guids.InsertDashes` | src/utility/database_helper_utility.rs:83-90 | Inserting the dashes turns 32 characters into 36. |
| `LegacyGuids.NullGuid` | src/database_helper_utility.rs:11-13 | The null GUID is what the all-zero hyphenated text parses to, and all 16 of its bytes are 0. |
| `LegacyGuids.NullGuidParses` | src/database_helper_utility.rs:11-13 | The text of `_null_guid` parses to the nil UUID. |
| `LegacyGuids.ConvertStringToGuid` | src/database_helper_utility.rs:17-34 | The legacy conversion never returns `Err`. A 32-character input gets its dashes first, and a parse failure panics. |
| `LegacyGuids.ConvertStringResultToGuid` | src/database_helper_utility.rs:37-58 | A NULL column gives the null GUID. A present column converts exactly as `convert_string_to_guid` does. |
| `LegacyGuids.ConvertGuidToSqliteString` | src/database_helper_utility.rs:62-71 | Always `Ok` of the 32-digit lower-case dashless form. |
| `LegacyGuids.ConvertGuidToSqliteParameter` | src/database_helper_utility.rs:75-83 | `None` iff the GUID is the null GUID. Otherwise `Some` of its 32-character dashless form. |
| `LegacyGuids.SqliteStringRoundTrip` | src/database_helper_utility.rs:37-71 | Reading back the sqlite string of `g` gives `Ok(g)`. |
| `LegacyGuids.ParameterRoundTrip` | src/database_helper_utility.rs:37-83 | Reading back the parameter of `g`, NULL included, gives `Ok(g)`. |
| `DateTimes.ConvertDateToStringFormat` | src/utility/database_helper_utility.rs:150-156 | For years 0 to 9999 the text is 14 digits. Other years get a sign and at least 15 characters. The legacy copy is src/database_helper_utility.rs:87-93. |
| `DateTimes.ConvertStringToDateFormat` | src/utility/database_helper_utility.rs:160-174 | Returns true and the parsed date iff the text parses. Otherwise it returns false and 0000-01-01 00:00:00. The legacy copy is src/database_helper_utility.rs:97-111. |
| `DateTimes.ConvertStringToDate` | src/utility/database_helper_utility.rs:178-187 | `Ok` of the parsed date iff the text parses. Otherwise `Err` with the message naming the input. It never panics. |
| `DateTimes.ParseFormatRoundTrip` | src/utility/database_helper_utility.rs:150-174 | For years 0 to 9999, parsing the formatted date with `FORMAT_STRING` gives the date back. |
| `DateTimes.ConvertRoundTrip` | src/utility/database_helper_utility.rs:150-187 | For years 0 to 9999, `convert_string_to_date` of the formatted date is `Ok` of the date. |
| `DateTimes.SignedYearDoesNotParse` | src/utility/database_helper_utility.rs:150-174 | A date outside years 0 to 9999 formats to text that does not parse back. |
| `DateTimes.ParseFourteenDigits` | src/utility/database_helper_utility.rs:51 | Fourteen digits parse iff they name a valid calendar date and time. The date is then read from digit groups 4-2-2-2-2-2. |
| `DateTimes.NullDateRoundTrip` | src/utility/database_helper_utility.rs:167-171 | The year-0 fallback formats as "00000101000000" and parses back. |
| `DateTimes.FixedOfDigits` | src/utility/database_helper_utility.rs:150-156 | Zero-padding a digit string's value to its own width gives the string back. |
| `AccountsTable.ParseTypeName` | src/database_tables/accounts_manager.rs:15-39 | Parsing a type name gives the type that displays as it. A name that is no type's display text gives `None`. |
| `AccountsTable.TypeNameInjective` | src/database_tables/accounts_manager.rs:35-39 | Distinct account types display differently. |
| `AccountsTable.ParseTypeNameOfName` | src/database_tables/accounts_manager.rs:35-39 | Every type's display text parses back to that type. |
| `AccountsTable.ParseBool` | src/database_tables/accounts_manager.rs:28-33 | Only 0 and 1 read as a `Bool`, and they encode back to themselves. |
| `AccountsTable.FractionOf` | src/database_tables/accounts_manager.rs:123-130 | The fraction found for a commodity GUID is that of the first commodity row with that GUID. It is absent iff there is no such row. |
| `AccountsTable.EncodeAccountFields` | src/database_tables/accounts_manager.rs:104-167 | The stored row holds the account's fields under these encodings: <br>- the type is stored as its display name; <br>- a flag is stored as 1 iff it is `True`; <br>- no commodity is stored as NULL with scu 0, and a commodity as its GUID with that commodity's fraction; <br>- a `None` or nil parent is stored as NULL. |
| `AccountsTable.SaveNewAndDeleteCurrent` | src/database_tables/accounts_manager.rs:91-175 | With no database, `Err` and nothing changes. Otherwise `Ok(true)`. The rows with the account's GUID are deleted and its encoded row is appended. No other table changes. |
| `AccountsTable.SaveLeavesOneRow` | src/database_tables/accounts_manager.rs:104-167 | After the save exactly one row carries the account's GUID, and it is the encoded account. |
| `AccountsTable.SaveKeepsOtherRows` | src/database_tables/accounts_manager.rs:104-109 | Rows with any other GUID are the same before and after the save. |
| `AccountsTable.SaveIdempotent` | src/database_tables/accounts_manager.rs:104-167 | Saving the same account twice gives the table that saving it once gives. |
| `AccountsTable.AccountFromRow` | src/database_tables/accounts_manager.rs:12-40 | A row read as an `Account` has the row's GUID and type name, and no tags. |
| `AccountsTable.SavedRowReadsBack` | src/database_tables/accounts_manager.rs:104-167 | The saved row reads back as the account. The scu is the commodity's fraction (0 without a commodity), and a nil parent reads back as `None`. |
| `AccountsTable.AccountForTypeIsFirstMatch` | src/database_tables/accounts_manager.rs:185-218 | The lookup gives the first row of the given type whose parent is the parentless "Root Account" or an account named "Liabilities". With no such row it gives `Err`. |
| `AccountsTable.UnreadableMatchPanics` | src/database_tables/accounts_manager.rs:203-210 | A matching row that does not deserialise makes the lookup panic in `unwrap`. |
| `AccountsTable.RetrieveAccountForAccountType` | src/database_tables/accounts_manager.rs:178-221 | The stepping loop computes the lookup, and panics when no database is loaded. |
| `LegacyAccounts.ConvertToAccountType` | src/accounts_manager.rs:21-37 | Each of the ten variant names maps to its variant. Any other text panics with the message naming it. A NULL column panics in `unwrap`. |
| `LegacyAccounts.ConvertToAccountTypeOfName` | src/accounts_manager.rs:21-37 | Every variant's name converts back to the variant. |
| `LegacyAccounts.WellFormedRowReads` | src/accounts_manager.rs:76-91 | A row with GUID columns in sqlite form, or NULL, a known type and present text columns reads as the account they spell. |
| `LegacyAccounts.RetrieveWhere` | src/accounts_manager.rs:76-100 | The stepping loop reads the selected rows in table order, and stops at the first row that fails to read. |
| `LegacyAccounts.RetrieveActiveAccounts` | src/accounts_manager.rs:64-101 | Reads the rows with hidden 0 and placeholder 0, a type other than ROOT, EXPENSE, EQUITY or INCOME, and a name other than "Expenses". |
| `LegacyAccounts.RetrieveAllNonhiddenAccounts` | src/accounts_manager.rs:104-139 | Reads the rows not named "Root Account" or "Template Root" whose hidden is 0. |
| `LegacyAccounts.RetrieveAllAccounts` | src/accounts_manager.rs:142-177 | Reads the rows not named "Root Account" or "Template Root". |
| `LegacyAccounts.RetrieveByGuid` | src/accounts_manager.rs:237-274 | Reads the rows whose guid column equals the GUID's sqlite string. |
| `LegacyAccounts.SelectionsAreExact` | src/accounts_manager.rs:68-250 | Each of the four filters keeps exactly the rows of the table that satisfy its WHERE clause. |
| `LegacyAccounts.NonHiddenWithinAll` | src/accounts_manager.rs:108-148 | The non-hidden accounts are the unhidden ones among all accounts. When all accounts read, so do the non-hidden ones. |
| `LegacyAccounts.RetrievedReadsSelectedRows` | src/accounts_manager.rs:76-98 | A successful retrieval holds, at each position, the reading of the selected row at that position. |
| `LegacyAccounts.RetrievedKeepsOrder` | src/accounts_manager.rs:96-98 | Retrieving from two concatenated tables concatenates the two results, so table order is kept. |
| `SlotsTable.NextId` | src/database_tables/slots_manager.rs:71 | An AUTOINCREMENT id is above every id handed out so far and above every remaining row. |
| `SlotsTable.SaveSlotForNameAndStringValAndInt64Val` | src/database_tables/slots_manager.rs:46-105 | With no database, `Err` and nothing changes. Otherwise `Ok(true)`. Every slot with the same (name, string_val) is deleted, and one fresh slot is appended. The other tables are unchanged, and the id sequence stays above every id. |
| `SlotsTable.SaveLeavesOneSlot` | src/database_tables/slots_manager.rs:60-99 | After the save exactly one slot has the key. It has the given int64 value, slot type 0, a fresh obj_guid, and NULL double, timespec, guid, numeric and gdate values. |
| `SlotsTable.SaveKeepsOtherKeys` | src/database_tables/slots_manager.rs:60-67 | Slots that differ in name or string_val are the same before and after the save. |
| `SlotsTable.SaveTwiceIsSaveOnce` | src/database_tables/slots_manager.rs:60-99 | Saving the same triple twice gives what saving it once gives, apart from the id and obj_guid. |
| `SlotsTable.SlotFromRow` | src/database_tables/slots_manager.rs:21-35 | A row deserialises into a `Slot` iff its obj_guid parses and its int64 and string values are present. The slot then holds those columns. |
| `SlotsTable.LoadSlotsForNameAndStringVal` | src/database_tables/slots_manager.rs:108-141 | With no database, `Err`. Otherwise the slots with the key are read in table order, and an unreadable row panics in `unwrap`. |
| `SlotsTable.LoadAfterSave` | src/database_tables/slots_manager.rs:46-141 | Loading the key just saved gives exactly one slot, holding the saved int64 value. |
| `Settings.SettingValue` | src/html/settings_screen.rs:20 | The stored value is 1 iff the box is checked, and 0 iff it is not. |
| `Settings.SaveSettingForDisplayTransactionsOlderThanOneYear` | src/html/settings_screen.rs:11-33 | Saves the slot with name "settings" and string_val "display_transactions_older_than_one_year" holding the checkbox value. The alert says whether it was saved. |
| `Settings.LoadSettingsIntoBody` | src/html/settings_screen.rs:122-139 | The loop leaves the box as the scan of the slots from "unchecked" says, and alerts on an invalid slot. |
| `Settings.ScanIgnoresOtherSlots` | src/html/settings_screen.rs:122-126 | Dropping the slots for other settings does not change the outcome. |
| `Settings.ScanWithoutSetting` | src/html/settings_screen.rs:98-107 | With no slot for the setting the box keeps its state, unchecked on a fresh page, and nothing is alerted. |
| `Settings.ScanAfterValid` | src/html/settings_screen.rs:122-139 | After a run of valid slots the scan goes on from the state they leave. |
| `Settings.ScanLastValidWins` | src/html/settings_screen.rs:127-130 | When every matching slot is valid, the last one decides the box, whatever the slots for other settings hold. |
| `Settings.ScanStopsAtInvalid` | src/html/settings_screen.rs:131-137 | A matching slot with a value other than 0 and 1 alerts and stops the scan. Later slots are not looked at. |
| `Settings.SettingRoundTrip` | src/html/settings_screen.rs:17-21 | Loading the settings after saving the state `c` shows `c`. |
| `Register.Amount` | src/html/transactions_screen.rs:312 | A row's amount is `-(value_num / value_denom)`. A zero denominator gives an infinity, or NaN for 0/0. |
| `Register.Add` | src/html/transactions_screen.rs:330 | f64 addition: finite values add as reals, and NaN is absorbing. |
| `Register.AddCommutes` | src/html/transactions_screen.rs:330 | The balance step is commutative. |
| `Register.ShownPostDate` | src/html/transactions_screen.rs:236-241 | The shown date is the parsed post date, or 0000-01-01 00:00:00 when it does not parse. |
| `Register.RowOf` | src/html/transactions_screen.rs:291-361 | An amount at or above 0 fills the increase column, and any other amount fills the decrease column. The other column stays at its "0.00" default. The row shows the amount and the given balance, and has a memo link iff the memo is not empty. |
| `Register.RowsOfIndex` | src/html/transactions_screen.rs:330-338 | Row k shows transaction k with the balance after rows 0 to k. |
| `Register.LoadTransactionsIntoBody` | src/html/transactions_screen.rs:39-365 | An empty list panics on the header's index. Otherwise the header names the first row's account. The loop, starting from a balance of 0, lays out one row per transaction. |
| `Register.FiniteBalance` | src/html/transactions_screen.rs:137-333 | With nonzero denominators the balance is finite and equal to the sum of the negated ratios. |
| `Register.BalanceSteps` | src/html/transactions_screen.rs:330 | Each row's balance is the previous row's balance plus the row's amount, starting from 0. |
| `Register.NaNPersists` | src/html/transactions_screen.rs:330 | Once the balance is NaN, every later balance is NaN. |
| `TransactionLoaders.LoadForOneYear` | src/html/transactions_screen.rs:1051-1081 | An `Err` from the retrieval panics in `expect` with its message. A panic inside the retrieval passes through with its own message. An empty year alerts. Otherwise the register and editor for the rows are shown. |
| `TransactionLoaders.LoadForAllTime` | src/html/transactions_screen.rs:1085-1203 | No database: an alert. A panic while reading the account rows or the transaction rows passes through. A GUID that matches other than one account: the count alert as written, with the date and the GUID swapped. No transactions: an alert. Otherwise the register of the rows and the editor for the one account. |
| `TransactionLoaders.LoadForAllTimeIntended` | src/html/transactions_screen.rs:1138-1146 | The corrected loader alerts a count other than one with the GUID, then the date. In every other case it does what the loader as written does. |
| `TransactionLoaders.LoadForAllTimeMisplacesGuid` | src/html/transactions_screen.rs:1139-1144 | For a count other than one and a GUID not starting with '9', the loader as written gives a different alert from the corrected one. |
| `TransactionLoaders.ShownScreenRows` | src/html/transactions_screen.rs:1186-1190 | On the shown register, row k shows transaction k's amount and the balance after rows 0 to k. |
| `TransactionLoaders.AccountCountMessageNamesGuid` | src/html/transactions_screen.rs:1138-1146 | The corrected count alert puts the GUID in the place announced for it. |
| `TransactionLoaders.AccountCountMessageAsWrittenMisplacesGuid` | src/html/transactions_screen.rs:1139-1144 | The count alert as written differs from the intended one: it shows the date where the GUID belongs. |
| `TransactionEditor.SanitizeChangeInput` | src/html/transactions_screen.rs:641-644 | The four rewrites leave no ' ', '$' or ',' in the amount text, and no whitespace at either end. Every character left was in the input. |
| `TransactionEditor.SanitizeIdempotent` | src/html/transactions_screen.rs:641-644 | Sanitising twice is sanitising once. |
| `TransactionEditor.SanitizeKeepsClean` | src/html/transactions_screen.rs:641-644 | A clean amount text is left unchanged. |
| `TransactionEditor.PostDateText` | src/html/transactions_screen.rs:614-616 | The post-date text is the date input without '-', followed by the time input without '-' and ':'. It contains no '-'. |
| `TransactionEditor.EnteredPostDate` | src/html/transactions_screen.rs:614-633 | A text that does not parse alerts and gives no date. A date whose year is below 1 is refused with the year alert. Otherwise the parsed date is used with no alert. |
| `TransactionEditor.EnteredPostDateOfInputs` | src/html/transactions_screen.rs:794-825 | The date and time inputs the editor fills in for a date in years 1 to 9999 give back exactly that date. |
| `TransactionEditor.Dedup` | src/html/transactions_screen.rs:863-868 | The suggestions contain exactly the descriptions that occur. |
| `TransactionEditor.DescriptionSuggestions` | src/html/transactions_screen.rs:863-868 | The push-unless-contained loop yields the first-occurrence deduplication of the descriptions. |
| `TransactionEditor.DedupDistinct` | src/html/transactions_screen.rs:863-868 | No suggestion appears twice. |
| `TransactionEditor.DedupFirstOccurrenceOrder` | src/html/transactions_screen.rs:863-868 | The suggestions are in the order of the descriptions' first occurrences. |
| `TransactionEditor.SortByNamePermutes` | src/html/transactions_screen.rs:897 | Sorting by name rearranges the accounts: the same accounts, each as often. |
| `TransactionEditor.SortByNameSorted` | src/html/transactions_screen.rs:897 | Sorting puts the names in ascending order. |
| `TransactionEditor.FilterSortedByName` | src/html/transactions_screen.rs:898-909 | Skipping accounts of a sorted list keeps it sorted. |
| `TransactionEditor.BuildCategoryOptions` | src/html/transactions_screen.rs:888-910 | The loop creates one option per sorted account other than the loaded one. |
| `TransactionEditor.CategoryOptionsAscending` | src/html/transactions_screen.rs:895-910 | The category options are in ascending order of their names. |
| `TransactionEditor.CategoryOptionsExcludeCurrent` | src/html/transactions_screen.rs:895-910 | No option is the loaded account, and no option object appears twice. |
| `TransactionEditor.CategoryOptionsComplete` | src/html/transactions_screen.rs:895-910 | Every account other than the loaded one has an option with its GUID and name. |
| `TransactionEditor.LoopBound` | src/html/transactions_screen.rs:678 | `options.length() - 1` is `len - 1` in u32, and wraps to 4294967295 when there is no option. |
| `TransactionEditor.OptionCategory` | src/html/transactions_screen.rs:680-690 | The selected option's category is its GUID and text. A value that is not a GUID panics. |
| `TransactionEditor.SelectCategory` | src/html/transactions_screen.rs:678-693 | The loop gives the category that the loop as written selects. |
| `TransactionEditor.SelectedCategory` | src/html/transactions_screen.rs:678-693 | The intended selection is the selected option's category, or no category when nothing is selected. |
| `TransactionEditor.SelectedCategoryOfShownOption` | src/html/transactions_screen.rs:895-910 | Selecting option k of the editor's list gives the k-th shown account's GUID and name. |
| `TransactionEditor.SelectedCategoryAsWrittenAgrees` | src/html/transactions_screen.rs:678-693 | For every selection but the last option, the loop as written agrees with the intended selection. |
| `TransactionEditor.SelectedCategoryAsWrittenMissesLast` | src/html/transactions_screen.rs:678-693 | As written, selecting the last option gives no category, nil GUID and empty name. |
| `TransactionEditor.SelectCategoryOfOnlyOption` | src/html/transactions_screen.rs:678-693 | With a single option selected, the loop as written gives no category, and the intended selection gives that option's account. |
| `TransactionEditor.FindOption` | src/html/transactions_screen.rs:1034-1046 | A found index lies in the scanned range and never fails with `Err`. |
| `TransactionEditor.LoadLastTransactionForAccount` | src/html/transactions_screen.rs:996-1049 | The loop gives the prefill of the function as written. |
| `TransactionEditor.LastTransactionPrefill` | src/html/transactions_screen.rs:996-1049 | An account GUID that does not parse panics. A lookup that finds other than one transaction fills nothing in. One transaction fills in its amount. |
| `TransactionEditor.FindOptionFinds` | src/html/transactions_screen.rs:1034-1046 | The scan picks the first option whose value is the GUID. |
| `TransactionEditor.LastTransactionPrefillSelects` | src/html/transactions_screen.rs:1034-1046 | With the intended scan, the found transaction's category option is selected. |
| `TransactionEditor.LastTransactionPrefillAsWrittenSkipsLast` | src/html/transactions_screen.rs:1034-1046 | As written, the last option is never selected. |
| `TransactionEditor.LastTransactionOfOnlyOption` | src/html/transactions_screen.rs:1034-1046 | When the only option is the transaction's category, nothing is selected as written, and it is selected as intended. |
| `AccountEditor.OptionToAccountType` | src/html/accounts_screen.rs:241-254 | An option maps to a type iff it is the name of a type other than ROOT. Any other value, "ROOT" included, panics with the "not valid" message. |
| `AccountEditor.OptionOfTypeName` | src/html/accounts_screen.rs:241-254 | Each of the nine editor types' names maps to that type. "ROOT" panics. |
| `AccountEditor.FlagOf` | src/html/accounts_screen.rs:309-325 | A flag is `True` iff its box is checked. |
| `AccountEditor.AccountToSave` | src/html/accounts_screen.rs:222-325 | A bad type option panics. A bad commodity value then panics in `expect`, and a failed parent lookup panics in `unwrap`. Otherwise the record carries the form's fields, scu 100 and non-standard scu -1, the parent found for the type, flags that follow their boxes, and no tags. |
| `AccountEditor.SaveAlert` | src/html/accounts_screen.rs:343-350 | The alert is "Success!" iff the save succeeded. Otherwise the error message can be read back from between the alert's quotes. |
| `AccountEditor.SaveAccountWithGuid` | src/html/accounts_screen.rs:222-351 | A record that cannot be built panics and changes nothing. Otherwise the accounts table becomes the table after saving that record. The other tables are unchanged. |
| `AccountEditor.SavedRowHoldsForm` | src/html/accounts_screen.rs:281-325 | The one stored row for the GUID holds the form's name, type, code and description, with 1 or 0 for each checkbox. |
| `AccountEditor.LoadEditorAccount` | src/html/accounts_screen.rs:356-394 | No stored account: the defaults, with empty strings, ASSET, nil commodity and parent, and both flags `False`. A stored account: all its fields, with the requested GUID. A panic passes through. |
| `AccountEditor.TypeMarks` | src/html/accounts_screen.rs:419-463 | One mark per editor type. A type's mark is SELECTED iff it is the account's type. |
| `AccountEditor.TypeMarksSelectOne` | src/html/accounts_screen.rs:419-463 | Exactly one type option is SELECTED when the type is not ROOT, the one at that type's position. None is SELECTED for ROOT. |
| `AccountEditor.MarkedTypeSavesBack` | src/html/accounts_screen.rs:241-463 | The SELECTED type option, saved back, gives the account's type. |
| `AccountEditor.CommodityHtml` | src/html/accounts_screen.rs:538-567 | The loop builds the select's preamble, then one option per commodity in order, then the closing tags. |
| `AccountEditor.CommoditySelectedIff` | src/html/accounts_screen.rs:549-564 | A commodity option is marked SELECTED iff the account's commodity GUID is present and equal to that commodity's GUID. |
| `AccountEditor.AtMostOneCommoditySelected` | src/html/accounts_screen.rs:549-564 | When the commodity GUIDs are distinct, at most one option is SELECTED. |
| `AccountEditor.Checkboxes` | src/html/accounts_screen.rs:570-612 | Saving the boxes as shown gives back the account's hidden and placeholder flags. |
| `AccountEditor.UnchangedFormSavesAccount` | src/html/accounts_screen.rs:222-612 | Saving the editor without changes gives back the loaded account. Only the GUID, the two scu values, the parent and the tags are replaced. |
| `WasmExports.Reverse` | src/lib.rs:132-134 | `reverse` keeps the length, and character i of the result is character n-1-i of the input. |
| `WasmExports.ReverseInvolution` | src/lib.rs:132-134 | Reversing twice gives the string back. |
| `WasmExports.ReverseEmpty` | src/lib.rs:132-134 | The empty string is its own reverse. |
| `WasmExports.Add` | src/lib.rs:137-139 | A sum that fits in u32 is ordinary addition. A sum that does not fit wraps around to its excess over 2^32. |
| `WasmExports.AddCommutes` | src/lib.rs:137-139 | The order of the operands does not matter. |
| `WasmExports.AddAssociates` | src/lib.rs:137-139 | Wrapping addition is associative. |

## Left out

- DOM building, styles, closures, event wiring, scrolling and loading
  messages are UI, not logic. The alerts the core raises are kept as values.
- The "Let's save …" alert of `save_account_with_guid`
  (src/html/accounts_screen.rs:327-342) and the `js::log` calls are output
  only, so they are left out.
- The sql.js engine, the mutex around `DATABASE`, and the SQL text of
  queries:
  - `retrieve_account_for_guid`;
  - the one-year and all-time transaction queries;
  - `load_account_with_balance_for_guid`, the account query of the
    all-time loader;
  - `retrieve_transaction_with_split_information_for_account_guid_and_description`,
    the prefill lookup;
  - the commodity and category retrievals;
  - `load_slots_for_name_and_string_val`
    (src/database_tables/slots_manager.rs:115).

  Their results are parameters. The WHERE clauses shown in the source are
  modelled as row filters. The SQL of `load_slots_for_name_and_string_val`
  is not shown: `SlotsTable.LoadSlotsForNameAndStringVal` assumes it selects
  the rows whose name and string_val equal the bound values, in table order.
  `SlotsTable.LoadAfterSave` and `Settings.SettingRoundTrip` rest on that
  assumption.
- `LegacyAccounts.RetrieveWhere`: the `?` errors of `Connection::open` and
  `conn.prepare` (src/accounts_manager.rs:66-73 and the same lines of the
  other retrievals) are not modelled; the model starts from the opened
  book's table.
- `TransactionLoaders.LoadForAllTime`: the failure of
  `append_child(...).expect("Failed to setup transaction editor!")`
  (src/html/transactions_screen.rs:1191-1193) is a DOM failure and is left
  out, as it is in `TransactionLoaders.LoadForOneYear`. The panics of the
  row reads (lines 1113-1119 and 1171) are given as the `Failed` outcome of
  reading, without their messages. The mutex and binding `unwrap`s (lines
  1088, 1103, 1105, 1154 and 1162) are not modelled.
- File reading, the new-database download, CSV and base64 export, the
  desktop sciter UI, `greet` and `wireup_controls` are I/O or a foreign UI.
- f64 rounding, f64 text parsing and `format_money`:
  - amounts are exact reals;
  - the amount-parse check of `enter_transaction_on_click`
    (src/html/transactions_screen.rs:646-657) and
    `value_num = round(amount * fraction)` (line 671) are left out;
  - the printed `{:2}` width is left out.
- `sanitize_string` is not shown in the source and is taken as the identity.
- `null_date` is not shown in the source. It is taken to be 0000-01-01
  00:00:00, the value its callers print.
- `Uuid::new_v4()` and the clock are parameters.
- The error texts of the uuid crate and of rusqlite are not modelled:
  - a failed GUID parse gives one fixed message;
  - `expect(msg)` gives `msg` without the error appended to it.
- The tags of an account are always the empty map. The balance and mnemonic
  parsing that would fill them is not part of the core.
- `DateTimes.ConvertStringToDateFormat`: chrono's `%Y%m%d%H%M%S` parsing is
  modelled as:
  - white space skipped, then a year of one to four digits, or a sign
    followed by any number of digits;
  - then five fields, each with white space skipped and then one or two
    digits;
  - then nothing left over, and calendar validity.

  chrono's own rules for the width of a signed year and for the other
  white-space and padding cases are not modelled beyond this.
- `LegacyGuids.ConvertStringToGuid`: `GUID::parse` of the `guid_create`
  crate is taken to accept the hyphenated 8-4-4-4-12 form only, and its
  `Display` to print that form in upper case. Its source is not part of
  this model.
- `Guids.ConvertStringToGuid`: the model of uuid's parser covers the
  hyphenated, simple, braced and URN forms. Slicing a non-ASCII 32-character
  input at byte offsets panics in Rust; the model only states that case as
  the panic, without the exact message.
- `TransactionEditor.SortByNamePermutes`: `sort_by` is modelled as an
  insertion sort that is also stable, but stability is not stated.
- The category options' duplicate check (`options.contains`) compares
  freshly created DOM elements by identity, so it never finds one. The model
  gives each option its element number, and says no option appears twice.
- `retrieve_accounts_with_transactions_in_last_days` depends on the clock
  and its SQL is malformed. The backup-file rotation and
  `create_new_gnucash_file` are commented out.

## Findings

| source | as written | input that shows it | evidently intended | confidence | as-written member | corrected member |
|---|---|---|---|---|---|---|
| src/html/transactions_screen.rs:678-693 | the loop runs over `0..(options.length() - 1)`, so the last option is never compared with the selected index | a category select with one option, index 0 selected: the transaction gets the nil category GUID and an empty name | every option, `0..options.length()`, is compared, so the selected category is used | not executed | `TransactionEditor.SelectCategoryOfOnlyOption` | `TransactionEditor.SelectedCategory` |
| src/html/transactions_screen.rs:1034-1046 | the prefill's loop also stops at `options.length() - 1`, so a last transaction whose category is the last option selects nothing | one option whose value is the found transaction's account GUID: no option is selected | the scan covers every option and selects the matching one | not executed | `TransactionEditor.LastTransactionOfOnlyOption` | `TransactionEditor.LastTransactionPrefill` |
| src/html/transactions_screen.rs:1139-1144 | the count alert announces the GUID first but is given the date first, so the GUID and the date trade places | any account GUID not starting with '9': the message shows the query bound "9999-12-31 23:59:59.999" where the GUID should be | the arguments in the announced order, GUID then date | not executed | `TransactionLoaders.LoadForAllTimeMisplacesGuid` | `TransactionLoaders.LoadForAllTimeIntended` |
