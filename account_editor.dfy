/** The account editor's rules (`src/html/accounts_screen.rs`): reading the
    form into the record `save_account_with_guid` saves, and the record and
    option markings `load_account_editor_into_body` shows. The DOM itself is
    not modelled: a form is the values its inputs hold. */
module AccountEditor {
  import opened Wrappers
  import opened Guids
  import opened Database
  import opened AccountsTable
  import opened Seqs

  // ---------------------------------------------------------------------
  // Saving
  // ---------------------------------------------------------------------

  function InvalidOptionMessage(v: string): string
  {
    "The option " + v + " is not valid!"
  }

  /** The type select's value as an account type: one of the nine offered
      names, anything else (ROOT included) panics. */
  function OptionToAccountType(v: string): (r: Outcome<AccountType>)
    ensures r.Ok? <==> ParseTypeName(v).Some? && ParseTypeName(v).value != ROOT
    ensures r.Ok? ==> TypeName(r.value) == v && r.value != ROOT
    ensures !r.Ok? ==> r == Panic(InvalidOptionMessage(v))
  {
    if v == "ASSET" then Ok(ASSET)
    else if v == "BANK" then Ok(BANK)
    else if v == "CASH" then Ok(CASH)
    else if v == "CREDIT" then Ok(CREDIT)
    else if v == "EQUITY" then Ok(EQUITY)
    else if v == "EXPENSE" then Ok(EXPENSE)
    else if v == "INCOME" then Ok(INCOME)
    else if v == "LIABILITY" then Ok(LIABILITY)
    else if v == "RECEIVABLE" then Ok(RECEIVABLE)
    else Panic(InvalidOptionMessage(v))
  }

  /** Every type but ROOT is read back from its own name. */
  lemma OptionOfTypeName(t: AccountType)
    ensures t != ROOT ==> OptionToAccountType(TypeName(t)) == Ok(t)
    ensures t == ROOT ==> OptionToAccountType(TypeName(t)) == Panic(InvalidOptionMessage("ROOT"))
  {
    ParseTypeNameOfName(t);
  }

  function CommodityGuidMessage(v: string): string
  {
    "Failed to turn " + v + " into GUID!"
  }

  /** What the editor's inputs hold when "save" is pressed: the values of
      the selected type and commodity options, the text inputs and the two
      checkboxes. */
  datatype AccountForm = AccountForm(
    name: string,
    typeOption: string,
    commodityOption: string,
    code: string,
    description: string,
    hiddenChecked: bool,
    placeholderChecked: bool)

  /** A checkbox as an account flag. */
  function FlagOf(checked: bool): (b: Bool)
    ensures b == True <==> checked
  {
    if checked then True else False
  }

  /** The account `save_account_with_guid` builds for the form: the type,
      then the commodity GUID (`expect`), then the parent, the first
      top-level account of the type (`unwrap`), each panicking in turn;
      the scu fields are fixed at 100 and -1 and the tags are empty. */
  function AccountToSave(guid: Uuid, form: AccountForm, loaded: bool, table: seq<AccountRow>): (r: Outcome<Account>)
    ensures !OptionToAccountType(form.typeOption).Ok? ==> r == Panic(InvalidOptionMessage(form.typeOption))
    ensures OptionToAccountType(form.typeOption).Ok? && !ConvertStringToGuid(form.commodityOption).Ok? ==>
              r == Panic(CommodityGuidMessage(form.commodityOption))
    ensures r.Ok? <==> OptionToAccountType(form.typeOption).Ok? && ConvertStringToGuid(form.commodityOption).Ok?
                       && AccountForType(loaded, table, form.typeOption).Ok?
    ensures r.Ok? || r.Panic?
    ensures r.Ok? ==>
      && r.value.guid == guid && r.value.name == form.name
      && TypeName(r.value.account_type) == form.typeOption && r.value.account_type != ROOT
      && r.value.commodity_guid == Some(ConvertStringToGuid(form.commodityOption).value)
      && r.value.commodity_scu == 100 && r.value.non_std_scu == -1
      && r.value.parent_guid == Some(AccountForType(loaded, table, form.typeOption).value.guid)
      && r.value.code == form.code && r.value.description == form.description
      && (r.value.hidden == True <==> form.hiddenChecked)
      && (r.value.placeholder == True <==> form.placeholderChecked)
      && r.value.tags == map[]
  {
    var accountType := OptionToAccountType(form.typeOption);
    if !accountType.Ok? then Panic(accountType.message)
    else
      var commodity := ConvertStringToGuid(form.commodityOption);
      if !commodity.Ok? then Panic(CommodityGuidMessage(form.commodityOption))
      else
        var parent := AccountForType(loaded, table, TypeName(accountType.value));
        if parent.Err? then Panic(UnwrapFailure)
        else if parent.Panic? then Panic(parent.message)
        else Ok(Account(guid, form.name, accountType.value, Some(commodity.value), 100, -1,
                        Some(parent.value.guid), form.code, form.description,
                        FlagOf(form.hiddenChecked), FlagOf(form.placeholderChecked), map[]))
  }

  const SuccessAlert: string := "Success!"

  const SaveErrorOpen: string := "There was an error: '"

  function SaveErrorAlert(e: string): string
  {
    SaveErrorOpen + e + "'"
  }

  /** The alert that reports what `save_new_and_delete_current` answered:
      "Success!" exactly when the save succeeded, and otherwise an alert
      from which the error message can be read back between the quotes. */
  function SaveAlert(saved: Outcome<bool>): (alert: string)
    ensures alert == SuccessAlert <==> saved.Ok?
    ensures !saved.Ok? ==>
      && |alert| == |SaveErrorOpen| + |saved.message| + 1
      && alert[..|SaveErrorOpen|] == SaveErrorOpen
      && alert[|SaveErrorOpen|..|alert| - 1] == saved.message
  {
    if saved.Ok? then SuccessAlert else SaveErrorAlert(saved.message)
  }

  /** `save_account_with_guid`: builds the account from the form and saves
      it over any account with the same GUID, answering the closing alert;
      any panic on the way leaves the book untouched. */
  method SaveAccountWithGuid(db: Db, guid: Uuid, form: AccountForm) returns (r: Outcome<string>)
    modifies db
    ensures var a := AccountToSave(guid, form, old(db.loaded), old(db.accounts));
      && (!a.Ok? ==> r == Panic(a.message) && unchanged(db))
      && (a.Ok? ==> r == Ok(SuccessAlert) && db.accounts == AccountsAfterSave(old(db.accounts), a.value, old(db.commodities)))
    ensures db.loaded == old(db.loaded) && db.commodities == old(db.commodities)
    ensures db.slots == old(db.slots) && db.lastSlotId == old(db.lastSlotId)
  {
    var accountType := OptionToAccountType(form.typeOption);
    if !accountType.Ok? {
      return Panic(accountType.message);
    }
    var commodityGuid := ConvertStringToGuid(form.commodityOption);
    if !commodityGuid.Ok? {
      return Panic(CommodityGuidMessage(form.commodityOption));
    }
    var hidden := if form.hiddenChecked then True else False;
    var placeholder := if form.placeholderChecked then True else False;
    var parent := RetrieveAccountForAccountType(db, Display(accountType.value));
    if parent.Err? {
      return Panic(UnwrapFailure);
    } else if parent.Panic? {
      return Panic(parent.message);
    }
    var accountToSave := Account(guid, form.name, accountType.value, Some(commodityGuid.value), 100, -1,
                                 Some(parent.value.guid), form.code, form.description, hidden, placeholder, map[]);
    var saved := SaveNewAndDeleteCurrent(db, accountToSave);
    r := Ok(SaveAlert(saved));
  }

  /** After a successful save the account's row holds the form: its name,
      type, code and description, the chosen commodity, the parent, -1 as
      non-standard scu, and 1 exactly for the checked boxes. */
  lemma SavedRowHoldsForm(rows: seq<AccountRow>, commodities: seq<CommodityRow>, guid: Uuid, form: AccountForm,
                          loaded: bool, table: seq<AccountRow>)
    requires AccountToSave(guid, form, loaded, table).Ok?
    ensures var a := AccountToSave(guid, form, loaded, table).value;
      var stored := WithGuid(AccountsAfterSave(rows, a, commodities), Simple(guid));
      && |stored| == 1
      && stored[0].name == form.name && stored[0].account_type == form.typeOption
      && stored[0].code == Some(form.code) && stored[0].description == Some(form.description)
      && stored[0].commodity_guid == Some(Simple(ConvertStringToGuid(form.commodityOption).value))
      && stored[0].non_std_scu == -1
      && (stored[0].hidden == 1 <==> form.hiddenChecked) && (stored[0].placeholder == 1 <==> form.placeholderChecked)
  {
    var a := AccountToSave(guid, form, loaded, table).value;
    SaveLeavesOneRow(rows, a, commodities);
    EncodeAccountFields(a, commodities);
  }

  // ---------------------------------------------------------------------
  // Loading
  // ---------------------------------------------------------------------

  /** The record the editor starts from: the requested GUID and defaults. */
  function DefaultEditorAccount(guid: Uuid): Account
  {
    Account(guid, "", ASSET, Some(Nil), 0, 0, Some(Nil), "", "", False, False, map[])
  }

  /** The record `load_account_editor_into_body` shows, given what
      `retrieve_account_for_guid` answered: the defaults, with every field
      but the GUID overwritten from a stored account when there is one. A
      panic of the lookup is the editor's panic. */
  method LoadEditorAccount(guid: Uuid, stored: Outcome<Account>) returns (r: Outcome<Account>)
    ensures stored.Panic? ==> r == stored
    ensures stored.Err? ==> r == Ok(DefaultEditorAccount(guid))
    ensures stored.Ok? ==> r == Ok(stored.value.(guid := guid))
  {
    if stored.Panic? {
      return Panic(stored.message);
    }
    var account := Account(guid, "", ASSET, Some(Nil), 0, 0, Some(Nil), "", "", False, False, map[]);
    if stored.Ok? {
      var resultAccount := stored.value;
      account := account.(name := resultAccount.name);
      account := account.(account_type := resultAccount.account_type);
      account := account.(commodity_guid := resultAccount.commodity_guid);
      account := account.(commodity_scu := resultAccount.commodity_scu);
      account := account.(non_std_scu := resultAccount.non_std_scu);
      account := account.(parent_guid := resultAccount.parent_guid);
      account := account.(code := resultAccount.code);
      account := account.(description := resultAccount.description);
      account := account.(hidden := resultAccount.hidden);
      account := account.(placeholder := resultAccount.placeholder);
      account := account.(tags := resultAccount.tags);
    }
    return Ok(account);
  }

  /** The account types the type select offers, in order. */
  const EditorTypes: seq<AccountType> := [ASSET, BANK, CASH, CREDIT, EQUITY, EXPENSE, INCOME, LIABILITY, RECEIVABLE]

  const SelectedMark: string := "SELECTED"

  /** The attribute written into the option for `option`. */
  function Mark(accountType: AccountType, option: AccountType): (m: string)
    ensures m == SelectedMark <==> accountType == option
    ensures m != SelectedMark ==> m == ""
  {
    if accountType == option then SelectedMark else ""
  }

  /** The attributes of the nine type options, in order. */
  function TypeMarks(accountType: AccountType): (marks: seq<string>)
    ensures |marks| == |EditorTypes|
    ensures forall i :: 0 <= i < |marks| ==> marks[i] == Mark(accountType, EditorTypes[i])
  {
    seq(|EditorTypes|, i requires 0 <= i < |EditorTypes| => Mark(accountType, EditorTypes[i]))
  }

  /** The positions of the options marked SELECTED. */
  function SelectedIndices(marks: seq<string>): set<int>
  {
    set i | 0 <= i < |marks| && marks[i] == SelectedMark
  }

  /** The position of a type among the offered ones. */
  function TypeIndex(accountType: AccountType): (k: int)
    requires accountType != ROOT
    ensures 0 <= k < |EditorTypes| && EditorTypes[k] == accountType
  {
    match accountType
    case ASSET => 0
    case BANK => 1
    case CASH => 2
    case CREDIT => 3
    case EQUITY => 4
    case EXPENSE => 5
    case INCOME => 6
    case LIABILITY => 7
    case RECEIVABLE => 8
  }

  /** The offered types are distinct and exclude ROOT. */
  lemma EditorTypesDistinct(i: int, j: int)
    requires 0 <= i < |EditorTypes| && 0 <= j < |EditorTypes|
    ensures EditorTypes[i] != ROOT
    ensures EditorTypes[i] == EditorTypes[j] ==> i == j
  {
    assert TypeName(EditorTypes[i]) == ["ASSET", "BANK", "CASH", "CREDIT", "EQUITY", "EXPENSE", "INCOME", "LIABILITY", "RECEIVABLE"][i];
  }

  /** Exactly one type option is SELECTED, the one at the type's position;
      for a ROOT account none is. */
  lemma TypeMarksSelectOne(accountType: AccountType)
    ensures accountType == ROOT ==> SelectedIndices(TypeMarks(accountType)) == {}
    ensures accountType != ROOT ==> SelectedIndices(TypeMarks(accountType)) == {TypeIndex(accountType)}
    ensures |SelectedIndices(TypeMarks(accountType))| == if accountType == ROOT then 0 else 1
  {
    var m := TypeMarks(accountType);
    var s := SelectedIndices(m);
    if accountType == ROOT {
      forall i | 0 <= i < |m|
        ensures m[i] != SelectedMark
      {
        EditorTypesDistinct(i, i);
      }
      assert s == {};
    } else {
      var k := TypeIndex(accountType);
      forall i | 0 <= i < |m|
        ensures m[i] == SelectedMark <==> i == k
      {
        EditorTypesDistinct(i, k);
      }
      assert s == {k};
    }
  }

  /** The option the editor marks, saved unchanged, reads back as the type. */
  lemma MarkedTypeSavesBack(accountType: AccountType, i: int)
    requires 0 <= i < |EditorTypes| && TypeMarks(accountType)[i] == SelectedMark
    ensures OptionToAccountType(TypeName(EditorTypes[i])) == Ok(accountType)
  {
    EditorTypesDistinct(i, i);
    OptionOfTypeName(EditorTypes[i]);
  }

  /** A commodity as `retrieve_all_commodities` reads it. */
  datatype Commodity = Commodity(
    guid: Uuid,
    namespace: string,
    mnemonic: string,
    fullname: string,
    cusip: string,
    fraction: int,
    quote_flag: int,
    quote_source: string,
    quote_tz: string)

  /** Whether the commodity's option is marked SELECTED. */
  predicate IsSelectedCommodity(commodityGuid: Option<Uuid>, c: Commodity)
  {
    commodityGuid.Some? && commodityGuid.value == c.guid
  }

  /** What follows the mark in a commodity's option: its GUID as the value
      and its mnemonic as the text. */
  function OptionTail(c: Commodity): (tail: string)
    ensures |tail| > 0 && tail[0] == ' '
  {
    " value='" + ConvertGuidToSqliteString(c.guid) + "'>" + c.mnemonic + "</option>"
  }

  const OptionOpen: string := "<option "

  /** The option for one commodity. */
  function CommodityOption(c: Commodity, selected: bool): string
  {
    OptionOpen + (if selected then SelectedMark else "") + OptionTail(c)
  }

  /** The options of the commodity select, one per commodity, in order. */
  function CommodityOptions(commodityGuid: Option<Uuid>, commodities: seq<Commodity>): (options: seq<string>)
    ensures |options| == |commodities|
  {
    if commodities == [] then []
    else
      var c := commodities[|commodities| - 1];
      CommodityOptions(commodityGuid, commodities[..|commodities| - 1])
        + [CommodityOption(c, IsSelectedCommodity(commodityGuid, c))]
  }

  /** Strings joined in order. */
  function Concat(ss: seq<string>): string
  {
    if ss == [] then "" else Concat(ss[..|ss| - 1]) + ss[|ss| - 1]
  }

  const CommodityPreamble: string :=
    "\n            <label id='account_editor_account_commodity_label'>Commodity: \n                <select id='account_editor_account_commodity_select'>\n        "
  const CommodityClosing: string := "</select></label>"

  /** The commodity select's HTML, built by appending one option per commodity. */
  method CommodityHtml(commodityGuid: Option<Uuid>, commodities: seq<Commodity>) returns (html: string)
    ensures html == CommodityPreamble + Concat(CommodityOptions(commodityGuid, commodities)) + CommodityClosing
  {
    html := CommodityPreamble;
    for i := 0 to |commodities|
      invariant html == CommodityPreamble + Concat(CommodityOptions(commodityGuid, commodities[..i]))
    {
      var commodity := commodities[i];
      var selected := commodityGuid.Some? && commodityGuid.value == commodity.guid;
      var option := CommodityOption(commodity, selected);
      ConcatStep(commodityGuid, commodities, i);
      AppendAfter(CommodityPreamble, Concat(CommodityOptions(commodityGuid, commodities[..i])), option,
                  Concat(CommodityOptions(commodityGuid, commodities[..i + 1])));
      html := html + option;
    }
    assert commodities[..|commodities|] == commodities;
    html := html + CommodityClosing;
  }

  lemma AppendAfter(pre: string, s: string, x: string, t: string)
    requires t == s + x
    ensures (pre + s) + x == pre + t
  {
  }

  lemma ConcatSnoc(ss: seq<string>, x: string)
    ensures Concat(ss + [x]) == Concat(ss) + x
  {
    assert (ss + [x])[..|ss|] == ss;
  }

  /** One more option appended. */
  lemma ConcatStep(commodityGuid: Option<Uuid>, commodities: seq<Commodity>, i: int)
    requires 0 <= i < |commodities|
    ensures Concat(CommodityOptions(commodityGuid, commodities[..i + 1]))
         == Concat(CommodityOptions(commodityGuid, commodities[..i]))
            + CommodityOption(commodities[i], IsSelectedCommodity(commodityGuid, commodities[i]))
  {
    var before := CommodityOptions(commodityGuid, commodities[..i]);
    var option := CommodityOption(commodities[i], IsSelectedCommodity(commodityGuid, commodities[i]));
    CommodityOptionsSnoc(commodityGuid, commodities, i);
    ConcatSnoc(before, option);
  }

  lemma CommodityOptionsSnoc(commodityGuid: Option<Uuid>, commodities: seq<Commodity>, i: int)
    requires 0 <= i < |commodities|
    ensures CommodityOptions(commodityGuid, commodities[..i + 1])
         == CommodityOptions(commodityGuid, commodities[..i])
            + [CommodityOption(commodities[i], IsSelectedCommodity(commodityGuid, commodities[i]))]
  {
    assert commodities[..i + 1][..i] == commodities[..i];
  }

  /** Option k is commodity k's, marked by whether it is the account's. */
  lemma {:induction false} CommodityOptionsIndex(commodityGuid: Option<Uuid>, commodities: seq<Commodity>, k: int)
    requires 0 <= k < |commodities|
    ensures CommodityOptions(commodityGuid, commodities)[k]
         == CommodityOption(commodities[k], IsSelectedCommodity(commodityGuid, commodities[k]))
  {
    var init := commodities[..|commodities| - 1];
    var c := commodities[|commodities| - 1];
    var last := CommodityOption(c, IsSelectedCommodity(commodityGuid, c));
    assert CommodityOptions(commodityGuid, commodities) == CommodityOptions(commodityGuid, init) + [last];
    SnocIndex(CommodityOptions(commodityGuid, init), last, k);
    if k < |commodities| - 1 {
      CommodityOptionsIndex(commodityGuid, init, k);
    }
  }

  const SelectedPrefix: string := OptionOpen + SelectedMark

  /** Commodity k's option starts with `<option SELECTED` exactly when the
      account has a commodity and it is commodity k. */
  lemma CommoditySelectedIff(commodityGuid: Option<Uuid>, commodities: seq<Commodity>, k: int)
    requires 0 <= k < |commodities|
    ensures var option := CommodityOptions(commodityGuid, commodities)[k];
      (|option| >= |SelectedPrefix| && option[..|SelectedPrefix|] == SelectedPrefix)
        <==> commodityGuid == Some(commodities[k].guid)
  {
    CommodityOptionsIndex(commodityGuid, commodities, k);
    var option := CommodityOptions(commodityGuid, commodities)[k];
    var c := commodities[k];
    var tail := OptionTail(c);
    if IsSelectedCommodity(commodityGuid, c) {
      assert option == SelectedPrefix + tail;
    } else {
      assert OptionOpen + "" == OptionOpen;
      assert option == OptionOpen + tail;
      assert option[8] == tail[0] == ' ' != SelectedMark[0] == SelectedPrefix[8];
    }
  }

  /** With distinct commodity GUIDs at most one option is SELECTED. */
  lemma AtMostOneCommoditySelected(commodityGuid: Option<Uuid>, commodities: seq<Commodity>, i: int, j: int)
    requires forall a, b :: 0 <= a < b < |commodities| ==> commodities[a].guid != commodities[b].guid
    requires 0 <= i < |commodities| && 0 <= j < |commodities|
    requires IsSelectedCommodity(commodityGuid, commodities[i]) && IsSelectedCommodity(commodityGuid, commodities[j])
    ensures i == j
  {
  }

  /** The checkbox states shown for an account: saving the boxes as they
      are gives back the account's hidden and placeholder flags. */
  function Checkboxes(a: Account): (boxes: (bool, bool))
    ensures FlagOf(boxes.0) == a.hidden
    ensures FlagOf(boxes.1) == a.placeholder
  {
    (a.hidden == True, a.placeholder == True)
  }

  /** The form as the editor shows an account, left as it is: the inputs
      hold its fields, the marked type option and the given commodity's
      option are selected, and the boxes are as `Checkboxes` says. */
  function UnchangedForm(a: Account, c: Commodity): AccountForm
  {
    var boxes := Checkboxes(a);
    AccountForm(a.name, TypeName(a.account_type), ConvertGuidToSqliteString(c.guid), a.code, a.description,
                boxes.0, boxes.1)
  }

  /** Saving the editor unchanged keeps every field the form carries: an
      account of a type other than ROOT whose commodity is shown selected
      is saved with its name, type, commodity, code, description and flags;
      the parent becomes the type's top-level account, the scu fields are
      reset to 100 and -1 and the tags are dropped. */
  lemma UnchangedFormSavesAccount(guid: Uuid, a: Account, c: Commodity, table: seq<AccountRow>)
    requires a.account_type != ROOT && a.commodity_guid == Some(c.guid)
    requires AccountForType(true, table, TypeName(a.account_type)).Ok?
    ensures AccountToSave(guid, UnchangedForm(a, c), true, table)
         == Ok(a.(guid := guid, commodity_scu := 100, non_std_scu := -1,
                  parent_guid := Some(AccountForType(true, table, TypeName(a.account_type)).value.guid),
                  tags := map[]))
  {
    OptionOfTypeName(a.account_type);
    SqliteStringRoundTrip(c.guid);
    var r := AccountToSave(guid, UnchangedForm(a, c), true, table);
    assert r.value.hidden == a.hidden && r.value.placeholder == a.placeholder;
  }
}
