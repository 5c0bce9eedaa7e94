/** The settings screen's logic (`src/html/settings_screen.rs`): saving the
    "display transactions older than one year" checkbox as a slot, and
    reading the checkbox state back from the settings slots. */
module Settings {
  import opened Wrappers
  import opened Seqs
  import opened Guids
  import opened Database
  import opened SlotsTable

  const SavedMessage: string := "Successfully saved setting!"
  const SaveFailedMessage: string := "Failed to save setting!"
  const InvalidSettingMessage: string :=
    "The settings_slot with name of " + SlotNameDisplayTransactionsOlderThanOneYear + " is invalid! Please fix this!"

  /** The stored value of the checkbox. */
  function SettingValue(checked: bool): (v: int)
    ensures v == 1 <==> checked
    ensures v == 0 <==> !checked
  {
    if checked then 1 else 0
  }

  /** `save_setting_for_display_transactions_older_than_one_year`: saves the
      checkbox as the slot ("settings", the setting's name, 1 or 0) and
      answers the alert shown. `objGuid` stands for the random object GUID. */
  method SaveSettingForDisplayTransactionsOlderThanOneYear(db: Db, checked: bool, objGuid: Uuid) returns (alert: string)
    modifies db
    ensures alert == (if old(db.loaded) then SavedMessage else SaveFailedMessage)
    ensures !old(db.loaded) ==> unchanged(db)
    ensures old(db.loaded) ==> db.slots == SlotsAfterSave(old(db.slots), db.lastSlotId, objGuid, SlotNameSettings,
                                                          SlotNameDisplayTransactionsOlderThanOneYear, SettingValue(checked))
    ensures db.loaded == old(db.loaded) && db.accounts == old(db.accounts) && db.commodities == old(db.commodities)
  {
    var r := SaveSlotForNameAndStringValAndInt64Val(db, SlotNameSettings, SlotNameDisplayTransactionsOlderThanOneYear,
                                                    if checked then 1 else 0, objGuid);
    if r.Ok? {
      alert := SavedMessage;
    } else {
      alert := SaveFailedMessage;
      return;
    }
  }

  /** The checkbox state the screen ends with, and the alert it raised. */
  datatype SettingsView = SettingsView(checked: bool, alert: Option<string>)

  predicate IsDisplaySetting(slot: Slot)
  {
    slot.string_val == SlotNameDisplayTransactionsOlderThanOneYear
  }

  function DisplaySettingTest(): Slot -> bool
  {
    (slot: Slot) => IsDisplaySetting(slot)
  }

  /** A display-setting slot holding 1 or 0. */
  predicate ValidSetting(slot: Slot)
  {
    slot.int64_val == 0 || slot.int64_val == 1
  }

  /** The scan of the settings slots from checkbox state `checked`: a
      display-setting slot with 1 checks the box, one with 0 unchecks it,
      one with anything else raises the alert and ends the scan; other
      slots are skipped. */
  function Scan(slots: seq<Slot>, checked: bool): (v: SettingsView)
    ensures v.alert.None? || v.alert == Some(InvalidSettingMessage)
  {
    if slots == [] then SettingsView(checked, None)
    else if !IsDisplaySetting(slots[0]) then Scan(slots[1..], checked)
    else if slots[0].int64_val == 1 then Scan(slots[1..], true)
    else if slots[0].int64_val == 0 then Scan(slots[1..], false)
    else SettingsView(checked, Some(InvalidSettingMessage))
  }

  /** `load_settings_into_body`, without the page it builds: the checkbox
      starts unchecked and the loop over the slots sets it, returning at
      the first invalid value. */
  method LoadSettingsIntoBody(settingsSlots: seq<Slot>) returns (checked: bool, alert: Option<string>)
    ensures SettingsView(checked, alert) == Scan(settingsSlots, false)
  {
    checked := false;
    alert := None;
    for i := 0 to |settingsSlots|
      invariant Scan(settingsSlots[i..], checked) == Scan(settingsSlots, false)
    {
      var slot := settingsSlots[i];
      assert settingsSlots[i..][0] == slot && settingsSlots[i..][1..] == settingsSlots[i + 1..];
      if slot.string_val == SlotNameDisplayTransactionsOlderThanOneYear {
        if slot.int64_val == 1 {
          checked := true;
        } else if slot.int64_val == 0 {
          checked := false;
        } else {
          alert := Some(InvalidSettingMessage);
          return;
        }
      }
    }
    assert settingsSlots[|settingsSlots|..] == [];
  }

  /** Only the display-setting slots matter. */
  lemma {:induction false} ScanIgnoresOtherSlots(slots: seq<Slot>, checked: bool)
    ensures Scan(Filter(slots, DisplaySettingTest()), checked) == Scan(slots, checked)
  {
    if slots != [] {
      var f := Filter(slots, DisplaySettingTest());
      var rest := Filter(slots[1..], DisplaySettingTest());
      if IsDisplaySetting(slots[0]) {
        assert f == [slots[0]] + rest;
        assert f[0] == slots[0] && f[1..] == rest;
        ScanIgnoresOtherSlots(slots[1..], true);
        ScanIgnoresOtherSlots(slots[1..], false);
      } else {
        assert !DisplaySettingTest()(slots[0]);
        assert f == [] + rest == rest;
        ScanIgnoresOtherSlots(slots[1..], checked);
      }
    }
  }

  /** With no display-setting slot the box keeps its state. */
  lemma {:induction false} ScanWithoutSetting(slots: seq<Slot>, checked: bool)
    requires forall i :: 0 <= i < |slots| ==> !IsDisplaySetting(slots[i])
    ensures Scan(slots, checked) == SettingsView(checked, None)
  {
    if slots != [] {
      assert forall i :: 0 <= i < |slots| - 1 ==> slots[1..][i] == slots[i + 1];
      ScanWithoutSetting(slots[1..], checked);
    }
  }

  /** Scanning valid slots and then more is scanning the rest from the state
      the valid ones left. */
  lemma {:induction false} ScanAfterValid(a: seq<Slot>, rest: seq<Slot>, checked: bool)
    requires forall i :: 0 <= i < |a| && IsDisplaySetting(a[i]) ==> ValidSetting(a[i])
    ensures Scan(a, checked).alert.None?
    ensures Scan(a + rest, checked) == Scan(rest, Scan(a, checked).checked)
  {
    if a == [] {
      assert a + rest == rest;
    } else {
      assert (a + rest)[0] == a[0] && (a + rest)[1..] == a[1..] + rest;
      assert forall i :: 0 <= i < |a| - 1 ==> a[1..][i] == a[i + 1];
      var next := if !IsDisplaySetting(a[0]) then checked else a[0].int64_val == 1;
      ScanAfterValid(a[1..], rest, next);
    }
  }

  /** The last display-setting slot decides when every one is valid. */
  lemma ScanLastValidWins(a: seq<Slot>, slot: Slot, b: seq<Slot>, checked: bool)
    requires forall i :: 0 <= i < |a| && IsDisplaySetting(a[i]) ==> ValidSetting(a[i])
    requires IsDisplaySetting(slot) && ValidSetting(slot)
    requires forall i :: 0 <= i < |b| ==> !IsDisplaySetting(b[i])
    ensures Scan(a + [slot] + b, checked) == SettingsView(slot.int64_val == 1, None)
  {
    assert a + [slot] + b == a + ([slot] + b);
    ScanAfterValid(a, [slot] + b, checked);
    var c := Scan(a, checked).checked;
    assert ([slot] + b)[0] == slot && ([slot] + b)[1..] == b;
    ScanWithoutSetting(b, slot.int64_val == 1);
  }

  /** An invalid value ends the scan: nothing after it is looked at. */
  lemma ScanStopsAtInvalid(a: seq<Slot>, slot: Slot, b: seq<Slot>, checked: bool)
    requires forall i :: 0 <= i < |a| && IsDisplaySetting(a[i]) ==> ValidSetting(a[i])
    requires IsDisplaySetting(slot) && !ValidSetting(slot)
    ensures Scan(a + [slot] + b, checked) == SettingsView(Scan(a, checked).checked, Some(InvalidSettingMessage))
  {
    assert a + [slot] + b == a + ([slot] + b);
    ScanAfterValid(a, [slot] + b, checked);
    assert ([slot] + b)[0] == slot;
  }

  /** Loading the setting right after saving it shows the saved state. */
  lemma SettingRoundTrip(slots: seq<SlotRow>, id: int, objGuid: Uuid, checked: bool)
    ensures var table := SlotsAfterSave(slots, id, objGuid, SlotNameSettings,
                                        SlotNameDisplayTransactionsOlderThanOneYear, SettingValue(checked));
      var loaded := LoadedSlots(true, table, SlotNameSettings, SlotNameDisplayTransactionsOlderThanOneYear);
      loaded.Ok? && Scan(loaded.value, false) == SettingsView(checked, None)
  {
    LoadAfterSave(slots, id, objGuid, SlotNameSettings, SlotNameDisplayTransactionsOlderThanOneYear, SettingValue(checked));
    var slot := Slot(id, objGuid, SlotNameSettings, 0, SettingValue(checked), SlotNameDisplayTransactionsOlderThanOneYear,
                     None, None, None, None, None, None);
    assert Scan([slot], false) == Scan([], checked);
  }
}
