/**
 * The Settings page: a table of settings, each with an id and a value, that
 * the page replaces wholesale on every change. A change gives a new value to
 * the entries with a given id; a reset gives every entry the default for its
 * kind. The toggle buttons pass the negation of the current value.
 */
module Settings {

  datatype Option<T> = None | Some(value: T)

  /** A setting's value: the page stores booleans for toggles and strings otherwise. */
  datatype Value = Bool(b: bool) | Str(s: string)

  datatype SettingKind = Toggle | Select | Input

  datatype Setting = Setting(
    id: string,
    title: string,
    description: string,
    kind: SettingKind,
    value: Value,
    options: Option<seq<string>>)

  /** The ids of the page's table, in order. */
  const SettingIds: seq<string> := [
    "ai-assistant", "auto-recommendations", "progress-tracking", "notifications", "ai-language", "ai-intensity"
  ]

  /** The table the page starts with. */
  const InitialSettings: seq<Setting> := [
    Setting("ai-assistant", "AI Assistant",
      "Enable AI-powered learning assistance and recommendations", Toggle, Bool(true), None),
    Setting("auto-recommendations", "Auto Recommendations",
      "Automatically suggest courses based on learning patterns", Toggle, Bool(true), None),
    Setting("progress-tracking", "Progress Tracking",
      "Track and analyze learning progress with AI insights", Toggle, Bool(true), None),
    Setting("notifications", "Notifications",
      "Receive notifications about course updates and AI insights", Toggle, Bool(true), None),
    Setting("ai-language", "AI Language",
      "Preferred language for AI interactions", Select, Str("English"),
      Some(["English", "Spanish", "French", "German", "Chinese"])),
    Setting("ai-intensity", "AI Assistance Level",
      "How proactive should the AI be in providing assistance", Select, Str("Moderate"),
      Some(["Minimal", "Moderate", "High", "Maximum"]))
  ]

  /** How many rows the "AI Configuration" card shows with a toggle button. */
  const ToggleRows: nat := 3

  /** The ids of a table, in order. */
  function Ids(settings: seq<Setting>): (r: seq<string>)
    ensures |r| == |settings|
  {
    if settings == [] then [] else [settings[0].id] + Ids(settings[1..])
  }

  /** No two entries share an id. */
  predicate UniqueIds(settings: seq<Setting>) {
    forall i, j :: 0 <= i < j < |settings| ==> settings[i].id != settings[j].id
  }

  /** JavaScript truthiness of a value: `false` and the empty string are falsy. */
  predicate Truthy(v: Value) {
    match v
    case Bool(b) => b
    case Str(s) => s != []
  }

  /** `!value`. */
  function Negate(v: Value): Value {
    Bool(!Truthy(v))
  }

  /** `settings.find(s => s.id === id)`: the first entry with the id, if any. */
  function Find(settings: seq<Setting>, id: string): Option<Setting> {
    if settings == [] then None
    else if settings[0].id == id then Some(settings[0])
    else Find(settings[1..], id)
  }

  /**
   * The value a named toggle button passes: `!settings.find(...)?.value`.
   * A missing entry reads as `undefined`, whose negation is `true`.
   */
  function NegatedLookup(settings: seq<Setting>, id: string): Value {
    match Find(settings, id)
    case None => Bool(true)
    case Some(s) => Negate(s.value)
  }

  /** The new table of `handleSettingChange`: each entry with the id takes the value. */
  function ChangeValue(settings: seq<Setting>, id: string, value: Value): (r: seq<Setting>)
    ensures |r| == |settings|
  {
    if settings == [] then []
    else
      var s := settings[0];
      [if s.id == id then s.(value := value) else s] + ChangeValue(settings[1..], id, value)
  }

  /** A named toggle button's effect: the entry takes the negation of what `find` reads. */
  function Toggled(settings: seq<Setting>, id: string): seq<Setting> {
    ChangeValue(settings, id, NegatedLookup(settings, id))
  }

  /** `setting.options?.[0] || ''`. */
  function FirstOption(options: Option<seq<string>>): string {
    if options.Some? && options.value != [] then options.value[0] else ""
  }

  /** The value `handleReset` gives an entry, by its kind. */
  function ResetValue(s: Setting): Value {
    match s.kind
    case Toggle => Bool(true)
    case Select => Str(FirstOption(s.options))
    case Input => Str("")
  }

  /** The new table of `handleReset`. */
  function Reset(settings: seq<Setting>): (r: seq<Setting>)
    ensures |r| == |settings|
  {
    if settings == [] then []
    else [settings[0].(value := ResetValue(settings[0]))] + Reset(settings[1..])
  }

  /**
   * A change touches values only: ids, titles, descriptions, kinds and options
   * stay, entries with the id hold the new value, and the others are unchanged.
   */
  lemma {:induction false} ChangeValueFrame(settings: seq<Setting>, id: string, value: Value)
    ensures forall i :: 0 <= i < |settings| ==>
      ChangeValue(settings, id, value)[i].(value := settings[i].value) == settings[i]
    ensures forall i :: 0 <= i < |settings| && settings[i].id == id ==>
      ChangeValue(settings, id, value)[i].value == value
    ensures forall i :: 0 <= i < |settings| && settings[i].id != id ==>
      ChangeValue(settings, id, value)[i] == settings[i]
  {
    if settings != [] {
      ChangeValueFrame(settings[1..], id, value);
      var r := ChangeValue(settings, id, value);
      assert forall i :: 1 <= i < |settings| ==>
        r[i] == ChangeValue(settings[1..], id, value)[i - 1] && settings[i] == settings[1..][i - 1];
    }
  }

  /** A change keeps the ids in place. */
  lemma {:induction false} ChangeKeepsIds(settings: seq<Setting>, id: string, value: Value)
    ensures Ids(ChangeValue(settings, id, value)) == Ids(settings)
  {
    if settings != [] {
      ChangeKeepsIds(settings[1..], id, value);
      var r := ChangeValue(settings, id, value);
      assert r[1..] == ChangeValue(settings[1..], id, value);
    }
  }

  /** Changing an id that no entry has leaves the table as it was. */
  lemma {:induction false} ChangeAbsentId(settings: seq<Setting>, id: string, value: Value)
    requires id !in Ids(settings)
    ensures ChangeValue(settings, id, value) == settings
  {
    if settings != [] {
      assert Ids(settings) == [settings[0].id] + Ids(settings[1..]);
      ChangeAbsentId(settings[1..], id, value);
    }
  }

  /** `find` returns the first entry with the id, and nothing exactly when the id is absent. */
  lemma {:induction false} FindFirst(settings: seq<Setting>, id: string)
    ensures Find(settings, id).None? <==> id !in Ids(settings)
    ensures Find(settings, id).Some? ==>
      exists i :: 0 <= i < |settings| && settings[i].id == id &&
        Find(settings, id).value == settings[i] && id !in Ids(settings[..i])
  {
    if settings != [] {
      assert Ids(settings) == [settings[0].id] + Ids(settings[1..]);
      FindFirst(settings[1..], id);
      if settings[0].id == id {
        assert settings[..0] == [];
        assert Ids([]) == [];
      } else if Find(settings, id).Some? {
        var i :| 0 <= i < |settings[1..]| && settings[1..][i].id == id &&
          Find(settings[1..], id).value == settings[1..][i] && id !in Ids(settings[1..][..i]);
        assert settings[..i + 1] == [settings[0]] + settings[1..][..i];
        assert Ids(settings[..i + 1]) == [settings[0].id] + Ids(settings[1..][..i]);
      }
    }
  }

  /** The ids of a table are its entries' ids, position by position. */
  lemma {:induction false} IdsAt(settings: seq<Setting>, i: nat)
    requires i < |settings|
    ensures Ids(settings)[i] == settings[i].id
  {
    if i > 0 {
      IdsAt(settings[1..], i - 1);
    }
  }

  /** With unique ids, `find` returns the one entry with the id. */
  lemma FindUnique(settings: seq<Setting>, i: nat)
    requires UniqueIds(settings) && i < |settings|
    ensures Find(settings, settings[i].id) == Some(settings[i])
  {
    FindFirst(settings, settings[i].id);
    IdsAt(settings, i);
    assert settings[i].id in Ids(settings);
    var j :| 0 <= j < |settings| && settings[j].id == settings[i].id &&
      Find(settings, settings[i].id).value == settings[j];
  }

  /** Entries have different ids when the table's id list has no repeats. */
  lemma UniqueIdsFromIds(settings: seq<Setting>)
    requires forall i, j :: 0 <= i < j < |settings| ==> Ids(settings)[i] != Ids(settings)[j]
    ensures UniqueIds(settings)
  {
    forall i, j | 0 <= i < j < |settings|
      ensures settings[i].id != settings[j].id
    {
      IdsAt(settings, i);
      IdsAt(settings, j);
    }
  }

  /** Tables with the same ids in the same order agree on whether ids repeat. */
  lemma UniqueIdsSameIds(a: seq<Setting>, b: seq<Setting>)
    requires UniqueIds(a) && Ids(a) == Ids(b)
    ensures UniqueIds(b)
  {
    forall i, j | 0 <= i < j < |b|
      ensures b[i].id != b[j].id
    {
      IdsAt(a, i);
      IdsAt(a, j);
      IdsAt(b, i);
      IdsAt(b, j);
    }
  }

  /**
   * Toggling the same entry twice restores the table, when ids are unique
   * and the entries with that id hold booleans.
   */
  lemma ToggleTwice(settings: seq<Setting>, id: string)
    requires UniqueIds(settings)
    requires forall i :: 0 <= i < |settings| && settings[i].id == id ==> settings[i].value.Bool?
    ensures Toggled(Toggled(settings, id), id) == settings
  {
    FindFirst(settings, id);
    if id !in Ids(settings) {
      ChangeAbsentId(settings, id, NegatedLookup(settings, id));
      ChangeAbsentId(settings, id, NegatedLookup(settings, id));
    } else {
      var i :| 0 <= i < |settings| && settings[i].id == id && Find(settings, id).value == settings[i];
      var once := Toggled(settings, id);
      ChangeValueFrame(settings, id, NegatedLookup(settings, id));
      ChangeKeepsIds(settings, id, NegatedLookup(settings, id));
      UniqueIdsSameIds(settings, once);
      FindUnique(once, i);
      var twice := Toggled(once, id);
      ChangeValueFrame(once, id, NegatedLookup(once, id));
      forall k | 0 <= k < |settings|
        ensures twice[k] == settings[k]
      {
        if settings[k].id == id {
          assert k == i;
        }
      }
    }
  }

  /** A toggle row's button passes `!setting.value` of its own entry; with unique ids that is the named toggle. */
  lemma RowToggleIsNamedToggle(settings: seq<Setting>, i: nat)
    requires UniqueIds(settings) && i < |settings|
    ensures ChangeValue(settings, settings[i].id, Negate(settings[i].value)) == Toggled(settings, settings[i].id)
  {
    FindUnique(settings, i);
  }

  /**
   * After a reset every toggle holds `true`, every select its first option
   * (or the empty string when it has none), and every other entry the empty
   * string; nothing but the values changes.
   */
  lemma {:induction false} ResetValues(settings: seq<Setting>)
    ensures forall i :: 0 <= i < |settings| ==> Reset(settings)[i].(value := settings[i].value) == settings[i]
    ensures forall i :: 0 <= i < |settings| && settings[i].kind == Toggle ==> Reset(settings)[i].value == Bool(true)
    ensures forall i :: 0 <= i < |settings| && settings[i].kind == Select ==>
      Reset(settings)[i].value ==
        Str(if settings[i].options.Some? && settings[i].options.value != [] then settings[i].options.value[0] else "")
    ensures forall i :: 0 <= i < |settings| && settings[i].kind == Input ==> Reset(settings)[i].value == Str("")
  {
    if settings != [] {
      ResetValues(settings[1..]);
      var r := Reset(settings);
      assert forall i :: 1 <= i < |settings| ==> r[i] == Reset(settings[1..])[i - 1] && settings[i] == settings[1..][i - 1];
    }
  }

  /** A reset keeps the ids in place. */
  lemma {:induction false} ResetKeepsIds(settings: seq<Setting>)
    ensures Ids(Reset(settings)) == Ids(settings)
  {
    if settings != [] {
      ResetKeepsIds(settings[1..]);
      assert Reset(settings)[1..] == Reset(settings[1..]);
    }
  }

  /** Resetting twice is resetting once. */
  lemma {:induction false} ResetIdempotent(settings: seq<Setting>)
    ensures Reset(Reset(settings)) == Reset(settings)
  {
    if settings != [] {
      ResetIdempotent(settings[1..]);
      assert Reset(settings)[1..] == Reset(settings[1..]);
    }
  }

  /** The page's table has the ids listed in `SettingIds`, all different. */
  lemma InitialIds(settings: seq<Setting>)
    requires settings == InitialSettings
    ensures Ids(settings) == SettingIds
    ensures UniqueIds(settings)
  {
    assert Ids(settings) == SettingIds;
    SettingIdsDistinct(SettingIds);
    UniqueIdsFromIds(settings);
  }

  /** The page's ids are pairwise different. */
  lemma SettingIdsDistinct(ids: seq<string>)
    requires ids == SettingIds
    ensures forall i, j :: 0 <= i < j < |ids| ==> ids[i] != ids[j]
  {
  }

  /** Every table with the page's ids has unique ids, so toggling it twice restores it. */
  lemma PageIdsUnique(settings: seq<Setting>)
    requires Ids(settings) == SettingIds
    ensures UniqueIds(settings)
  {
    SettingIdsDistinct(SettingIds);
    UniqueIdsFromIds(settings);
  }

  /** "ai-insights", which the second notifications button names, is not an id of the table. */
  lemma AiInsightsMissing(settings: seq<Setting>, value: Value)
    requires Ids(settings) == SettingIds
    ensures Find(settings, "ai-insights") == None
    ensures NegatedLookup(settings, "ai-insights") == Bool(true)
    ensures ChangeValue(settings, "ai-insights", value) == settings
  {
    var k := "ai-insights";
    assert k !in SettingIds;
    FindFirst(settings, k);
    ChangeAbsentId(settings, k, value);
  }

  /** A reset does not bring back the starting table: the assistance level goes from "Moderate" to "Minimal". */
  lemma ResetIsNotInitial(settings: seq<Setting>)
    requires settings == InitialSettings
    ensures settings[5].id == "ai-intensity" && settings[5].value == Str("Moderate")
    ensures Reset(settings)[5].value == Str("Minimal")
    ensures Reset(settings) != settings
  {
    ResetValues(settings);
  }

  /** Every toggle entry holds a boolean; the page's table keeps this throughout. */
  predicate TogglesHoldBooleans(settings: seq<Setting>) {
    forall i :: 0 <= i < |settings| && settings[i].kind == Toggle ==> settings[i].value.Bool?
  }

  /** The starting table's toggles hold booleans. */
  lemma InitialBooleans(settings: seq<Setting>)
    requires settings == InitialSettings
    ensures TogglesHoldBooleans(settings)
  {
    assert forall i :: 0 <= i < |settings| && settings[i].kind == Toggle ==> i < 4;
  }

  /** No entry with the id is a toggle. */
  predicate NamesNoToggle(settings: seq<Setting>, id: string) {
    forall i :: 0 <= i < |settings| && settings[i].id == id ==> settings[i].kind != Toggle
  }

  /** A change keeps toggles boolean when it stores a boolean or touches no toggle. */
  lemma ChangeKeepsBooleans(settings: seq<Setting>, id: string, value: Value)
    requires TogglesHoldBooleans(settings)
    requires value.Bool? || NamesNoToggle(settings, id)
    ensures TogglesHoldBooleans(ChangeValue(settings, id, value))
  {
    ChangeValueFrame(settings, id, value);
  }

  /** After a reset every toggle holds `true`, a boolean. */
  lemma ResetKeepsBooleans(settings: seq<Setting>)
    ensures TogglesHoldBooleans(Reset(settings))
  {
    ResetValues(settings);
  }

  /**
   * With unique ids and boolean toggles, as on the page, pressing the same
   * named toggle twice restores the table.
   */
  lemma BooleanToggleTwice(settings: seq<Setting>, id: string)
    requires UniqueIds(settings) && TogglesHoldBooleans(settings)
    requires forall i :: 0 <= i < |settings| && settings[i].id == id ==> settings[i].kind == Toggle
    ensures Toggled(Toggled(settings, id), id) == settings
  {
    ToggleTwice(settings, id);
  }

  /** The page's settings table. The save button's `isSaving` flag is left out. */
  class SettingsPage {
    var settings: seq<Setting>

    /**
     * The page's buttons keep the table's ids, so they stay those of the
     * start, and keep every toggle boolean.
     */
    ghost predicate Valid()
      reads this
    {
      Ids(settings) == SettingIds && TogglesHoldBooleans(settings)
    }

    constructor ()
      ensures Valid() && settings == InitialSettings
    {
      InitialIds(InitialSettings);
      InitialBooleans(InitialSettings);
      settings := InitialSettings;
    }

    /**
     * `handleSettingChange`. It accepts any value, so it keeps toggles
     * boolean only when it stores a boolean or names no toggle.
     */
    method HandleSettingChange(id: string, value: Value)
      requires Valid()
      modifies this
      ensures Ids(settings) == SettingIds
      ensures settings == ChangeValue(old(settings), id, value)
      ensures value.Bool? || NamesNoToggle(old(settings), id) ==> Valid()
    {
      ChangeKeepsIds(settings, id, value);
      if value.Bool? || NamesNoToggle(settings, id) {
        ChangeKeepsBooleans(settings, id, value);
      }
      settings := ChangeValue(settings, id, value);
    }

    /** `handleReset`. */
    method HandleReset()
      requires Valid()
      modifies this
      ensures Valid()
      ensures settings == Reset(old(settings))
    {
      ResetKeepsIds(settings);
      ResetKeepsBooleans(settings);
      settings := Reset(settings);
    }

    /** A toggle button of the "AI Configuration" card, which shows the first three rows. */
    method ToggleRow(i: nat)
      requires Valid() && i < ToggleRows
      modifies this
      ensures Valid()
      ensures settings == ChangeValue(old(settings), old(settings)[i].id, Negate(old(settings)[i].value))
    {
      HandleSettingChange(settings[i].id, Negate(settings[i].value));
    }

    /**
     * A button of the "Notifications" card, which names its entry by id.
     * When the id names toggles only, pressing the button again restores the table.
     */
    method ToggleNamed(id: string)
      requires Valid()
      modifies this
      ensures Valid()
      ensures settings == Toggled(old(settings), id)
      ensures (forall i :: 0 <= i < |old(settings)| && old(settings)[i].id == id ==> old(settings)[i].kind == Toggle) ==>
        Toggled(settings, id) == old(settings)
    {
      PageIdsUnique(settings);
      if forall i :: 0 <= i < |settings| && settings[i].id == id ==> settings[i].kind == Toggle {
        BooleanToggleTwice(settings, id);
      }
      HandleSettingChange(id, NegatedLookup(settings, id));
    }

    /** A select of the "AI Preferences" card, which shows the rows after the first three. */
    method ChooseOption(i: nat, option: string)
      requires Valid() && ToggleRows <= i < |settings| && settings[i].kind == Select
      modifies this
      ensures Valid()
      ensures settings == ChangeValue(old(settings), old(settings)[i].id, Str(option))
    {
      PageIdsUnique(settings);
      HandleSettingChange(settings[i].id, Str(option));
    }
  }
}
