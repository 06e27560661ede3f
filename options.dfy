/**
 * The options page: the settings it shows, the sync storage it reads and
 * writes, and the status line it reports to. Form values arrive as strings;
 * `parseInt` and `parseFloat` are the browser's, given as parameters.
 */
module Options {
  import opened Wrappers

  /** A setting's value as JavaScript holds it. */
  datatype Setting = Text(s: string) | Num(x: real) | NotANumber | Flag(b: bool)

  /** JavaScript truthiness of a setting; a missing one is `undefined`. */
  predicate Truthy(v: Option<Setting>)
  {
    match v
    case None => false
    case Some(Text(s)) => s != ""
    case Some(Num(x)) => x != 0.0
    case Some(NotANumber) => false
    case Some(Flag(b)) => b
  }

  datatype StatusKind = Success | Failure
  datatype Status = Status(message: string, kind: StatusKind)

  /** The settings the page knows, in declaration order. */
  const DefaultKeys: seq<string> := [
    "screenshotQuality", "waitTime", "captureFullPage", "excludeHiddenElements",
    "documentationFormat", "includeAccessibility", "maxRoutes", "segmentationThreshold",
    "enableBatchProcessing", "enableCaching"
  ]

  /** The defaults; the wait time is the string "3000" here. */
  const Defaults: map<string, Setting> := map[
    "screenshotQuality" := Text("high"),
    "waitTime" := Text("3000"),
    "captureFullPage" := Flag(true),
    "excludeHiddenElements" := Flag(true),
    "documentationFormat" := Text("markdown"),
    "includeAccessibility" := Flag(true),
    "maxRoutes" := Num(20.0),
    "segmentationThreshold" := Num(0.7),
    "enableBatchProcessing" := Flag(true),
    "enableCaching" := Flag(true)
  ]

  /** The settings that are checkboxes: absent from the form data when unchecked. */
  const CheckboxKeys: seq<string> := [
    "captureFullPage", "excludeHiddenElements", "includeAccessibility", "enableBatchProcessing", "enableCaching"
  ]

  const MaxRoutesMessage := "Maximum routes must be between 1 and 100."
  const ThresholdMessage := "Segmentation threshold must be between 0.3 and 0.9."
  const SavedMessage := "Settings saved successfully!"
  const SaveFailedMessage := "Failed to save settings. Please try again."
  const ResetMessage := "Settings reset to defaults."
  const ImportedMessage := "Settings imported successfully!"
  const ImportFailedMessage := "Failed to import settings. Please check the file format."

  lemma DefaultKeysCover()
    ensures forall k :: k in Defaults <==> k in DefaultKeys
    ensures forall k :: k in CheckboxKeys ==> k in Defaults && Defaults[k] == Flag(true)
  {
  }

  /** The entries of `m` whose keys are among `keys`: what `chrome.storage.sync.get(keys)` returns. */
  function Restrict(m: map<string, Setting>, keys: seq<string>): (r: map<string, Setting>)
    ensures forall k :: k in r <==> k in m && k in keys
    ensures forall k :: k in r ==> r[k] == m[k]
  {
    map k | k in m && k in keys :: m[k]
  }

  /** The settings after loading: the defaults, overridden key by key by what was stored, or the defaults alone when reading fails. */
  function Loaded(sync: map<string, Setting>, readFails: bool): (r: map<string, Setting>)
    ensures r.Keys == Defaults.Keys
    ensures forall k :: k in r ==> r[k] == if !readFails && k in sync then sync[k] else Defaults[k]
  {
    DefaultKeysCover();
    if readFails then Defaults else Defaults + Restrict(sync, DefaultKeys)
  }

  // ---------------------------------------------------------------------------
  // Validation

  /** A JavaScript number `v` with `!(v < lo || v > hi)`: comparisons with NaN or undefined are false, so those pass. */
  predicate InRange(v: Option<Setting>, lo: real, hi: real)
  {
    match v
    case Some(Num(x)) => lo <= x <= hi
    case Some(Flag(b)) => lo <= (if b then 1.0 else 0.0) <= hi
    case _ => true
  }

  /** The first range error of a settings object, if any. */
  function Validate(s: map<string, Setting>): (r: Option<string>)
    ensures r == None <==> InRange(Get(s, "maxRoutes"), 1.0, 100.0) && InRange(Get(s, "segmentationThreshold"), 0.3, 0.9)
    ensures !InRange(Get(s, "maxRoutes"), 1.0, 100.0) ==> r == Some(MaxRoutesMessage)
  {
    if !InRange(Get(s, "maxRoutes"), 1.0, 100.0) then Some(MaxRoutesMessage)
    else if !InRange(Get(s, "segmentationThreshold"), 0.3, 0.9) then Some(ThresholdMessage)
    else None
  }

  function Get(s: map<string, Setting>, k: string): Option<Setting>
  {
    if k in s then Some(s[k]) else None
  }

  /** Both ranges are closed: a number is accepted exactly when it lies between the bounds, bounds included. */
  lemma ValidateBounds(s: map<string, Setting>, routes: real, threshold: real)
    requires Get(s, "maxRoutes") == Some(Num(routes)) && Get(s, "segmentationThreshold") == Some(Num(threshold))
    ensures Validate(s) == None <==> 1.0 <= routes <= 100.0 && 0.3 <= threshold <= 0.9
  {
  }

  /** A value that did not parse, or is missing, passes the range checks. */
  lemma UnparsedPasses(s: map<string, Setting>)
    requires Get(s, "maxRoutes") in {None, Some(NotANumber)}
    requires Get(s, "segmentationThreshold") in {None, Some(NotANumber)}
    ensures Validate(s) == None
  {
  }

  lemma DefaultsValid()
    ensures Validate(Defaults) == None
  {
  }

  // ---------------------------------------------------------------------------
  // The form

  /** One form entry as the save handler converts it. */
  function FieldValue(key: string, value: string, parseInt: string -> Setting, parseFloat: string -> Setting): Setting
  {
    if key == "maxRoutes" || key == "waitTime" then parseInt(value)
    else if key == "segmentationThreshold" then parseFloat(value)
    else Text(value)
  }

  /** Whether the form data has an entry for `key`. */
  predicate HasKey(form: seq<(string, string)>, key: string)
  {
    exists j :: 0 <= j < |form| && form[j].0 == key
  }

  /** The value of the last entry for `key`. */
  function LastValue(form: seq<(string, string)>, key: string): (v: string)
    requires HasKey(form, key)
    ensures exists j :: 0 <= j < |form| && form[j] == (key, v) && forall j' :: j < j' < |form| ==> form[j'].0 != key
  {
    var n := |form| - 1;
    if form[n].0 == key then form[n].1
    else
      assert exists j :: 0 <= j < n && form[..n][j].0 == key by {
        var j :| 0 <= j < |form| && form[j].0 == key;
        assert form[..n][j] == form[j];
      }
      var v := LastValue(form[..n], key);
      assert forall j :: 0 <= j < n ==> form[..n][j] == form[j];
      v
  }

  /** The object the entries loop builds: one field per key, the last entry winning. */
  function FormFields(form: seq<(string, string)>, parseInt: string -> Setting, parseFloat: string -> Setting): (r: map<string, Setting>)
    ensures forall k :: k in r <==> HasKey(form, k)
    ensures forall k :: k in r ==> r[k] == FieldValue(k, LastValue(form, k), parseInt, parseFloat)
  {
    if form == [] then map[]
    else
      var n := |form| - 1;
      var init := form[..n];
      assert forall j :: 0 <= j < n ==> init[j] == form[j];
      FormFields(init, parseInt, parseFloat)[form[n].0 := FieldValue(form[n].0, form[n].1, parseInt, parseFloat)]
  }

  /** The checkbox fields: each true exactly when the form has it. */
  function CheckboxFlags(form: seq<(string, string)>, keys: seq<string>): (r: map<string, Setting>)
    ensures forall k :: k in r <==> k in keys
    ensures forall k :: k in r ==> r[k] == Flag(HasKey(form, k))
  {
    map k | k in keys :: Flag(HasKey(form, k))
  }

  lemma FormFieldsSnoc(form: seq<(string, string)>, i: nat, parseInt: string -> Setting, parseFloat: string -> Setting)
    requires i < |form|
    ensures FormFields(form[..i + 1], parseInt, parseFloat)
      == FormFields(form[..i], parseInt, parseFloat)[form[i].0 := FieldValue(form[i].0, form[i].1, parseInt, parseFloat)]
  {
    assert form[..i + 1][..i] == form[..i];
  }

  lemma CheckboxFlagsSnoc(base: map<string, Setting>, form: seq<(string, string)>, keys: seq<string>, c: string)
    ensures (base + CheckboxFlags(form, keys))[c := Flag(HasKey(form, c))] == base + CheckboxFlags(form, keys + [c])
  {
  }

  /** The settings object a save builds from the form. */
  function FormSettings(form: seq<(string, string)>, parseInt: string -> Setting, parseFloat: string -> Setting): map<string, Setting>
  {
    FormFields(form, parseInt, parseFloat) + CheckboxFlags(form, CheckboxKeys)
  }

  /** Each checkbox setting is true exactly when the form has it; every other form field is converted from its last entry. */
  lemma FormSettingsFields(form: seq<(string, string)>, parseInt: string -> Setting, parseFloat: string -> Setting, k: string)
    ensures var s := FormSettings(form, parseInt, parseFloat);
      && (k in s <==> k in CheckboxKeys || HasKey(form, k))
      && (k in CheckboxKeys ==> s[k] == Flag(HasKey(form, k)))
      && (k !in CheckboxKeys && HasKey(form, k) ==> s[k] == FieldValue(k, LastValue(form, k), parseInt, parseFloat))
  {
  }

  /** The save handler's two loops: the entries, then the checkboxes. */
  method CollectForm(form: seq<(string, string)>, parseInt: string -> Setting, parseFloat: string -> Setting)
    returns (newSettings: map<string, Setting>)
    ensures newSettings == FormSettings(form, parseInt, parseFloat)
  {
    newSettings := map[];
    var i := 0;
    while i < |form|
      invariant i <= |form|
      invariant newSettings == FormFields(form[..i], parseInt, parseFloat)
    {
      FormFieldsSnoc(form, i, parseInt, parseFloat);
      var (key, value) := form[i];
      newSettings := newSettings[key := FieldValue(key, value, parseInt, parseFloat)];
      i := i + 1;
    }
    assert form[..i] == form;
    ghost var fields := newSettings;
    var checkboxes := CheckboxKeys;
    var j := 0;
    while j < |checkboxes|
      invariant j <= |checkboxes|
      invariant newSettings == fields + CheckboxFlags(form, checkboxes[..j])
    {
      var c := checkboxes[j];
      assert checkboxes[..j + 1] == checkboxes[..j] + [c];
      CheckboxFlagsSnoc(fields, form, checkboxes[..j], c);
      newSettings := newSettings[c := Flag(HasKey(form, c))];
      j := j + 1;
    }
    assert checkboxes[..j] == checkboxes;
  }

  // ---------------------------------------------------------------------------
  // Import

  /** What `JSON.parse` made of an imported file. */
  datatype Json = Object(fields: map<string, Setting>) | Null | Primitive

  /** The settings an import keeps, or the TypeError that `hasOwnProperty.call(null, ...)` raises. */
  function ImportFilter(file: Json): Option<map<string, Setting>>
  {
    match file
    case Object(fields) => Some(Restrict(fields, DefaultKeys))
    case Null => None
    case Primitive => Some(map[])
  }

  lemma RestrictSnoc(m: map<string, Setting>, keys: seq<string>, key: string)
    ensures Restrict(m, keys + [key]) == if key in m then Restrict(m, keys)[key := m[key]] else Restrict(m, keys)
  {
  }

  /** After an import the settings are the defaults overridden by exactly the known keys of the file. */
  lemma ImportedSettings(fields: map<string, Setting>)
    ensures var s := Defaults + ImportFilter(Object(fields)).value;
      && s.Keys == Defaults.Keys
      && forall k :: k in s ==> s[k] == if k in fields then fields[k] else Defaults[k]
  {
    DefaultKeysCover();
  }

  // ---------------------------------------------------------------------------
  // The controller

  class OptionsController {
    /** The settings the page shows. */
    var settings: map<string, Setting>
    /** `chrome.storage.sync`. */
    var sync: map<string, Setting>
    /** The last status shown. */
    var status: Option<Status>

    constructor(sync0: map<string, Setting>)
      ensures settings == map[] && sync == sync0 && status == None
    {
      settings, sync, status := map[], sync0, None;
    }

    /** Read the stored settings over the defaults. */
    method LoadSettings(readFails: bool)
      modifies this
      ensures settings == Loaded(sync, readFails)
      ensures sync == old(sync) && status == old(status)
    {
      if readFails {
        settings := Defaults;
      } else {
        settings := Defaults + Restrict(sync, DefaultKeys);
      }
    }

    /**
     * Save the form: convert each entry, set each checkbox from its
     * presence, validate, and only then write to storage. A range error or
     * a failed write leaves storage and the shown settings as they were.
     */
    method SaveSettings(form: seq<(string, string)>, parseInt: string -> Setting, parseFloat: string -> Setting, writeFails: bool)
      modifies this
      ensures var s := FormSettings(form, parseInt, parseFloat);
        && (Validate(s).Some? ==> sync == old(sync) && settings == old(settings) && status == Some(Status(Validate(s).value, Failure)))
        && (Validate(s).None? && writeFails ==> sync == old(sync) && settings == old(settings) && status == Some(Status(SaveFailedMessage, Failure)))
        && (Validate(s).None? && !writeFails ==> sync == old(sync) + s && settings == s && status == Some(Status(SavedMessage, Success)))
    {
      var newSettings := CollectForm(form, parseInt, parseFloat);
      var error := Validate(newSettings);
      if error.Some? {
        status := Some(Status(error.value, Failure));
        return;
      }
      if writeFails {
        status := Some(Status(SaveFailedMessage, Failure));
        return;
      }
      sync := sync + newSettings;
      settings := newSettings;
      status := Some(Status(SavedMessage, Success));
    }

    /** Reset the shown settings to the defaults once the user confirms; storage is not written. */
    method ResetToDefaults(confirmed: bool)
      modifies this
      ensures confirmed ==> settings == Defaults && status == Some(Status(ResetMessage, Success))
      ensures !confirmed ==> settings == old(settings) && status == old(status)
      ensures sync == old(sync)
    {
      if confirmed {
        settings := Defaults;
        status := Some(Status(ResetMessage, Success));
      }
    }

    /**
     * Import a settings file: keep only the known keys, write them, and show
     * the defaults overridden by them. An unreadable file, a `null`, or a
     * failed write changes nothing but the status.
     */
    method ImportSettings(file: Result<Json>, writeFails: bool)
      modifies this
      ensures file.Ok? && ImportFilter(file.value).Some? && !writeFails ==>
        var kept := ImportFilter(file.value).value;
        && sync == old(sync) + kept && settings == Defaults + kept
        && status == Some(Status(ImportedMessage, Success))
      ensures file.Err? || ImportFilter(file.value).None? || writeFails ==>
        && sync == old(sync) && settings == old(settings)
        && status == Some(Status(ImportFailedMessage, Failure))
    {
      if file.Err? || file.value.Null? {
        status := Some(Status(ImportFailedMessage, Failure));
        return;
      }
      var kept: map<string, Setting> := map[];
      var validKeys := DefaultKeys;
      var i := 0;
      while i < |validKeys|
        invariant i <= |validKeys|
        invariant file.value.Object? ==> kept == Restrict(file.value.fields, validKeys[..i])
        invariant file.value.Primitive? ==> kept == map[]
        invariant sync == old(sync) && settings == old(settings) && status == old(status)
      {
        var key := validKeys[i];
        assert validKeys[..i + 1] == validKeys[..i] + [key];
        if file.value.Object? {
          RestrictSnoc(file.value.fields, validKeys[..i], key);
          if key in file.value.fields {
            kept := kept[key := file.value.fields[key]];
          }
        }
        i := i + 1;
      }
      assert validKeys[..i] == validKeys;
      if writeFails {
        status := Some(Status(ImportFailedMessage, Failure));
        return;
      }
      sync := sync + kept;
      settings := Defaults + kept;
      status := Some(Status(ImportedMessage, Success));
    }
  }
}
