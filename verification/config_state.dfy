/**
 * The data side of the server-settings editor: normalising the entries the
 * configuration endpoint returns, the per-key form, save-status and busy
 * bookkeeping, and the form synchronisation that follows a successful load.
 */
module ConfigState {
  import opened Strings
  import opened Json
  import opened ConfigText
  import opened ConfigKeys

  // ------------------------------------------------------------ normalising

  /** One normalised configuration entry; `typeName` is whatever truthy `type` the server sent, else "str". */
  datatype Entry = Entry(value: string, overridden: bool, typeName: Json)

  /** A raw entry in the structured `{value, overridden, type}` form: an object with an own `value` field. */
  predicate Structured(raw: Json) {
    raw.JObj? && "value" in raw.fields
  }

  /**
   * `_normalizeConfigData` for one entry. A structured entry keeps its value
   * (null as ""), its overridden flag (absent or falsy as false) and its type
   * (absent or falsy as "str"); a bare value is shown as text and counts as
   * overridden.
   */
  function NormalizeEntry(raw: Json): (e: Entry)
    ensures Truthy(e.typeName)
    ensures Structured(raw) ==>
              e.value == TextOrEmpty(raw.fields["value"])
              && (e.overridden <==> FieldTruthy(raw.fields, "overridden"))
              && (FieldTruthy(raw.fields, "type") ==> e.typeName == raw.fields["type"])
              && (!FieldTruthy(raw.fields, "type") ==> e.typeName == JStr("str"))
    ensures !Structured(raw) ==> e.overridden && e.typeName == JStr("str") && e.value == TextOrEmpty(raw)
    ensures !Structured(raw) && raw.JStr? ==> e.value == raw.s
    ensures !Structured(raw) && raw.JNull? ==> e.value == ""
  {
    if Structured(raw) then
      var f := raw.fields;
      Entry(TextOrEmpty(f["value"]), FieldTruthy(f, "overridden"),
            if FieldTruthy(f, "type") then f["type"] else JStr("str"))
    else
      Entry(TextOrEmpty(raw), true, JStr("str"))
  }

  /** `_normalizeConfigData`: every key of the response is kept, and only those. */
  function Normalize(raw: map<string, Json>): (r: map<string, Entry>)
    ensures r.Keys == raw.Keys
    ensures forall k :: k in r ==> r[k] == NormalizeEntry(raw[k]) && Truthy(r[k].typeName)
  {
    map k | k in raw :: NormalizeEntry(raw[k])
  }

  /** The structured form of an entry, as the endpoint's full view reports it. */
  function EntryJson(e: Entry): Json {
    JObj(map["value" := JStr(e.value), "overridden" := JBool(e.overridden), "type" := e.typeName])
  }

  /** Normalising an entry already in normal form gives it back unchanged. */
  lemma NormalizeEntryRoundTrip(e: Entry)
    requires Truthy(e.typeName)
    ensures NormalizeEntry(EntryJson(e)) == e
  {
    var j := EntryJson(e);
    assert Structured(j);
    assert j.fields["value"] == JStr(e.value);
    assert FieldTruthy(j.fields, "overridden") == e.overridden;
    assert FieldTruthy(j.fields, "type");
  }

  /** Normalising is idempotent on maps: re-encoding normalised data and normalising again changes nothing. */
  lemma NormalizeIdempotent(raw: map<string, Json>)
    ensures var n := Normalize(raw);
            Normalize(map k | k in n :: EntryJson(n[k])) == n
  {
    var n := Normalize(raw);
    var again := Normalize(map k | k in n :: EntryJson(n[k]));
    forall k | k in n
      ensures again[k] == n[k]
    {
      NormalizeEntryRoundTrip(n[k]);
    }
  }

  // ------------------------------------------------------------ component state

  /** What `_setSaveStatus` records for a key. */
  datatype SaveStatus = SaveStatus(ok: bool, message: string)

  /**
   * The component's reactive state. `keyOrder` is the order `Object.keys`
   * reports for `configData`; `errorMessage` holds the `error` the endpoint sent.
   */
  datatype Settings = Settings(
    loading: bool,
    errorMessage: Json,
    keyOrder: seq<string>,
    configData: map<string, Entry>,
    formData: map<string, string>,
    busyKey: string,
    filter: string,
    saveStatus: map<string, SaveStatus>)

  /** A freshly constructed editor: loading, with nothing fetched, typed or reported yet. */
  function Init(): (s: Settings)
    ensures s.loading && s.configData == map[] && s.formData == map[] && s.saveStatus == map[]
    ensures s.busyKey == "" && s.filter == "" && s.errorMessage == JStr("") && s.keyOrder == []
  {
    Settings(true, JStr(""), [], map[], map[], "", "", map[])
  }

  /** `_storedValue`: the normalised value, or "" for a key the server did not send. */
  function StoredValue(s: Settings, key: string): (r: string)
    ensures key !in s.configData ==> r == ""
    ensures key in s.configData ==> r == s.configData[key].value
  {
    if key in s.configData then s.configData[key].value else ""
  }

  /** `_formValue`: the edited value, or "" for a key the form has not seen. */
  function FormValue(s: Settings, key: string): (r: string)
    ensures key !in s.formData ==> r == ""
    ensures key in s.formData ==> r == s.formData[key]
  {
    if key in s.formData then s.formData[key] else ""
  }

  /** `_isOverridden`: the key has a stored database override; an unknown key has none. */
  function IsOverridden(s: Settings, key: string): (r: bool)
    ensures key !in s.configData ==> !r
    ensures key in s.configData ==> (r <==> s.configData[key].overridden)
  {
    key in s.configData && s.configData[key].overridden
  }

  /** `_type`: the entry's type, "str" when the key is unknown. */
  function TypeOf(s: Settings, key: string): (r: Json)
    ensures Truthy(r)
    ensures key !in s.configData ==> r == JStr("str")
    ensures key in s.configData && Truthy(s.configData[key].typeName) ==> r == s.configData[key].typeName
    ensures key in s.configData && !Truthy(s.configData[key].typeName) ==> r == JStr("str")
  {
    if key in s.configData && Truthy(s.configData[key].typeName) then s.configData[key].typeName
    else JStr("str")
  }

  /**
   * `_hasChanged`: the form holds something other than the stored value, a
   * missing form entry or stored entry reading as "".
   */
  function HasChanged(s: Settings, key: string): (r: bool)
    ensures key !in s.formData && key !in s.configData ==> !r
    ensures key in s.formData && key in s.configData ==> (r <==> s.formData[key] != s.configData[key].value)
    ensures key in s.formData && key !in s.configData ==> (r <==> s.formData[key] != "")
    ensures key !in s.formData && key in s.configData ==> (r <==> s.configData[key].value != "")
  {
    FormValue(s, key) != StoredValue(s, key)
  }

  /**
   * `_isBusy(key = '')`: with no key, whether any request is in flight; with a
   * key, whether that key's request is the one in flight.
   */
  function IsBusy(busyKey: string, key: string): (r: bool)
    ensures busyKey == "" ==> !r
    ensures busyKey != "" && key == "" ==> r
    ensures key != "" ==> (r <==> busyKey == key)
  {
    if busyKey == "" then false
    else if key == "" then true
    else busyKey == key
  }

  // ------------------------------------------------------------ bookkeeping

  /** The maps and scalars other than the save-status map are as before. */
  predicate SameExceptStatus(s: Settings, t: Settings) {
    t.loading == s.loading && t.errorMessage == s.errorMessage && t.keyOrder == s.keyOrder
    && t.configData == s.configData && t.formData == s.formData && t.busyKey == s.busyKey
    && t.filter == s.filter
  }

  /** `_setSaveStatus`: records the outcome for `key` and leaves every other key's status alone. */
  function SetSaveStatus(s: Settings, key: string, ok: bool, message: string): (t: Settings)
    ensures SameExceptStatus(s, t)
    ensures key in t.saveStatus && t.saveStatus[key] == SaveStatus(ok, message)
    ensures forall k :: k != key ==> (k in t.saveStatus <==> k in s.saveStatus)
    ensures forall k :: k != key && k in s.saveStatus ==> t.saveStatus[k] == s.saveStatus[k]
  {
    s.(saveStatus := s.saveStatus[key := SaveStatus(ok, message)])
  }

  /** `_clearSaveStatus`: forgets the status of `key`; a key without a status leaves the state as it was. */
  function ClearSaveStatus(s: Settings, key: string): (t: Settings)
    ensures SameExceptStatus(s, t)
    ensures key !in t.saveStatus
    ensures key !in s.saveStatus ==> t == s
    ensures forall k :: k != key ==> (k in t.saveStatus <==> k in s.saveStatus)
    ensures forall k :: k != key && k in s.saveStatus ==> t.saveStatus[k] == s.saveStatus[k]
  {
    if key !in s.saveStatus then s
    else s.(saveStatus := s.saveStatus - {key})
  }

  /** Clearing right after setting removes exactly what the set added. */
  lemma ClearUndoesSet(s: Settings, key: string, ok: bool, message: string)
    requires key !in s.saveStatus
    ensures ClearSaveStatus(SetSaveStatus(s, key, ok, message), key) == s
  {
    var t := ClearSaveStatus(SetSaveStatus(s, key, ok, message), key);
    assert t.saveStatus == s.saveStatus;
  }

  /** Clearing twice is clearing once. */
  lemma ClearIdempotent(s: Settings, key: string)
    ensures ClearSaveStatus(ClearSaveStatus(s, key), key) == ClearSaveStatus(s, key)
  {
  }

  /**
   * `_handleInput`: an edit stores the typed value for `key` and drops that
   * key's stale save status; other keys' values and statuses stay as they were.
   */
  function HandleInput(s: Settings, key: string, value: string): (t: Settings)
    ensures FormValue(t, key) == value
    ensures key !in t.saveStatus
    ensures forall k :: k != key ==> FormValue(t, k) == FormValue(s, k)
    ensures forall k :: k != key ==> (k in t.formData <==> k in s.formData)
    ensures forall k :: k != key ==> (k in t.saveStatus <==> k in s.saveStatus)
    ensures forall k :: k != key && k in s.saveStatus ==> t.saveStatus[k] == s.saveStatus[k]
    ensures t.configData == s.configData && t.busyKey == s.busyKey && t.filter == s.filter
    ensures t.loading == s.loading && t.errorMessage == s.errorMessage && t.keyOrder == s.keyOrder
  {
    var c := ClearSaveStatus(s, key);
    c.(formData := c.formData[key := value])
  }

  /** After an edit the key counts as changed exactly when the typed value differs from the stored one. */
  lemma HandleInputChanged(s: Settings, key: string, value: string)
    ensures HasChanged(HandleInput(s, key, value), key) <==> value != StoredValue(s, key)
    ensures forall k :: k != key ==> (HasChanged(HandleInput(s, key, value), k) <==> HasChanged(s, k))
  {
  }

  // ------------------------------------------------------------ loading

  /** `_loadData` starting: loading is shown and any previous error is cleared. */
  function StartLoad(s: Settings): (t: Settings)
    ensures t.loading && t.errorMessage == JStr("")
    ensures t.configData == s.configData && t.formData == s.formData && t.saveStatus == s.saveStatus
    ensures t == s.(loading := t.loading, errorMessage := t.errorMessage)
  {
    s.(loading := true, errorMessage := JStr(""))
  }

  /** `_loadData` when the response is an error: the error is kept for display and nothing else changes. */
  function LoadFailed(s: Settings, error: Json): (t: Settings)
    ensures !t.loading && t.errorMessage == error
    ensures t.configData == s.configData && t.formData == s.formData && t.saveStatus == s.saveStatus
    ensures t.keyOrder == s.keyOrder && t.busyKey == s.busyKey
    ensures t == s.(loading := t.loading, errorMessage := t.errorMessage)
  {
    s.(loading := false, errorMessage := error)
  }

  /** `rawOrder` lists the keys of `raw` once each, as `Object.keys` does. */
  ghost predicate ListsKeys(rawOrder: seq<string>, raw: map<string, Json>) {
    NoDup(rawOrder) && forall k :: k in rawOrder <==> k in raw
  }

  /**
   * `_loadData` on success: the normalised data replaces the old, and the form
   * is rebuilt with one entry per key of `_allKeys`, each holding its stored value.
   */
  function LoadSucceeded(s: Settings, rawOrder: seq<string>, raw: map<string, Json>): (t: Settings)
    ensures !t.loading
    ensures t.configData == Normalize(raw) && t.keyOrder == rawOrder
    ensures forall k :: k in t.formData <==> k in AllKeys(rawOrder)
    ensures forall k :: k in AllKeys(rawOrder) ==> FormValue(t, k) == StoredValue(t, k)
    ensures t.saveStatus == s.saveStatus && t.busyKey == s.busyKey && t.filter == s.filter
    ensures t == s.(configData := t.configData, keyOrder := t.keyOrder, formData := t.formData, loading := t.loading)
  {
    var loaded := s.(configData := Normalize(raw), keyOrder := rawOrder);
    var keys := AllKeys(rawOrder);
    loaded.(formData := map k | k in keys :: StoredValue(loaded, k), loading := false)
  }

  /** Right after a successful load no key counts as changed, so nothing can be saved yet. */
  lemma NothingChangedAfterLoad(s: Settings, rawOrder: seq<string>, raw: map<string, Json>, key: string)
    requires ListsKeys(rawOrder, raw)
    ensures !HasChanged(LoadSucceeded(s, rawOrder, raw), key)
  {
    var t := LoadSucceeded(s, rawOrder, raw);
    if key !in AllKeys(rawOrder) {
      assert key !in t.formData;
      assert key !in raw;
    }
  }

  /**
   * After a successful load a key counts as overridden exactly when the server
   * sent it either as a bare value or as a structured entry with a truthy flag.
   */
  lemma OverriddenAfterLoad(s: Settings, rawOrder: seq<string>, raw: map<string, Json>, key: string)
    ensures IsOverridden(LoadSucceeded(s, rawOrder, raw), key)
            <==> key in raw && (Structured(raw[key]) ==> FieldTruthy(raw[key].fields, "overridden"))
  {
    if key in raw {
      assert LoadSucceeded(s, rawOrder, raw).configData[key] == NormalizeEntry(raw[key]);
    }
  }

  // ------------------------------------------------------------ save and reset

  /** `_save` or `_reset` sending its request: that key is busy. */
  function BeginRequest(s: Settings, key: string): (t: Settings)
    ensures key != "" ==> IsBusy(t.busyKey, key) && IsBusy(t.busyKey, "")
    ensures forall k :: k != "" && k != key ==> !IsBusy(t.busyKey, k)
    ensures t == s.(busyKey := t.busyKey)
  {
    s.(busyKey := key)
  }

  /** `_save` or `_reset` once the response has arrived: nothing is busy any more. */
  function ResponseArrived(s: Settings): (t: Settings)
    ensures forall k :: !IsBusy(t.busyKey, k)
    ensures t == s.(busyKey := "")
  {
    s.(busyKey := "")
  }

  /** `_save` or `_reset` on an error response: the key reports the error text as not saved. */
  function RequestFailed(s: Settings, key: string, error: Json): (t: Settings)
    ensures forall k :: !IsBusy(t.busyKey, k)
    ensures key in t.saveStatus && t.saveStatus[key] == SaveStatus(false, ErrorText(error))
    ensures t.formData == s.formData && t.configData == s.configData
    ensures t == s.(busyKey := t.busyKey, saveStatus := t.saveStatus)
    ensures forall k :: k != key ==> (k in t.saveStatus <==> k in s.saveStatus)
    ensures forall k :: k != key && k in s.saveStatus ==> t.saveStatus[k] == s.saveStatus[k]
  {
    SetSaveStatus(ResponseArrived(s), key, false, ErrorText(error))
  }

  /** `_save` or `_reset` on success, after the reload: the key reports success with no message. */
  function RequestSucceeded(reloaded: Settings, key: string): (t: Settings)
    ensures SameExceptStatus(reloaded, t)
    ensures key in t.saveStatus && t.saveStatus[key] == SaveStatus(true, "")
    ensures forall k :: k != key ==> (k in t.saveStatus <==> k in reloaded.saveStatus)
    ensures forall k :: k != key && k in reloaded.saveStatus ==> t.saveStatus[k] == reloaded.saveStatus[k]
  {
    SetSaveStatus(reloaded, key, true, "")
  }

  /**
   * Editing a key whose save just failed removes the error again: the statuses
   * are back to what they were before the request, when the key had none.
   */
  lemma EditClearsError(s: Settings, key: string, error: Json, value: string)
    requires key !in s.saveStatus
    ensures var t := HandleInput(RequestFailed(s, key, error), key, value);
            key !in t.saveStatus && t.saveStatus == s.saveStatus
  {
    var t := HandleInput(RequestFailed(s, key, error), key, value);
    assert t.saveStatus.Keys == s.saveStatus.Keys;
  }

  /**
   * A successful save or reset followed by a successful reload leaves nothing
   * busy, the key reported as saved, and no key with unsaved changes.
   */
  lemma SuccessfulSaveCycle(s: Settings, key: string, rawOrder: seq<string>, raw: map<string, Json>, k: string)
    requires ListsKeys(rawOrder, raw)
    ensures var t := RequestSucceeded(LoadSucceeded(StartLoad(ResponseArrived(BeginRequest(s, key))), rawOrder, raw), key);
            !IsBusy(t.busyKey, k) && t.saveStatus[key].ok && !HasChanged(t, k)
  {
    var loaded := LoadSucceeded(StartLoad(ResponseArrived(BeginRequest(s, key))), rawOrder, raw);
    NothingChangedAfterLoad(StartLoad(ResponseArrived(BeginRequest(s, key))), rawOrder, raw, k);
  }
}
