/** The settings store: the saved record per window, the composite key that
    links a live window to its record, and the dictionary that holds them. */
module SettingsManager {
  import opened Wrappers
  import opened Format

  /** What is saved for one window. */
  datatype WindowSettingsRecord = WindowSettingsRecord(
    processId: uint32,
    title: string,
    transparency: byte,
    clickThrough: bool,
    alwaysOnTop: bool)

  /** The identity key `"{processId}:{title}"`: the decimal process id, a
      colon, then the title exactly as given. */
  function GetWindowKey(processId: uint32, title: string): (key: string)
    ensures |key| == |NatToDecimal(processId)| + 1 + |title|
    ensures key[..|NatToDecimal(processId)|] == NatToDecimal(processId)
    ensures key[|NatToDecimal(processId)|] == ':'
    ensures key[|NatToDecimal(processId)| + 1..] == title
  {
    NatToDecimal(processId) + ":" + title
  }

  /** Position of the first colon of `s`, or `|s|` when there is none. */
  function ColonIndex(s: string): (i: nat)
    ensures i <= |s|
    ensures i < |s| ==> s[i] == ':'
    ensures forall j :: 0 <= j < i ==> s[j] != ':'
  {
    if s == [] || s[0] == ':' then 0 else 1 + ColonIndex(s[1..])
  }

  /** The inverse of GetWindowKey: splits a key at its first colon and reads
      the process id back; keys that no window can produce give None. */
  function SplitKey(key: string): (r: Option<(uint32, string)>)
    ensures r.Some? ==> GetWindowKey(r.value.0, r.value.1) == key
  {
    var i := ColonIndex(key);
    if i == |key| || !AllDigits(key[..i]) then None
    else
      var v := DecimalValue(key[..i]);
      if v < 0x1_0000_0000 && NatToDecimal(v) == key[..i] then
        assert key == key[..i] + ":" + key[i + 1..];
        Some((v, key[i + 1..]))
      else None
  }

  /** Splitting a derived key gives back the process id and the title. */
  lemma KeyRoundTrip(processId: uint32, title: string)
    ensures SplitKey(GetWindowKey(processId, title)) == Some((processId, title))
  {
    var key, digits := GetWindowKey(processId, title), NatToDecimal(processId);
    var i := ColonIndex(key);
    assert key[|digits|] == ':';
    assert i == |digits|;
    DecimalRoundTrip(processId);
  }

  /** Distinct (process id, title) pairs never share a key: a decimal process
      id holds no colon. */
  lemma KeyInjective(p1: uint32, t1: string, p2: uint32, t2: string)
    requires GetWindowKey(p1, t1) == GetWindowKey(p2, t2)
    ensures p1 == p2 && t1 == t2
  {
    KeyRoundTrip(p1, t1);
    KeyRoundTrip(p2, t2);
  }

  /** Each record is stored under the key of its own process id and title.
      Every record this model writes keeps it; a settings file edited by
      hand need not. */
  predicate KeysMatchRecords(m: map<string, WindowSettingsRecord>) {
    forall k :: k in m ==> GetWindowKey(m[k].processId, m[k].title) == k
  }

  /** In a store whose keys match their records, the record found under a
      window's key belongs to that very process id and title. */
  lemma RecordBelongsToWindow(m: map<string, WindowSettingsRecord>, processId: uint32, title: string)
    requires KeysMatchRecords(m)
    requires GetWindowKey(processId, title) in m
    ensures m[GetWindowKey(processId, title)].processId == processId
    ensures m[GetWindowKey(processId, title)].title == title
  {
    var r := m[GetWindowKey(processId, title)];
    KeyInjective(r.processId, r.title, processId, title);
  }

  /** The record saved under `key`, if any (`TryGetValue` on the dictionary). */
  function Lookup(m: map<string, WindowSettingsRecord>, key: string): Option<WindowSettingsRecord> {
    if key in m then Some(m[key]) else None
  }

  /** The `Settings` dictionary, and the snapshots of it handed to the
      settings file, oldest first. Reading and writing the file is not part
      of this model, so a store starts empty and a save only records the
      snapshot it would write. */
  class SettingsStore {
    var settings: map<string, WindowSettingsRecord>
    var written: seq<map<string, WindowSettingsRecord>>

    constructor ()
      ensures settings == map[] && written == []
    {
      settings, written := map[], [];
    }

    /** `Settings.TryGetValue(key, out record)`. */
    method TryGetValue(key: string) returns (found: Option<WindowSettingsRecord>)
      ensures found == Lookup(settings, key)
      ensures found.Some? <==> key in settings
      ensures found.Some? ==> found.value == settings[key]
    {
      found := if key in settings then Some(settings[key]) else None;
    }

    /** `Settings.ContainsKey(key)`: the "has saved setting" marker of the
        window list. */
    method ContainsKey(key: string) returns (present: bool)
      ensures present <==> key in settings
    {
      present := key in settings;
    }

    /** `Settings[key] = record`: inserts or overwrites one entry. */
    method Put(key: string, record: WindowSettingsRecord)
      modifies this
      ensures settings == old(settings)[key := record]
      ensures written == old(written)
    {
      settings := settings[key := record];
    }

    /** `SaveSettings`: writes a full snapshot of the dictionary. */
    method SaveSettings()
      modifies this
      ensures settings == old(settings)
      ensures written == old(written) + [settings]
    {
      written := written + [settings];
    }
  }
}
