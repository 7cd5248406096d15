/** The program's decision layer: the menu choice, and what selecting a
    window does to the settings store. */
module Program {
  import opened Wrappers
  import opened Format
  import opened SettingsManager
  import opened WindowManager
  import opened UIHelper

  // ---------------------------------------------------------------------------
  // Selecting a window

  /** The three answers typed after selecting a window, in prompt order
      (None when the console has no more input). */
  datatype Answers = Answers(transparency: Option<string>, clickThrough: Option<string>, alwaysOnTop: Option<string>)

  /** Pressing Enter at all three prompts. */
  const KEEP_CURRENT: Answers := Answers(Some(""), Some(""), Some(""))

  /** The three values an apply is asked for. */
  datatype Requested = Requested(transparency: byte, clickThrough: bool, alwaysOnTop: bool)

  /** The prompts' defaults: the saved values when there is a record, else
      opaque, not click-through and not on top. */
  function PromptDefaults(current: Option<WindowSettingsRecord>): Requested {
    match current
    case Some(r) => Requested(r.transparency, r.clickThrough, r.alwaysOnTop)
    case None => Requested(255, false, false)
  }

  /** The values the prompts yield for `window`, given the store `m`. */
  function RequestedSettings(m: map<string, WindowSettingsRecord>, window: WindowInfo, answers: Answers): Requested {
    var d := PromptDefaults(Lookup(m, GetWindowKey(window.processId, window.title)));
    Requested(
      PromptForByte(answers.transparency, d.transparency),
      PromptForBool(answers.clickThrough, d.clickThrough),
      PromptForBool(answers.alwaysOnTop, d.alwaysOnTop))
  }

  /** The record saved for `window` after applying `values` to it. */
  function RecordFor(window: WindowInfo, values: Requested): WindowSettingsRecord {
    WindowSettingsRecord(window.processId, window.title, values.transparency, values.clickThrough, values.alwaysOnTop)
  }

  /** The store after selecting `window`: on success the window's key holds
      a record of the window's identity and the applied values; on failure
      nothing changes; no other key ever changes. */
  function SelectionEffect(m: map<string, WindowSettingsRecord>, window: WindowInfo, answers: Answers,
                           native: ApplyResponses): (r: map<string, WindowSettingsRecord>)
    ensures !ApplySucceeds(native) ==> r == m
    ensures ApplySucceeds(native) ==>
      var key := GetWindowKey(window.processId, window.title);
      && r.Keys == m.Keys + {key}
      && r[key].processId == window.processId && r[key].title == window.title
      && Requested(r[key].transparency, r[key].clickThrough, r[key].alwaysOnTop)
         == RequestedSettings(m, window, answers)
    ensures forall k :: k in m && k != GetWindowKey(window.processId, window.title) ==> r[k] == m[k]
  {
    if ApplySucceeds(native)
    then m[GetWindowKey(window.processId, window.title) := RecordFor(window, RequestedSettings(m, window, answers))]
    else m
  }

  /** With no saved record, keeping every default saves an opaque window that
      is neither click-through nor on top. */
  lemma DefaultFallback(m: map<string, WindowSettingsRecord>, window: WindowInfo, native: ApplyResponses)
    requires GetWindowKey(window.processId, window.title) !in m
    requires ApplySucceeds(native)
    ensures SelectionEffect(m, window, KEEP_CURRENT, native)[GetWindowKey(window.processId, window.title)]
            == WindowSettingsRecord(window.processId, window.title, 255, false, false)
  {
  }

  /** With a saved record, the prompts default to the saved values. */
  lemma DefaultsFromRecord(m: map<string, WindowSettingsRecord>, window: WindowInfo)
    requires GetWindowKey(window.processId, window.title) in m
    ensures var r := m[GetWindowKey(window.processId, window.title)];
      RequestedSettings(m, window, KEEP_CURRENT) == Requested(r.transparency, r.clickThrough, r.alwaysOnTop)
  {
  }

  /** Re-applying the values already saved for a window leaves the store
      equal, whichever handle the window now has. */
  lemma ReapplyKeepsStore(m: map<string, WindowSettingsRecord>, window: WindowInfo, answers: Answers,
                          native: ApplyResponses)
    requires KeysMatchRecords(m)
    requires GetWindowKey(window.processId, window.title) in m
    requires var r := m[GetWindowKey(window.processId, window.title)];
      RequestedSettings(m, window, answers) == Requested(r.transparency, r.clickThrough, r.alwaysOnTop)
    ensures SelectionEffect(m, window, answers, native) == m
  {
    RecordBelongsToWindow(m, window.processId, window.title);
  }

  /** A successful apply followed by a second successful one that keeps
      every default leaves the same store, with the same record. */
  lemma ApplyTwiceIsIdempotent(m: map<string, WindowSettingsRecord>, window: WindowInfo, again: WindowInfo,
                               answers: Answers, first: ApplyResponses, second: ApplyResponses)
    requires again.processId == window.processId && again.title == window.title
    requires ApplySucceeds(first) && ApplySucceeds(second)
    ensures var m1 := SelectionEffect(m, window, answers, first);
      SelectionEffect(m1, again, KEEP_CURRENT, second) == m1
  {
    var m1 := SelectionEffect(m, window, answers, first);
    var key := GetWindowKey(window.processId, window.title);
    DefaultsFromRecord(m1, again);
    assert m1[key] == RecordFor(again, RequestedSettings(m1, again, KEEP_CURRENT));
  }

  /** Selecting one window never changes what is found for a window with a
      different process id or title. */
  lemma OtherWindowsUnaffected(m: map<string, WindowSettingsRecord>, window: WindowInfo, answers: Answers,
                               native: ApplyResponses, other: WindowInfo)
    requires other.processId != window.processId || other.title != window.title
    ensures var key := GetWindowKey(other.processId, other.title);
      Lookup(SelectionEffect(m, window, answers, native), key) == Lookup(m, key)
  {
    if GetWindowKey(other.processId, other.title) == GetWindowKey(window.processId, window.title) {
      KeyInjective(other.processId, other.title, window.processId, window.title);
    }
  }

  /** After a successful apply, any window with the same process id and
      title—a later enumeration's, with a new handle—finds the record. */
  lemma SavedRecordFoundAgain(m: map<string, WindowSettingsRecord>, window: WindowInfo, answers: Answers,
                              native: ApplyResponses, later: WindowInfo)
    requires ApplySucceeds(native)
    requires later.processId == window.processId && later.title == window.title
    ensures Lookup(SelectionEffect(m, window, answers, native), GetWindowKey(later.processId, later.title))
            == Some(RecordFor(later, RequestedSettings(m, window, answers)))
  {
  }

  /** Selecting a window keeps every record under its own key. */
  lemma SelectionKeepsKeysMatching(m: map<string, WindowSettingsRecord>, window: WindowInfo, answers: Answers,
                                   native: ApplyResponses)
    requires KeysMatchRecords(m)
    ensures KeysMatchRecords(SelectionEffect(m, window, answers, native))
  {
  }

  /** `ProcessWindowSelection`: looks the window's record up, prompts with
      its values (or the defaults) as defaults, applies the answers, and on
      success stores and saves the new record; on failure the store and the
      settings file are left alone. */
  method ProcessWindowSelection(store: SettingsStore, window: WindowInfo, answers: Answers, native: ApplyResponses)
    returns (success: bool, applied: Requested, calls: seq<NativeCall>)
    modifies store
    ensures applied == RequestedSettings(old(store.settings), window, answers)
    ensures success <==> ApplySucceeds(native)
    ensures store.settings == SelectionEffect(old(store.settings), window, answers, native)
    ensures store.written == if success then old(store.written) + [store.settings] else old(store.written)
    ensures |calls| == CallsAttempted(native) && calls[0] == GetWindowLong(window.hwnd, GWL_EXSTYLE)
    ensures |calls| > 1 ==>
      && calls[1].SetWindowLong? && calls[1].hwnd == window.hwnd && calls[1].index == GWL_EXSTYLE
      && StyleUpdated(native.styleRead, calls[1].newLong, applied.clickThrough)
    ensures |calls| > 2 ==> calls[2] == SetLayeredWindowAttributes(window.hwnd, 0, applied.transparency, LWA_ALPHA)
    ensures |calls| > 3 ==>
      calls[3] == SetWindowPos(window.hwnd, InsertAfter(applied.alwaysOnTop), 0, 0, 0, 0,
                               SWP_NOMOVE | SWP_NOSIZE | SWP_NOACTIVATE)
  {
    var key := GetWindowKey(window.processId, window.title);
    var currentSetting := store.TryGetValue(key);

    var defaultTransparency: byte := if currentSetting.Some? then currentSetting.value.transparency else 255;
    var defaultClickThrough := if currentSetting.Some? then currentSetting.value.clickThrough else false;
    var defaultAlwaysOnTop := if currentSetting.Some? then currentSetting.value.alwaysOnTop else false;

    var transparency := PromptForByte(answers.transparency, defaultTransparency);
    var clickThrough := PromptForBool(answers.clickThrough, defaultClickThrough);
    var alwaysOnTop := PromptForBool(answers.alwaysOnTop, defaultAlwaysOnTop);
    applied := Requested(transparency, clickThrough, alwaysOnTop);

    var log;
    success, calls, log := ApplySettings(window.hwnd, transparency, clickThrough, alwaysOnTop, native);
    if success {
      var newSetting := WindowSettingsRecord(window.processId, window.title, transparency, clickThrough, alwaysOnTop);
      store.Put(key, newSetting);
      store.SaveSettings();
    }
  }

  // ---------------------------------------------------------------------------
  // The window list and the menu

  /** The "has saved setting" marker of each listed window. */
  method SavedSettingMarkers(store: SettingsStore, windows: seq<WindowInfo>) returns (marks: seq<bool>)
    ensures |marks| == |windows|
    ensures forall i :: 0 <= i < |windows| ==>
      (marks[i] <==> GetWindowKey(windows[i].processId, windows[i].title) in store.settings)
  {
    marks := [];
    for i := 0 to |windows|
      invariant |marks| == i
      invariant forall j :: 0 <= j < i ==>
        (marks[j] <==> GetWindowKey(windows[j].processId, windows[j].title) in store.settings)
    {
      var hasSetting := store.ContainsKey(GetWindowKey(windows[i].processId, windows[i].title));
      marks := marks + [hasSetting];
    }
  }

  /** What the menu does with one line of input. */
  datatype Choice = Exit | Refresh | Select(index: nat) | InvalidInput | InvalidSelection

  /** `int.TryParse` on a console line; a missing line does not parse. */
  function ParseChoice(line: Option<string>): Option<int> {
    if line.None? then None else ParseInt32(line.value)
  }

  /** The menu dispatch: -1 exits, 0 refreshes, 1 to `count` selects that
      window (numbered from one), and everything else is invalid. */
  function Dispatch(choice: Option<int>, count: nat): (c: Choice)
    ensures c == InvalidInput <==> choice.None?
    ensures c == Exit <==> choice == Some(-1)
    ensures c == Refresh <==> choice == Some(0)
    ensures c.Select? <==> choice.Some? && 1 <= choice.value <= count
    ensures c.Select? ==> c.index < count && c.index + 1 == choice.value
    ensures c == InvalidSelection <==> choice.Some? && choice.value != -1 && (choice.value < 0 || choice.value > count)
  {
    match choice
    case None => InvalidInput
    case Some(n) =>
      if n == -1 then Exit
      else if n == 0 then Refresh
      else if n < 1 || n > count then InvalidSelection
      else Select(n - 1)
  }

  /** Typing a listed window's number selects it; typing -1 exits. */
  lemma TypedChoice(k: int, count: nat)
    requires 1 <= k <= count && k <= INT32_MAX
    ensures Dispatch(ParseChoice(Some(IntToDecimal(k))), count) == Select(k - 1)
    ensures Dispatch(ParseChoice(Some(IntToDecimal(-1))), count) == Exit
  {
    ParseInt32RoundTrip(k);
    ParseInt32RoundTrip(-1);
  }

  /** One pass of the main loop: enumerate, read a choice, and act on it.
      The store changes only when a listed window is selected, and then
      exactly as the selection's effect says. */
  method MenuStep(store: SettingsStore, desktop: seq<NativeWindow>, shellWindow: Handle, enumRaisesAt: Option<nat>,
                  line: Option<string>, answers: Answers, native: ApplyResponses)
    returns (choice: Choice, windows: seq<WindowInfo>, success: bool)
    modifies store
    ensures windows == ListedWindows(desktop[..EnumerationStop(|desktop|, enumRaisesAt)], shellWindow)
    ensures choice == Dispatch(ParseChoice(line), |windows|)
    ensures success <==> choice.Select? && ApplySucceeds(native)
    ensures choice.Select? ==>
      store.settings == SelectionEffect(old(store.settings), windows[choice.index], answers, native)
    ensures success ==> store.written == old(store.written) + [store.settings]
    ensures !success ==> store.settings == old(store.settings) && store.written == old(store.written)
  {
    var enumLog;
    windows, enumLog := EnumerateWindows(desktop, shellWindow, enumRaisesAt);
    choice := Dispatch(ParseChoice(line), |windows|);
    success := false;
    if choice.Select? {
      var applied, calls;
      success, applied, calls := ProcessWindowSelection(store, windows[choice.index], answers, native);
    }
  }
}
