# Window Overlay Manager — a Dafny model of its decision layer

The Window Overlay Manager is a console tool. It lists the visible top-level
windows of a desktop session. The user picks one and sets three overrides on it:
opacity (0–255), click-through and always-on-top. The settings that applied
successfully are saved per window, under the key `"{processId}:{title}"`.

This project models the logic around the Win32 calls and proves properties of it.
The native functions are treated as oracles. What they report is an input to the
model: a list of native window records for the enumeration, and a record of call
results (including which call, if any, raises) for an apply. The model returns the
calls it makes as a trace, and the log messages as a list of events.

Modules, one per component of `Program.cs`:

- `Format`: the .NET primitives used. These are `byte` and `uint`, decimal
  rendering of integers, `byte.TryParse`/`int.TryParse` in `NumberStyles.Integer`, and
  `char.IsWhiteSpace` / `string.IsNullOrWhiteSpace`.
- `SettingsManager`: the saved record and the identity key with its inverse. It
  also holds the `Settings` dictionary as the class `SettingsStore`, with a `map`
  field that the methods reassign.
- `WindowManager`: enumeration as a loop over the native window list, the
  extended-style bit update, and `ApplySettings` with its early returns.
- `UIHelper`: what the two prompts decide.
- `Program`: the prompt defaults, the store update of `ProcessWindowSelection`,
  the window-list markers, the menu dispatch, and one pass of the main loop.
- `Wrappers`: `Option`.

## Model

| member | source | states |
|---|---|---|
| `Format.NatToDecimal` | Program.cs:83 | The rendering of a process id contains only ASCII digits and is never empty. It has no leading zero unless the id is 0. |
| `Format.DecimalRoundTrip` | Program.cs:83 | Reading a rendered number back gives the number. |
| `Format.NatToDecimalInjective` | Program.cs:83 | Distinct process ids render differently. |
| `Format.IsWhiteSpace` | Program.cs:162 | No contract: the character set of `char.IsWhiteSpace` (U+0009–U+000D, U+0020, U+0085, U+00A0, U+1680, U+2000–U+200A, U+2028, U+2029, U+202F, U+205F, U+3000). |
| `Format.IsNullOrWhiteSpace` | Program.cs:222 | No contract: true for a missing string and for one made only of `char.IsWhiteSpace` characters. `PromptForByte`, `PromptForBool` and `ListedWindowsSound` state its use. |
| `Format.ParseInteger` | Program.cs:224 | No contract: the `NumberStyles.Integer` grammar (leading and trailing U+0009–U+000D or space, an optional `+` or `-`, one or more ASCII digits), read as an unbounded integer. `ParseIntegerChars` and the round-trip lemmas state its properties. |
| `Format.ParseIntegerChars` | Program.cs:224 | Every character of a string that parses is a digit, a sign, or U+0009–U+000D or space. |
| `Format.ParseByte` | Program.cs:224 | A parsed byte is the integer the string denotes. A string fails exactly when it is not an integer string or its value is outside 0..255, so `-0` is 0 and `-1` fails. |
| `Format.ParseInt32` | Program.cs:259 | A parsed menu choice is the integer the line denotes and lies in the 32-bit signed range. A line fails exactly when it is not an integer string or out of range. An empty line never parses. |
| `Format.ParseInt32RoundTrip` | Program.cs:259 | Every 32-bit integer typed in decimal (with `-` for negatives) parses to itself. |
| `Format.ParseByteRoundTrip` | Program.cs:224 | Every byte typed in canonical decimal parses to itself. |
| `SettingsManager.GetWindowKey` | Program.cs:83 | The key is the decimal pid, then `:` at position len(pid), then the title unchanged. |
| `SettingsManager.SplitKey` | Program.cs:83 | Inverse of the key: any key it accepts is exactly GetWindowKey of the pid and title it returns. |
| `SettingsManager.KeyRoundTrip` | Program.cs:83 | Splitting GetWindowKey(pid, title) gives back (pid, title). |
| `SettingsManager.KeyInjective` | Program.cs:83 | Equal keys imply equal process ids and equal titles. The key is injective. |
| `SettingsManager.RecordBelongsToWindow` | Program.cs:42 | In a store where each record sits under its own key, the record found under a window's key has that window's pid and title. |
| `SettingsManager.SettingsStore.constructor` | Program.cs:42 | A new store is empty and has written no snapshot. |
| `SettingsManager.SettingsStore.TryGetValue` | Program.cs:309 | Returns `Lookup` of the dictionary: a record exactly when the key is present, and then the stored record. |
| `SettingsManager.SettingsStore.ContainsKey` | Program.cs:293 | True exactly when the key is present: the "has saved setting" marker. |
| `SettingsManager.SettingsStore.Put` | Program.cs:335 | The new map is the old one with that key set to the record. No snapshot is written. |
| `SettingsManager.SettingsStore.SaveSettings` | Program.cs:69-81 | The map is unchanged and one full snapshot of it is appended to the written snapshots. |
| `WindowManager.Listed` | Program.cs:152-163 | No contract: the callback's four tests (not the shell window, visible, non-zero title length, title not null or white space). `ListedWindowsSound` and `ListedWindowsComplete` state that the enumeration keeps exactly the windows passing it. |
| `WindowManager.ListedWindows` | Program.cs:150-168 | The filtered list is never longer than the native list. |
| `WindowManager.ListedWindowsAppend` | Program.cs:150-168 | Filtering preserves order: listing a+b is listing a, then listing b. |
| `WindowManager.ListedWindowsSound` | Program.cs:152-166 | Every listed entry is a native non-shell, visible window with a non-zero title length and a non-blank title. The entry carries that window's own handle, title and pid. |
| `WindowManager.ListedWindowsComplete` | Program.cs:152-166 | Every native window meeting the four conditions is listed. |
| `WindowManager.ListedWindowsExample` | Program.cs:152-163 | An invisible window, an empty title, the shell window and a blank title are all excluded. Only the ordinary window is listed. |
| `WindowManager.EnumerationStop` | Program.cs:148-173 | The callback count never exceeds the window count. Without an exception every window is visited. |
| `WindowManager.EnumerateWindows` | Program.cs:143-175 | Returns exactly the listed windows of the prefix visited before any exception, in order. One error is logged exactly when an exception occurred. |
| `WindowManager.FlagUpdateIsStyleUpdate` | Program.cs:185-186 | Setting WS_EX_LAYERED and then setting or clearing WS_EX_TRANSPARENT gives 0x80000 set, and 0x20 set exactly when clickThrough holds. Every other bit matches the value read. |
| `WindowManager.StyleUpdatedOtherBits` | Program.cs:185-186 | For any single bit other than the two flags, the new style holds it exactly when the style read does. |
| `WindowManager.StyleUpdatedUnique` | Program.cs:185-186 | The style-bit properties determine the new style uniquely. |
| `WindowManager.StyleUpdateIdempotent` | Program.cs:185-186 | Updating an already-updated style with the same clickThrough leaves it unchanged. |
| `WindowManager.CallsAttempted` | Program.cs:181-204 | Between one and four calls are made. A step is attempted exactly when every earlier call returned, and SetWindowPos needs SetLayeredWindowAttributes to succeed first. |
| `WindowManager.ApplySettings` | Program.cs:177-213 | Result is true iff no call raised and both SetLayeredWindowAttributes and SetWindowPos succeeded. Calls go in order; SetWindowLong writes the updated style. Alpha is `transparency` with LWA_ALPHA. SetWindowPos uses HWND_TOPMOST iff alwaysOnTop, else HWND_NOTOPMOST, with NOMOVE\|NOSIZE\|NOACTIVATE. It is skipped when the layered call fails. The log matches ApplyLog. |
| `WindowManager.ApplyLog` | Program.cs:181-211 | No contract: the log of one apply. A warning comes for each zero style result that was returned. Then at most one error follows, for the exception, the failed layered call or the failed position call. `ApplyLogReportsFailure` states its properties. |
| `WindowManager.ApplyLogReportsFailure` | Program.cs:181-211 | An apply logs at most three messages. It fails exactly when its log ends with an error, and every message before the last is a warning. |
| `WindowManager.StyleResultsAreSoft` | Program.cs:181-189 | The style read and the SetWindowLong result change neither the outcome nor which calls are made. |
| `UIHelper.PromptForByte` | Program.cs:218-228 | A missing, empty or white-space answer gives the default. A non-blank answer that parses gives the parsed byte. Any other answer gives the default. |
| `UIHelper.PromptForByteTyped` | Program.cs:222-225 | A byte typed in decimal is the answer, whatever the default. |
| `UIHelper.PromptForByteInvalid` | Program.cs:224-227 | An answer containing a character that is not white space, a digit, `+` or `-` keeps the default. |
| `UIHelper.PromptForByteSigned` | Program.cs:224-225 | A leading sign is accepted: `+7` gives 7 and `-0` gives 0. |
| `UIHelper.PromptForByteSpaced` | Program.cs:224-225 | Surrounding spaces and leading zeros are accepted: ` 0200 ` gives 200. |
| `UIHelper.PromptForByteOutOfRange` | Program.cs:224-227 | `-1` and `256` keep the default. |
| `UIHelper.EqualsIgnoreCaseY` | Program.cs:236 | Compared ordinally ignoring case, only `y` and `Y` equal `"y"`. |
| `UIHelper.PromptForBool` | Program.cs:230-237 | A missing, empty or white-space answer gives the default. Any other answer means yes exactly when it is `y` or `Y`, so `yes` and ` y` mean no. |
| `Program.PromptDefaults` | Program.cs:316-318 | No contract: the saved values when there is a record, else 255, false, false. `DefaultFallback` and `DefaultsFromRecord` state both cases. |
| `Program.RequestedSettings` | Program.cs:316-322 | No contract: the three prompts answered, with defaults from the record looked up under the window's key. `DefaultsFromRecord`, `DefaultFallback` and `ReapplyKeepsStore` state its properties. |
| `Program.SelectionEffect` | Program.cs:324-344 | On failure the store is unchanged. On success the key set grows by the window's key only. That key holds a record with the window's pid, title and the requested values. Every other key keeps its record. |
| `Program.DefaultFallback` | Program.cs:316-318 | No saved record, Enter at every prompt and a successful apply save {255, false, false} for the window. |
| `Program.DefaultsFromRecord` | Program.cs:309-318 | With a saved record, pressing Enter at every prompt requests exactly the saved values. |
| `Program.ReapplyKeepsStore` | Program.cs:324-335 | Re-applying the saved values of a window leaves the store equal, in a store whose records sit under their own keys. |
| `Program.ApplyTwiceIsIdempotent` | Program.cs:306-344 | After a successful apply, a second successful one with Enter at every prompt leaves the store equal. This holds even through a different handle with the same pid and title. |
| `Program.OtherWindowsUnaffected` | Program.cs:308-335 | Selecting a window never changes the lookup for a window that differs in pid or title. |
| `Program.SavedRecordFoundAgain` | Program.cs:308-335 | After a successful apply, a window with the same pid and title finds the new record. |
| `Program.SelectionKeepsKeysMatching` | Program.cs:308-335 | Selecting a window keeps every record under the key of its own pid and title. |
| `Program.ProcessWindowSelection` | Program.cs:306-344 | Requests the prompt values from the saved record or the defaults. Succeeds iff the apply succeeds. The new store is SelectionEffect of the old one. A snapshot is saved exactly on success. SetWindowLong, SetLayeredWindowAttributes and SetWindowPos go to the window's handle. SetWindowLong writes the updated style. The alpha is the requested transparency. SetWindowPos gets HWND_TOPMOST or HWND_NOTOPMOST as requested, position and size 0 and NOMOVE\|NOSIZE\|NOACTIVATE. |
| `Program.SavedSettingMarkers` | Program.cs:290-295 | One marker per listed window, true exactly when that window's key is in the store. |
| `Program.ParseChoice` | Program.cs:259 | No contract: `int.TryParse` on the console line, where a missing line does not parse. `TypedChoice` states that typed numbers come back. |
| `Program.Dispatch` | Program.cs:259-275 | An unparsable line is invalid input. -1 exits and 0 refreshes. n in 1..Count selects index n-1. Every other number is an invalid selection. |
| `Program.TypedChoice` | Program.cs:259-275 | Typing a listed window's number selects that window. Typing -1 exits. |
| `Program.MenuStep` | Program.cs:253-276 | One pass of the loop: the windows are the enumeration result, and the choice is the dispatch of the parsed line. The store changes only when a listed window is selected, and then as SelectionEffect says. A successful apply saves one snapshot of the new map. Without one, neither the map nor the saved snapshots change. |

Two facts about the code that the model keeps:

- `EnumerateWindows` ignores the return value of `EnumWindows`. Only an exception is logged.
- `ApplySettings` returns as soon as `SetLayeredWindowAttributes` fails. `SetWindowPos` is then not attempted.

## Left out

- Win32 semantics: all P/Invoke declarations are oracles. Their results are inputs, and the calls are recorded as a trace.
- The `EnumWindows` callback mechanism is a loop over a given sequence of native window records. The ignored boolean result of `EnumWindows` has no counterpart.
- `GetShellWindow` is called outside the `try` block, so an exception from it would propagate out of `EnumerateWindows`. The model takes the shell handle as an input and does not model that exception.
- `GetWindowText` buffer sizing is not modelled. The title in a native window record is what the call returned, and its length field is what `GetWindowTextLength` returned; that length is taken to be non-negative.
- Exceptions are modelled only as "this native call raises". Other sources of exceptions, such as out-of-memory, are not modelled.
- `LoadSettings` and the JSON file format are not modelled: a store starts empty. `SaveSettings` records a snapshot of the map it would write but does no file I/O, and its failure is not modelled.
- `Logger` is not modelled: no file, timestamps or console fallback. `EnumerateWindows` and `ApplySettings` return their messages as an event list. The info and error messages of `ProcessWindowSelection` and `Main` are dropped.
- Console output (`DisplayWindowList`, colours, prompt texts, "Invalid input." messages) and `UIHelper.Pause` are not modelled. From the window list, only the saved-setting marker is kept.
- The `while (true)` loop of `Main` is not modelled, because it is interactive and does not terminate. `MenuStep` models one pass of its body.
- Format.ParseInteger: `+` and `-` are the invariant culture's signs. Other cultures' sign strings are not modelled. Neither are the trailing NUL characters that .NET's parser also skips. `ParseByte` and `ParseInt32` inherit both gaps.
- UIHelper.EqualsOrdinalIgnoreCase: upper-cases ASCII letters only. This is enough for the one comparison with `"y"`.
- Strings are sequences of Unicode scalar values. Lone UTF-16 surrogates in window titles cannot be represented.
- Window handles (`IntPtr`) are unbounded integers.
