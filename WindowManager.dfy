/** The window manager: listing the desktop's top-level windows and applying
    an opacity / click-through / always-on-top override to one of them.
    The native functions are oracles: what they report is given as input
    (a list of native windows for the enumeration, a record of results for
    the apply), and the calls the model makes are returned as a trace. */
module WindowManager {
  import opened Wrappers
  import opened Format

  /** A native window handle (`IntPtr`), opaque to the program. */
  type Handle = int

  const GWL_EXSTYLE: int := -20
  const WS_EX_LAYERED: bv32 := 0x0008_0000
  const WS_EX_TRANSPARENT: bv32 := 0x0000_0020
  const LWA_ALPHA: bv32 := 0x2

  const HWND_TOPMOST: Handle := -1
  const HWND_NOTOPMOST: Handle := -2
  const SWP_NOSIZE: bv32 := 0x0001
  const SWP_NOMOVE: bv32 := 0x0002
  const SWP_NOACTIVATE: bv32 := 0x0010

  /** One entry of the enumeration result. */
  datatype WindowInfo = WindowInfo(hwnd: Handle, title: string, processId: uint32)

  /** The messages the program logs; their wording is not modelled. */
  datatype LogLevel = Info | Warning | Error
  datatype LogTopic =
    | EnumerationException
    | GetWindowLongZero
    | SetWindowLongZero
    | LayeredAttributesFailed
    | SetWindowPosFailed
    | ApplyException
  datatype LogEvent = LogEvent(level: LogLevel, topic: LogTopic)

  // ---------------------------------------------------------------------------
  // Enumeration

  /** What the native layer reports about one top-level window, in the order
      `EnumWindows` visits them: `IsWindowVisible`, `GetWindowTextLength`,
      the text `GetWindowText` returns and `GetWindowThreadProcessId`. */
  datatype NativeWindow = NativeWindow(
    hwnd: Handle,
    visible: bool,
    titleLength: nat,
    title: string,
    processId: uint32)

  /** The callback's filter: not the shell window, visible, a non-zero title
      length and a title that is not blank. */
  predicate Listed(w: NativeWindow, shellWindow: Handle) {
    w.hwnd != shellWindow && w.visible && w.titleLength != 0
    && !IsNullOrWhiteSpace(Some(w.title))
  }

  function InfoOf(w: NativeWindow): WindowInfo {
    WindowInfo(w.hwnd, w.title, w.processId)
  }

  /** The windows of `ws` that pass the filter, in enumeration order, each
      with its own handle, title and process id. */
  function ListedWindows(ws: seq<NativeWindow>, shellWindow: Handle): (r: seq<WindowInfo>)
    ensures |r| <= |ws|
  {
    if ws == [] then []
    else
      var last := ws[|ws| - 1];
      ListedWindows(ws[..|ws| - 1], shellWindow) + (if Listed(last, shellWindow) then [InfoOf(last)] else [])
  }

  /** Filtering is order-preserving: listing two runs of windows one after
      the other is listing each run and concatenating. */
  lemma {:induction false} ListedWindowsAppend(a: seq<NativeWindow>, b: seq<NativeWindow>, shellWindow: Handle)
    ensures ListedWindows(a + b, shellWindow) == ListedWindows(a, shellWindow) + ListedWindows(b, shellWindow)
    decreases |b|
  {
    if b == [] {
      assert a + b == a;
    } else {
      var b' := b[..|b| - 1];
      assert (a + b)[..|a + b| - 1] == a + b';
      ListedWindowsAppend(a, b', shellWindow);
    }
  }

  /** Every listed entry comes from a window that passes the filter. */
  lemma {:induction false} ListedWindowsSound(ws: seq<NativeWindow>, shellWindow: Handle, x: WindowInfo)
    requires x in ListedWindows(ws, shellWindow)
    ensures exists j :: 0 <= j < |ws| && Listed(ws[j], shellWindow) && x == InfoOf(ws[j])
  {
    var front := ws[..|ws| - 1];
    if x in ListedWindows(front, shellWindow) {
      ListedWindowsSound(front, shellWindow, x);
      var j :| 0 <= j < |front| && Listed(front[j], shellWindow) && x == InfoOf(front[j]);
      assert ws[j] == front[j];
    } else {
      assert Listed(ws[|ws| - 1], shellWindow) && x == InfoOf(ws[|ws| - 1]);
    }
  }

  /** Every window that passes the filter is listed. */
  lemma ListedWindowsComplete(ws: seq<NativeWindow>, shellWindow: Handle, j: nat)
    requires j < |ws| && Listed(ws[j], shellWindow)
    ensures InfoOf(ws[j]) in ListedWindows(ws, shellWindow)
  {
    ListedWindowsAppend(ws[..j], ws[j..], shellWindow);
    ListedWindowsAppend([ws[j]], ws[j + 1..], shellWindow);
    assert ws == ws[..j] + ws[j..];
    assert ws[j..] == [ws[j]] + ws[j + 1..];
    assert ListedWindows([ws[j]], shellWindow) == [InfoOf(ws[j])] by {
      assert [ws[j]][..0] == [];
    }
  }

  /** A desktop holding an invisible window, a window with an empty title,
      the shell window, a window titled with spaces only and one ordinary
      window lists the ordinary window alone. */
  lemma ListedWindowsExample(shell: Handle)
    ensures var desktop := [
        NativeWindow(shell + 1, false, 7, "Hidden!", 10),
        NativeWindow(shell + 2, true, 0, "", 11),
        NativeWindow(shell, true, 7, "Program", 12),
        NativeWindow(shell + 3, true, 2, "  ", 13),
        NativeWindow(shell + 4, true, 7, "Notepad", 14)];
      ListedWindows(desktop, shell) == [WindowInfo(shell + 4, "Notepad", 14)]
  {
    var desktop := [
        NativeWindow(shell + 1, false, 7, "Hidden!", 10),
        NativeWindow(shell + 2, true, 0, "", 11),
        NativeWindow(shell, true, 7, "Program", 12),
        NativeWindow(shell + 3, true, 2, "  ", 13),
        NativeWindow(shell + 4, true, 7, "Notepad", 14)];
    assert !IsWhiteSpace(desktop[4].title[0]) && IsWhiteSpace(desktop[3].title[1]);
    assert desktop[..1][..0] == [];
    assert ListedWindows(desktop[..1], shell) == [];
    assert desktop[..2][..1] == desktop[..1];
    assert ListedWindows(desktop[..2], shell) == [];
    assert desktop[..3][..2] == desktop[..2];
    assert ListedWindows(desktop[..3], shell) == [];
    assert desktop[..4][..3] == desktop[..3];
    assert ListedWindows(desktop[..4], shell) == [];
    assert desktop[..4] == desktop[..|desktop| - 1];
  }

  /** How many windows the callback handles before the exception, if any:
      `raisesAt == Some(k)` means the callback for window `k` raises, or,
      when `k` is past the last window, that the enumeration raises after it. */
  function EnumerationStop(count: nat, raisesAt: Option<nat>): (n: nat)
    ensures n <= count
    ensures raisesAt.None? ==> n == count
  {
    if raisesAt.Some? && raisesAt.value < count then raisesAt.value else count
  }

  /** `EnumerateWindows`: walks the native windows in order and keeps those
      that pass the filter; an exception ends the walk, is logged, and the
      windows collected so far are returned. */
  method EnumerateWindows(desktop: seq<NativeWindow>, shellWindow: Handle, raisesAt: Option<nat>)
    returns (windows: seq<WindowInfo>, log: seq<LogEvent>)
    ensures windows == ListedWindows(desktop[..EnumerationStop(|desktop|, raisesAt)], shellWindow)
    ensures log == if raisesAt.Some? then [LogEvent(Error, EnumerationException)] else []
  {
    windows, log := [], [];
    var i := 0;
    while i < |desktop| && raisesAt != Some(i)
      invariant 0 <= i <= |desktop|
      invariant raisesAt.Some? ==> i <= raisesAt.value
      invariant windows == ListedWindows(desktop[..i], shellWindow)
    {
      var w := desktop[i];
      assert desktop[..i + 1][..i] == desktop[..i];
      if w.hwnd != shellWindow && w.visible && w.titleLength != 0 && !IsNullOrWhiteSpace(Some(w.title)) {
        windows := windows + [WindowInfo(w.hwnd, w.title, w.processId)];
      }
      i := i + 1;
    }
    if raisesAt.Some? {
      log := log + [LogEvent(Error, EnumerationException)];
    }
  }

  // ---------------------------------------------------------------------------
  // Extended style bits

  /** The bits the apply leaves as `GetWindowLong` reported them. */
  const KEPT_BITS: bv32 := !(WS_EX_LAYERED | WS_EX_TRANSPARENT)

  /** `after` is `before` with the layered bit set and the transparent bit
      set exactly when `clickThrough` holds, every other bit unchanged. */
  predicate StyleUpdated(before: bv32, after: bv32, clickThrough: bool) {
    && after & WS_EX_LAYERED == WS_EX_LAYERED
    && ((after & WS_EX_TRANSPARENT == WS_EX_TRANSPARENT) <==> clickThrough)
    && after & KEPT_BITS == before & KEPT_BITS
  }

  /** Setting the layered bit, then setting or clearing the transparent bit,
      is the update StyleUpdated describes. */
  lemma FlagUpdateIsStyleUpdate(before: bv32, clickThrough: bool)
    ensures var layered := before | WS_EX_LAYERED;
      StyleUpdated(before, if clickThrough then layered | WS_EX_TRANSPARENT else layered & !WS_EX_TRANSPARENT,
                   clickThrough)
  {
  }

  /** StyleUpdated, one bit at a time: for any single bit other than the two
      flags, `after` holds it exactly when `before` does. */
  lemma StyleUpdatedOtherBits(before: bv32, after: bv32, clickThrough: bool, bit: bv32)
    requires StyleUpdated(before, after, clickThrough)
    requires bit != 0 && bit & (bit - 1) == 0
    requires bit != WS_EX_LAYERED && bit != WS_EX_TRANSPARENT
    ensures after & bit == before & bit
  {
    assert bit & KEPT_BITS == bit;
  }

  /** The style-bit update determines its result. */
  lemma StyleUpdatedUnique(before: bv32, a: bv32, b: bv32, clickThrough: bool)
    requires StyleUpdated(before, a, clickThrough) && StyleUpdated(before, b, clickThrough)
    ensures a == b
  {
  }

  /** Re-applying the same click-through setting to an updated style leaves
      it as it is. */
  lemma StyleUpdateIdempotent(before: bv32, after: bv32, clickThrough: bool)
    requires StyleUpdated(before, after, clickThrough)
    ensures StyleUpdated(after, after, clickThrough)
  {
  }

  // ---------------------------------------------------------------------------
  // Applying an override

  /** The native calls of `ApplySettings`, with their arguments. */
  datatype NativeCall =
    | GetWindowLong(hwnd: Handle, index: int)
    | SetWindowLong(hwnd: Handle, index: int, newLong: bv32)
    | SetLayeredWindowAttributes(hwnd: Handle, colorKey: bv32, alpha: byte, flags: bv32)
    | SetWindowPos(hwnd: Handle, insertAfter: Handle, x: int, y: int, cx: int, cy: int, flags: bv32)

  /** The four native steps, in the order they are attempted. */
  datatype ApplyStep = ReadStyle | WriteStyle | SetAlpha | SetTopmost

  function StepIndex(s: ApplyStep): nat {
    match s
    case ReadStyle => 0
    case WriteStyle => 1
    case SetAlpha => 2
    case SetTopmost => 3
  }

  /** What the native layer reports for one apply: the style `GetWindowLong`
      returns, what `SetWindowLong` returns (its zero is the failure
      signal), whether the two boolean calls succeed, and which call, if
      any, raises an exception instead of returning. */
  datatype ApplyResponses = ApplyResponses(
    styleRead: bv32,
    styleWriteResult: bv32,
    alphaOk: bool,
    topmostOk: bool,
    raisesAt: Option<ApplyStep>)

  /** The success condition: no exception, and both the layered-attributes
      call and the position call succeed. The two style-bit results play no
      part. */
  predicate ApplySucceeds(native: ApplyResponses) {
    native.raisesAt.None? && native.alphaOk && native.topmostOk
  }

  /** Whether the apply gets as far as attempting `step`: every earlier call
      returned, and the position call is attempted only after the
      layered-attributes call succeeded. */
  predicate Reached(native: ApplyResponses, step: ApplyStep) {
    match step
    case ReadStyle => true
    case WriteStyle => native.raisesAt != Some(ReadStyle)
    case SetAlpha => native.raisesAt != Some(ReadStyle) && native.raisesAt != Some(WriteStyle)
    case SetTopmost =>
      && native.raisesAt != Some(ReadStyle) && native.raisesAt != Some(WriteStyle)
      && native.raisesAt != Some(SetAlpha) && native.alphaOk
  }

  /** Whether the call of `step` is attempted and returns normally. */
  predicate Returned(native: ApplyResponses, step: ApplyStep) {
    Reached(native, step) && native.raisesAt != Some(step)
  }

  /** Whether some attempted call raises an exception. */
  predicate Raises(native: ApplyResponses) {
    native.raisesAt.Some? && Reached(native, native.raisesAt.value)
  }

  /** How many native calls an apply attempts. */
  function CallsAttempted(native: ApplyResponses): (n: nat)
    ensures 1 <= n <= 4
    ensures forall s :: Reached(native, s) <==> StepIndex(s) < n
  {
    if Reached(native, SetTopmost) then 4
    else if Reached(native, SetAlpha) then 3
    else if Reached(native, WriteStyle) then 2
    else 1
  }

  /** The `hWndInsertAfter` argument of the position call. */
  function InsertAfter(alwaysOnTop: bool): Handle {
    if alwaysOnTop then HWND_TOPMOST else HWND_NOTOPMOST
  }

  /** What an apply logs, in order: a warning for each zero style result
      that was returned, then at most one error, for the exception or for
      the first boolean call that failed. */
  function ApplyLog(native: ApplyResponses): seq<LogEvent> {
    (if Returned(native, ReadStyle) && native.styleRead == 0
     then [LogEvent(Warning, GetWindowLongZero)] else [])
    + (if Returned(native, WriteStyle) && native.styleWriteResult == 0
       then [LogEvent(Warning, SetWindowLongZero)] else [])
    + (if Raises(native) then [LogEvent(Error, ApplyException)]
       else if Returned(native, SetAlpha) && !native.alphaOk then [LogEvent(Error, LayeredAttributesFailed)]
       else if Returned(native, SetTopmost) && !native.topmostOk then [LogEvent(Error, SetWindowPosFailed)]
       else [])
  }

  /** The log reports every failure: an apply fails exactly when its log
      ends with an error, and every entry before the last is a warning. */
  lemma ApplyLogReportsFailure(native: ApplyResponses)
    ensures |ApplyLog(native)| <= 3
    ensures var log := ApplyLog(native);
      !ApplySucceeds(native) <==> |log| > 0 && log[|log| - 1].level == Error
    ensures var log := ApplyLog(native);
      forall i :: 0 <= i < |log| - 1 ==> log[i].level == Warning
  {
  }

  /** `ApplySettings`: reads the extended style, sets the layered bit and sets
      or clears the transparent bit, writes it back (a zero from either
      style call is only a warning), sets the alpha value and then the
      topmost state; a failing layered-attributes call returns at once, and
      any exception makes the result false. */
  method ApplySettings(hwnd: Handle, transparency: byte, clickThrough: bool, alwaysOnTop: bool,
                       native: ApplyResponses)
    returns (ok: bool, calls: seq<NativeCall>, log: seq<LogEvent>)
    ensures ok <==> ApplySucceeds(native)
    ensures |calls| == CallsAttempted(native)
    ensures calls[0] == GetWindowLong(hwnd, GWL_EXSTYLE)
    ensures |calls| > 1 ==>
      && calls[1].SetWindowLong? && calls[1].hwnd == hwnd && calls[1].index == GWL_EXSTYLE
      && StyleUpdated(native.styleRead, calls[1].newLong, clickThrough)
    ensures |calls| > 2 ==> calls[2] == SetLayeredWindowAttributes(hwnd, 0, transparency, LWA_ALPHA)
    ensures |calls| > 3 ==>
      calls[3] == SetWindowPos(hwnd, InsertAfter(alwaysOnTop), 0, 0, 0, 0, SWP_NOMOVE | SWP_NOSIZE | SWP_NOACTIVATE)
    ensures !native.alphaOk ==> !ok && |calls| <= 3
    ensures log == ApplyLog(native)
  {
    calls, log := [GetWindowLong(hwnd, GWL_EXSTYLE)], [];
    if native.raisesAt == Some(ReadStyle) {
      return false, calls, log + [LogEvent(Error, ApplyException)];
    }
    var exStyle := native.styleRead;
    if exStyle == 0 {
      log := log + [LogEvent(Warning, GetWindowLongZero)];
    }

    exStyle := exStyle | WS_EX_LAYERED;
    exStyle := if clickThrough then exStyle | WS_EX_TRANSPARENT else exStyle & !WS_EX_TRANSPARENT;
    FlagUpdateIsStyleUpdate(native.styleRead, clickThrough);
    calls := calls + [SetWindowLong(hwnd, GWL_EXSTYLE, exStyle)];
    if native.raisesAt == Some(WriteStyle) {
      return false, calls, log + [LogEvent(Error, ApplyException)];
    }
    if native.styleWriteResult == 0 {
      log := log + [LogEvent(Warning, SetWindowLongZero)];
    }

    calls := calls + [SetLayeredWindowAttributes(hwnd, 0, transparency, LWA_ALPHA)];
    if native.raisesAt == Some(SetAlpha) {
      return false, calls, log + [LogEvent(Error, ApplyException)];
    }
    if !native.alphaOk {
      return false, calls, log + [LogEvent(Error, LayeredAttributesFailed)];
    }

    var topMostFlag := if alwaysOnTop then HWND_TOPMOST else HWND_NOTOPMOST;
    calls := calls + [SetWindowPos(hwnd, topMostFlag, 0, 0, 0, 0, SWP_NOMOVE | SWP_NOSIZE | SWP_NOACTIVATE)];
    if native.raisesAt == Some(SetTopmost) {
      return false, calls, log + [LogEvent(Error, ApplyException)];
    }
    if !native.topmostOk {
      return false, calls, log + [LogEvent(Error, SetWindowPosFailed)];
    }
    assert native.raisesAt.Some? ==>
      var s := native.raisesAt.value; s.ReadStyle? || s.WriteStyle? || s.SetAlpha? || s.SetTopmost?;
    return true, calls, log;
  }

  /** The zero results of the two style calls never decide the outcome, nor
      does the style that was read. */
  lemma StyleResultsAreSoft(native: ApplyResponses, styleRead: bv32, styleWriteResult: bv32)
    ensures ApplySucceeds(native) == ApplySucceeds(native.(styleRead := styleRead, styleWriteResult := styleWriteResult))
    ensures CallsAttempted(native) == CallsAttempted(native.(styleRead := styleRead, styleWriteResult := styleWriteResult))
  {
  }
}
