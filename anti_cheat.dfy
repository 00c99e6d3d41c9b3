/** The anti-cheat hook (client/src/hooks/use-anti-cheat.ts): which key
    presses are blocked, and what each handler prevents and reports to the
    server. A report is the `type` of the posted body. */
module AntiCheat {
  import opened Wrappers

  datatype KeyEvent = KeyEvent(key: string, keyCode: int, ctrlKey: bool)

  datatype Report = TabSwitch | ShortcutAttempt

  /** What a handler does: whether it prevents the default action and what
      it posts. */
  datatype Effect = Effect(preventDefault: bool, report: Option<Report>)

  const PrintScreenKey := "PrintScreen"
  const PrintScreenKeyCode := 44

  /** The `type` string sent for a report. */
  function ReportType(r: Report): (t: string)
    ensures t == "tab_switch" <==> r == TabSwitch
    ensures t == "shortcut_attempt" <==> r == ShortcutAttempt
  {
    match r
    case TabSwitch => "tab_switch"
    case ShortcutAttempt => "shortcut_attempt"
  }

  /** The shortcut test: PrintScreen by key or key code, or Ctrl with one of
      the lower-case keys c, v, i, j. */
  predicate IsBlockedShortcut(e: KeyEvent): (b: bool)
    ensures e.key == PrintScreenKey || e.keyCode == PrintScreenKeyCode ==> b
    ensures e.ctrlKey && e.key in ["c", "v", "i", "j"] ==> b
    ensures e.key != PrintScreenKey && e.key !in ["c", "v", "i", "j"] && e.keyCode != PrintScreenKeyCode ==> !b
  {
    || e.key == PrintScreenKey
    || e.keyCode == PrintScreenKeyCode
    || (e.ctrlKey && (e.key == "c" || e.key == "v" || e.key == "i" || e.key == "j"))
  }

  /** `handleKeyDown`: a blocked key is prevented and reported once as a
      shortcut attempt; any other key passes untouched. */
  function OnKeyDown(e: KeyEvent): (r: Effect)
    ensures r.preventDefault <==> IsBlockedShortcut(e)
    ensures r.report.Some? <==> IsBlockedShortcut(e)
    ensures r.report.Some? ==> r.report.value == ShortcutAttempt
  {
    if IsBlockedShortcut(e) then Effect(true, Some(ShortcutAttempt)) else Effect(false, None)
  }

  /** `handleVisibilityChange`: reports a tab switch iff the page is hidden. */
  function OnVisibilityChange(hidden: bool): (r: Effect)
    ensures !r.preventDefault
    ensures r.report.Some? <==> hidden
    ensures r.report.Some? ==> r.report.value == TabSwitch
  {
    Effect(false, if hidden then Some(TabSwitch) else None)
  }

  /** `handleContextMenu`: always prevented, never reported. */
  function OnContextMenu(): (r: Effect)
    ensures r.preventDefault && r.report.None?
  {
    Effect(true, None)
  }

  /** The letter test is case-sensitive: Ctrl with an upper-case letter is
      let through unless its key code is the PrintScreen code. */
  lemma UpperCaseCtrlPasses(code: int)
    requires code != PrintScreenKeyCode
    ensures forall k :: k in ["C", "V", "I", "J"] ==> !IsBlockedShortcut(KeyEvent(k, code, true))
  {
  }

  /** Without Ctrl, only PrintScreen (by key or code) is blocked. */
  lemma WithoutCtrlOnlyPrintScreen(e: KeyEvent)
    requires !e.ctrlKey
    ensures IsBlockedShortcut(e) <==> e.key == PrintScreenKey || e.keyCode == PrintScreenKeyCode
  {
  }
}
