/** The proctoring hook (client/src/hooks/use-proctoring.ts): while the
    protector flag is on, browser events append violations to a list and
    some have their default action prevented. A violation is modelled by its
    kind; the message text carries a clock time, which is left out. */
module Proctoring {
  import opened Wrappers
  import LocalStorage

  /** Hook options; an option the caller leaves out is `false`. */
  datatype Options = Options(
    enableTabDetection: bool,
    enableCopyPasteProtection: bool,
    enableRightClickProtection: bool,
    enableScreenshotDetection: bool)

  datatype Event =
    | VisibilityChange(hidden: bool)
    | Blur
    | Copy
    | Cut
    | Paste
    | ContextMenu
    | KeyUp(key: string)

  datatype Violation = TabSwitch | FocusLost | ScreenshotAttempt

  /** What one event does: the violation it appends, if any, and whether
      its default action is prevented. */
  datatype Reaction = Reaction(violation: Option<Violation>, preventDefault: bool)

  const PrintScreenKey := "PrintScreen"

  /** The installed handler's reaction to `e`; with the protector off no
      handler is installed and nothing happens. */
  function React(opts: Options, enabled: bool, e: Event): (r: Reaction)
    ensures !enabled ==> r == Reaction(None, false)
    ensures r.violation == Some(TabSwitch) <==>
      enabled && e == VisibilityChange(true) && opts.enableTabDetection
    ensures r.violation == Some(FocusLost) <==> enabled && e.Blur? && opts.enableTabDetection
    ensures r.violation == Some(ScreenshotAttempt) <==>
      enabled && opts.enableScreenshotDetection && e == KeyUp(PrintScreenKey)
    ensures (e.Copy? || e.Cut? || e.Paste?) ==>
      r.violation.None? && r.preventDefault == (enabled && opts.enableCopyPasteProtection)
    ensures e.ContextMenu? ==>
      r.violation.None? && r.preventDefault == (enabled && opts.enableRightClickProtection)
    ensures r.violation.Some? ==> !r.preventDefault
    ensures (e.VisibilityChange? || e.Blur? || e.KeyUp?) ==> !r.preventDefault
  {
    if !enabled then Reaction(None, false)
    else
      match e
      case VisibilityChange(hidden) =>
        Reaction(if hidden && opts.enableTabDetection then Some(TabSwitch) else None, false)
      case Blur =>
        Reaction(if opts.enableTabDetection then Some(FocusLost) else None, false)
      case Copy => Reaction(None, opts.enableCopyPasteProtection)
      case Cut => Reaction(None, opts.enableCopyPasteProtection)
      case Paste => Reaction(None, opts.enableCopyPasteProtection)
      case ContextMenu => Reaction(None, opts.enableRightClickProtection)
      case KeyUp(key) =>
        Reaction(if opts.enableScreenshotDetection && key == PrintScreenKey then Some(ScreenshotAttempt) else None,
                 false)
  }

  function Appended(r: Reaction): seq<Violation>
  {
    if r.violation.Some? then [r.violation.value] else []
  }

  /** The violation list after the events `es`, starting from empty. */
  function Recorded(opts: Options, enabled: bool, es: seq<Event>): (vs: seq<Violation>)
    ensures TabSwitch in vs ==> opts.enableTabDetection && VisibilityChange(true) in es
    ensures FocusLost in vs ==> opts.enableTabDetection && Blur in es
    ensures ScreenshotAttempt in vs ==> opts.enableScreenshotDetection && KeyUp(PrintScreenKey) in es
  {
    if es == [] then []
    else Recorded(opts, enabled, es[..|es| - 1]) + Appended(React(opts, enabled, es[|es| - 1]))
  }

  /** Each event adds at most one violation. */
  lemma {:induction false} RecordedBounded(opts: Options, enabled: bool, es: seq<Event>)
    ensures |Recorded(opts, enabled, es)| <= |es|
  {
    if es != [] {
      RecordedBounded(opts, enabled, es[..|es| - 1]);
    }
  }

  /** With the protector off the list stays empty, whatever happens. */
  lemma {:induction false} DisabledRecordsNothing(opts: Options, es: seq<Event>)
    ensures Recorded(opts, false, es) == []
  {
    if es != [] {
      DisabledRecordsNothing(opts, es[..|es| - 1]);
    }
  }

  /** The list only grows at its end: what was recorded after `es` is a
      prefix of what is recorded after any continuation. */
  lemma {:induction false} RecordedOnlyAppends(opts: Options, enabled: bool, es: seq<Event>, more: seq<Event>)
    ensures var before := Recorded(opts, enabled, es);
            var after := Recorded(opts, enabled, es + more);
            |before| <= |after| && after[..|before|] == before
  {
    if more != [] {
      var init := more[..|more| - 1];
      assert (es + more)[..|es + more| - 1] == es + init;
      assert (es + more)[|es + more| - 1] == more[|more| - 1];
      RecordedOnlyAppends(opts, enabled, es, init);
    } else {
      assert es + more == es;
    }
  }

  /** Clipboard events and context menus never add a violation. */
  lemma {:induction false} ClipboardAndMenuRecordNothing(opts: Options, enabled: bool, es: seq<Event>)
    requires forall i :: 0 <= i < |es| ==> es[i].Copy? || es[i].Cut? || es[i].Paste? || es[i].ContextMenu?
    ensures Recorded(opts, enabled, es) == []
  {
    if es != [] {
      ClipboardAndMenuRecordNothing(opts, enabled, es[..|es| - 1]);
    }
  }

  /** One mounted hook. The options and the protector flag are what the
      latest render passed and read; the violation list is hook state and
      survives re-renders. */
  class Proctor {
    var options: Options
    var isProtectorEnabled: bool
    var violations: seq<Violation>

    /** The first render: the list starts empty. */
    constructor (options: Options, store: LocalStorage.Store)
      ensures this.options == options
      ensures isProtectorEnabled == LocalStorage.ReadsTrue(store.GetItem(LocalStorage.ProtectorModeKey))
      ensures violations == []
    {
      this.options := options;
      isProtectorEnabled := LocalStorage.ReadsTrue(store.GetItem(LocalStorage.ProtectorModeKey));
      violations := [];
    }

    /** A later render: the caller's new options are taken, the stored flag is
        read again, and the handlers the effect installs use both; the
        violations recorded so far are kept. */
    method Render(options: Options, store: LocalStorage.Store)
      modifies this
      ensures this.options == options
      ensures isProtectorEnabled == LocalStorage.ReadsTrue(store.GetItem(LocalStorage.ProtectorModeKey))
      ensures violations == old(violations)
    {
      this.options := options;
      isProtectorEnabled := LocalStorage.ReadsTrue(store.GetItem(LocalStorage.ProtectorModeKey));
    }

    /** Dispatches one browser event to the installed handler; returns whether
        the default action was prevented. */
    method Handle(e: Event) returns (prevented: bool)
      modifies this
      ensures options == old(options) && isProtectorEnabled == old(isProtectorEnabled)
      ensures violations == old(violations) + Appended(React(options, isProtectorEnabled, e))
      ensures prevented == React(options, isProtectorEnabled, e).preventDefault
    {
      var r := React(options, isProtectorEnabled, e);
      if r.violation.Some? {
        violations := violations + [r.violation.value];
      }
      prevented := r.preventDefault;
    }
  }
}
