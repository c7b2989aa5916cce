/**
 * The shortcuts tab of `PreferencesView`: its `@State` fields, the overlay hotkey's apply/revert rule, the
 * slot enable toggles and the status badge. Every save writes the settings to the store and re-applies them
 * to the hotkey registry.
 */
module Preferences {
  import opened Wrappers
  import opened Keyboard
  import opened Settings
  import opened HotKeys
  import ShortcutCaptureView

  /** `settings.togglePrimary?.enabled ?? false`. */
  function PrimaryEnabled(s: SettingsModel): bool
  {
    if s.togglePrimary.Some? then s.togglePrimary.value.enabled else false
  }

  /** `settings.toggleFallback?.enabled ?? true`. */
  function FallbackEnabled(s: SettingsModel): bool
  {
    if s.toggleFallback.Some? then s.toggleFallback.value.enabled else true
  }

  /** `settings.quickAddGlobal?.enabled ?? false`. */
  function QuickAddEnabled(s: SettingsModel): bool
  {
    if s.quickAddGlobal.Some? then s.quickAddGlobal.value.enabled else false
  }

  function SetEnabled(spec: Option<HotkeySpec>, on: bool): Option<HotkeySpec>
  {
    if spec.Some? then Some(spec.value.(enabled := on)) else None
  }

  /** The primary toggle's setter: a missing slot is seeded from the defaults, then only `enabled` changes. */
  function WithPrimaryEnabled(s: SettingsModel, on: bool): (r: SettingsModel)
    ensures PrimaryEnabled(r) == on
    ensures r.togglePrimary.Some?
    ensures var base := if s.togglePrimary.Some? then s.togglePrimary.value else Defaults().togglePrimary.value;
      r.togglePrimary.value.keyCode == base.keyCode && r.togglePrimary.value.modifiers == base.modifiers
    ensures r == s.(togglePrimary := r.togglePrimary)
  {
    var seeded := if s.togglePrimary.None? then s.(togglePrimary := Defaults().togglePrimary) else s;
    seeded.(togglePrimary := SetEnabled(seeded.togglePrimary, on))
  }

  /** The fallback toggle's setter, seeded the same way. */
  function WithFallbackEnabled(s: SettingsModel, on: bool): (r: SettingsModel)
    ensures FallbackEnabled(r) == on
    ensures r.toggleFallback.Some?
    ensures var base := if s.toggleFallback.Some? then s.toggleFallback.value else Defaults().toggleFallback.value;
      r.toggleFallback.value.keyCode == base.keyCode && r.toggleFallback.value.modifiers == base.modifiers
    ensures r == s.(toggleFallback := r.toggleFallback)
  {
    var seeded := if s.toggleFallback.None? then s.(toggleFallback := Defaults().toggleFallback) else s;
    seeded.(toggleFallback := SetEnabled(seeded.toggleFallback, on))
  }

  /** The quick-add toggle's setter: a missing slot becomes ⌘⇧N with `enabled = on`. */
  function WithQuickAddEnabled(s: SettingsModel, on: bool): (r: SettingsModel)
    ensures QuickAddEnabled(r) == on
    ensures r.quickAddGlobal.Some?
    ensures s.quickAddGlobal.None? ==> r.quickAddGlobal.value == HotkeySpec(KeyN, CmdKey | ShiftKey, on)
    ensures s.quickAddGlobal.Some? ==> r.quickAddGlobal.value == s.quickAddGlobal.value.(enabled := on)
    ensures r == s.(quickAddGlobal := r.quickAddGlobal)
  {
    if s.quickAddGlobal.None? then s.(quickAddGlobal := Some(HotkeySpec(KeyN, CmdKey | ShiftKey, on)))
    else s.(quickAddGlobal := SetEnabled(s.quickAddGlobal, on))
  }

  /** Turning a slot on and off again leaves it seeded but disabled, with every other field as before. */
  lemma PrimaryToggleBack(s: SettingsModel)
    requires s.togglePrimary.Some? && !s.togglePrimary.value.enabled
    ensures WithPrimaryEnabled(WithPrimaryEnabled(s, true), false) == s
  {
  }

  /** The modal alerts the view can show. */
  datatype Alert = ModifierRequired | RegistrationFailed

  /** `HotKeyManager.HotKeyStatus`, as far as the badge distinguishes it. */
  datatype Backend = Carbon | EventTap
  datatype HotKeyStatus = Inactive | Active(backend: Backend) | Conflict | Denied | Error(reason: string)
  datatype BadgeColor = Gray | Green | Blue | Orange | Red

  /** `StatusBadge`'s text and colour. */
  function StatusBadge(status: HotKeyStatus): (string, BadgeColor)
  {
    match status
    case Inactive => ("Inactive", Gray)
    case Active(Carbon) => ("Active (Carbon)", Green)
    case Active(EventTap) => ("Active (Event Tap)", Blue)
    case Conflict => ("Conflict", Orange)
    case Denied => ("Permission Required", Red)
    case Error(_) => ("Error", Red)
  }

  /** The badge text tells every status apart except for the error's payload, and red means denied or error. */
  lemma StatusBadgeDistinct(a: HotKeyStatus, b: HotKeyStatus)
    ensures StatusBadge(a).0 == StatusBadge(b).0 ==> a == b || (a.Error? && b.Error?)
    ensures StatusBadge(a).1 == Red <==> a.Denied? || a.Error?
  {
  }

  class PreferencesView {
    /** The registry behind `HotKeyManager.shared`. */
    const hotkeys: HotKeyManager
    /** `SettingsModel.defaultHotKey`. */
    const defaultHotKey: HotKeyCombo

    var settings: SettingsModel
    var overlayKeyCode: UInt32
    var overlayModifiers: bv32
    var compatMode: bool

    /** Settings written to the store, in order. */
    var saved: seq<SettingsModel>
    /** Combinations passed to `HotKeyManager.start(with:)`, in order. */
    var startAttempts: seq<HotKeyCombo>
    /** `.hotKeySettingChanged` notifications, with their combination. */
    var announced: seq<HotKeyCombo>
    var alerts: seq<Alert>

    ghost predicate Valid()
      reads this, hotkeys
    {
      hotkeys.Valid()
    }

    /** `init()`: stored settings or the defaults; the overlay fields from the settings' overlay hotkey or the default
        combination; compatibility mode off when unset. */
    constructor (stored: Option<SettingsModel>, defaultHotKey: HotKeyCombo, hotkeys: HotKeyManager)
      requires hotkeys.Valid()
      ensures Valid() && this.hotkeys == hotkeys && this.defaultHotKey == defaultHotKey
      ensures settings == stored.GetOr(Defaults())
      ensures HotKeyCombo(overlayKeyCode, overlayModifiers) == settings.overlayHotKey.GetOr(defaultHotKey)
      ensures compatMode == settings.useCompatibilityMode.GetOr(false)
      ensures saved == [] && startAttempts == [] && announced == [] && alerts == []
    {
      this.hotkeys := hotkeys;
      this.defaultHotKey := defaultHotKey;
      var s := stored.GetOr(Defaults());
      settings := s;
      if s.overlayHotKey.Some? {
        overlayKeyCode := s.overlayHotKey.value.keyCode;
        overlayModifiers := s.overlayHotKey.value.modifiers;
      } else {
        overlayKeyCode := defaultHotKey.keyCode;
        overlayModifiers := defaultHotKey.modifiers;
      }
      compatMode := s.useCompatibilityMode.GetOr(false);
      saved := [];
      startAttempts := [];
      announced := [];
      alerts := [];
    }

    function OverlayCombo(): HotKeyCombo
      reads this
    {
      HotKeyCombo(overlayKeyCode, overlayModifiers)
    }

    /** `saveSettings()`: persist, then re-apply the settings to the registry. */
    method SaveSettings(os: Os)
      requires Valid()
      modifies this`saved, hotkeys
      ensures Valid()
      ensures saved == old(saved) + [settings]
      ensures forall a :: a in hotkeys.hotKeyRefs <==> Wanted(settings, a) && os.accepts(a)
      ensures forall h :: h in old(hotkeys.osLive) ==> h !in hotkeys.osLive
    {
      saved := saved + [settings];
      hotkeys.Apply(settings, os);
    }

    /**
     * `applyOverlayHotKey()`. A zero mask raises an alert and changes nothing else. Otherwise the fields' combination
     * is tried: on success it becomes the settings' overlay hotkey, is saved and announced; on failure the fields
     * and the settings revert to the saved combination, or the default one, which is saved, and an alert is raised.
     */
    method ApplyOverlayHotKey(startOk: bool, os: Os)
      requires Valid()
      modifies this, hotkeys
      ensures Valid()
      ensures old(overlayModifiers) == 0 ==>
        && settings == old(settings) && OverlayCombo() == old(OverlayCombo())
        && startAttempts == old(startAttempts) && saved == old(saved) && announced == old(announced)
        && alerts == old(alerts) + [ModifierRequired]
      ensures old(overlayModifiers) != 0 ==> startAttempts == old(startAttempts) + [old(OverlayCombo())]
      ensures old(overlayModifiers) != 0 && startOk ==>
        && settings == old(settings).(overlayHotKey := Some(old(OverlayCombo())))
        && OverlayCombo() == old(OverlayCombo())
        && saved == old(saved) + [settings]
        && announced == old(announced) + [old(OverlayCombo())] && alerts == old(alerts)
      ensures old(overlayModifiers) != 0 && !startOk ==>
        && OverlayCombo() == old(settings).overlayHotKey.GetOr(defaultHotKey)
        && settings == old(settings).(overlayHotKey := Some(OverlayCombo()))
        && saved == old(saved) + [settings]
        && announced == old(announced) && alerts == old(alerts) + [RegistrationFailed]
      ensures old(overlayModifiers) == 0 ==> unchanged(hotkeys)
      ensures old(overlayModifiers) != 0 ==> forall a :: a in hotkeys.hotKeyRefs <==> Wanted(settings, a) && os.accepts(a)
      ensures old(overlayModifiers) != 0 ==> forall h :: h in old(hotkeys.osLive) ==> h !in hotkeys.osLive
      ensures compatMode == old(compatMode)
    {
      if overlayModifiers == 0 {
        alerts := alerts + [ModifierRequired];
        return;
      }
      var candidate := HotKeyCombo(overlayKeyCode, overlayModifiers);
      startAttempts := startAttempts + [candidate];
      if startOk {
        settings := settings.(overlayHotKey := Some(candidate));
        SaveSettings(os);
        announced := announced + [candidate];
      } else {
        var fallback := settings.overlayHotKey.GetOr(defaultHotKey);
        overlayKeyCode := fallback.keyCode;
        overlayModifiers := fallback.modifiers;
        settings := settings.(overlayHotKey := Some(fallback));
        SaveSettings(os);
        alerts := alerts + [RegistrationFailed];
      }
    }

    /**
     * The Reset Default button: the fields take the default combination, which is then applied exactly as
     * `ApplyOverlayHotKey` applies the fields' combination.
     */
    method ResetDefault(startOk: bool, os: Os)
      requires Valid()
      modifies this, hotkeys
      ensures Valid()
      ensures compatMode == old(compatMode)
      ensures defaultHotKey.modifiers == 0 ==>
        && settings == old(settings) && OverlayCombo() == defaultHotKey
        && startAttempts == old(startAttempts) && saved == old(saved) && announced == old(announced)
        && alerts == old(alerts) + [ModifierRequired]
        && unchanged(hotkeys)
      ensures defaultHotKey.modifiers != 0 ==> startAttempts == old(startAttempts) + [defaultHotKey]
      ensures defaultHotKey.modifiers != 0 && startOk ==>
        && settings == old(settings).(overlayHotKey := Some(defaultHotKey))
        && OverlayCombo() == defaultHotKey
        && saved == old(saved) + [settings]
        && announced == old(announced) + [defaultHotKey] && alerts == old(alerts)
      ensures defaultHotKey.modifiers != 0 && !startOk ==>
        && OverlayCombo() == old(settings).overlayHotKey.GetOr(defaultHotKey)
        && settings == old(settings).(overlayHotKey := Some(OverlayCombo()))
        && saved == old(saved) + [settings]
        && announced == old(announced) && alerts == old(alerts) + [RegistrationFailed]
      ensures defaultHotKey.modifiers != 0 ==>
        && (forall a :: a in hotkeys.hotKeyRefs <==> Wanted(settings, a) && os.accepts(a))
        && (forall h :: h in old(hotkeys.osLive) ==> h !in hotkeys.osLive)
    {
      overlayKeyCode := defaultHotKey.keyCode;
      overlayModifiers := defaultHotKey.modifiers;
      ApplyOverlayHotKey(startOk, os);
    }

    /** The compatibility-mode toggle's `onChange`: records the choice in the settings and saves them. */
    method SetCompatMode(on: bool, os: Os)
      requires Valid()
      modifies this, hotkeys
      ensures Valid()
      ensures compatMode == on && settings == old(settings).(useCompatibilityMode := Some(on))
      ensures saved == old(saved) + [settings]
      ensures OverlayCombo() == old(OverlayCombo())
      ensures startAttempts == old(startAttempts) && announced == old(announced) && alerts == old(alerts)
      ensures forall a :: a in hotkeys.hotKeyRefs <==> Wanted(settings, a) && os.accepts(a)
      ensures forall h :: h in old(hotkeys.osLive) ==> h !in hotkeys.osLive
    {
      compatMode := on;
      settings := settings.(useCompatibilityMode := Some(on));
      SaveSettings(os);
    }

    /** The "Enable Primary" toggle. */
    method SetPrimaryEnabled(on: bool, os: Os)
      requires Valid()
      modifies this, hotkeys
      ensures Valid()
      ensures settings == WithPrimaryEnabled(old(settings), on) && saved == old(saved) + [settings]
      ensures on && os.accepts(TogglePrimary) <==> TogglePrimary in hotkeys.hotKeyRefs
      ensures forall a :: a in hotkeys.hotKeyRefs <==> Wanted(settings, a) && os.accepts(a)
      ensures forall h :: h in old(hotkeys.osLive) ==> h !in hotkeys.osLive
      ensures OverlayCombo() == old(OverlayCombo()) && compatMode == old(compatMode)
      ensures startAttempts == old(startAttempts) && announced == old(announced) && alerts == old(alerts)
    {
      settings := WithPrimaryEnabled(settings, on);
      SaveSettings(os);
    }

    /** The "Enable Fallback" toggle. */
    method SetFallbackEnabled(on: bool, os: Os)
      requires Valid()
      modifies this, hotkeys
      ensures Valid()
      ensures settings == WithFallbackEnabled(old(settings), on) && saved == old(saved) + [settings]
      ensures on && os.accepts(ToggleFallback) <==> ToggleFallback in hotkeys.hotKeyRefs
      ensures forall a :: a in hotkeys.hotKeyRefs <==> Wanted(settings, a) && os.accepts(a)
      ensures forall h :: h in old(hotkeys.osLive) ==> h !in hotkeys.osLive
      ensures OverlayCombo() == old(OverlayCombo()) && compatMode == old(compatMode)
      ensures startAttempts == old(startAttempts) && announced == old(announced) && alerts == old(alerts)
    {
      settings := WithFallbackEnabled(settings, on);
      SaveSettings(os);
    }

    /** The "Enable ⌘⇧N" toggle. */
    method SetQuickAddEnabled(on: bool, os: Os)
      requires Valid()
      modifies this, hotkeys
      ensures Valid()
      ensures settings == WithQuickAddEnabled(old(settings), on) && saved == old(saved) + [settings]
      ensures on && os.accepts(QuickAdd) <==> QuickAdd in hotkeys.hotKeyRefs
      ensures forall a :: a in hotkeys.hotKeyRefs <==> Wanted(settings, a) && os.accepts(a)
      ensures forall h :: h in old(hotkeys.osLive) ==> h !in hotkeys.osLive
      ensures OverlayCombo() == old(OverlayCombo()) && compatMode == old(compatMode)
      ensures startAttempts == old(startAttempts) && announced == old(announced) && alerts == old(alerts)
    {
      settings := WithQuickAddEnabled(settings, on);
      SaveSettings(os);
    }

    /** The overlay field's `ShortcutCaptureView` writing the two bindings. */
    method CaptureOverlayKey(e: KeyEvent)
      requires ValidEvent(e)
      modifies this`overlayKeyCode, this`overlayModifiers
      ensures ShortcutCaptureView.Ignored(e) ==> OverlayCombo() == old(OverlayCombo())
      ensures !ShortcutCaptureView.Ignored(e) ==> overlayKeyCode == e.keyCode && IsCarbonMaskOf(e.flags, overlayModifiers)
    {
      var report := ShortcutCaptureView.ReportedCombo(e);
      if report.Some? {
        overlayKeyCode := report.value.keyCode;
        overlayModifiers := report.value.modifiers;
      }
    }
  }
}
