/**
 * `ShortcutCaptureView` and its `CaptureField`: a key-down is reported to the two bindings unless it carries no
 * characters or is key code 0 with a modifier held. A zero modifier mask is reported like any other.
 */
module ShortcutCaptureView {
  import opened Wrappers
  import opened Keyboard
  import opened Settings

  /** `carbonMask(from:)`: sets the command, option, shift and control bits, in that order. */
  method CarbonMask(flags: set<ModifierFlag>) returns (mask: bv32)
    ensures IsCarbonMaskOf(flags, mask)
  {
    mask := 0;
    if Command in flags {
      mask := mask | CmdKey;
    }
    if Option in flags {
      mask := mask | OptionKey;
    }
    if Shift in flags {
      mask := mask | ShiftKey;
    }
    if Control in flags {
      mask := mask | ControlKey;
    }
  }

  /** The guards of `keyDown(with:)`: no characters, or key code 0 with a modifier held (a non-zero mask). */
  predicate Ignored(e: KeyEvent)
  {
    e.characters.None? || e.characters.value == [] || (e.keyCode == 0 && HasModifier(e.flags))
  }

  /** The body of `CaptureField.keyDown(with:)`: what it passes to `onChange`, if anything. */
  method ReportedCombo(e: KeyEvent) returns (report: Option<HotKeyCombo>)
    requires ValidEvent(e)
    ensures report.None? <==> Ignored(e)
    ensures report.Some? ==> report.value.keyCode == e.keyCode && IsCarbonMaskOf(e.flags, report.value.modifiers)
    ensures report.Some? ==> report.value.modifiers & !AllModifiers == 0
  {
    if e.characters.None? || e.characters.value == [] {
      return None;
    }
    var code: UInt32 := e.keyCode;
    var mods := CarbonMask(e.flags);
    CarbonMaskZero(e.flags, mods);
    if code == 0 && mods != 0 {
      return None;
    }
    report := Some(HotKeyCombo(code, mods));
  }

  /** The view with its two bindings, written by the `onChange` closure. */
  class ShortcutCaptureView {
    var keyCode: UInt32
    var modifiers: bv32

    constructor (keyCode: UInt32, modifiers: bv32)
      ensures this.keyCode == keyCode && this.modifiers == modifiers
    {
      this.keyCode := keyCode;
      this.modifiers := modifiers;
    }

    /** A key-down reaching the field: a reported combination overwrites both bindings, an ignored one changes nothing. */
    method KeyDown(e: KeyEvent)
      requires ValidEvent(e)
      modifies this
      ensures Ignored(e) ==> unchanged(this)
      ensures !Ignored(e) ==> keyCode == e.keyCode && IsCarbonMaskOf(e.flags, modifiers)
    {
      var report := ReportedCombo(e);
      if report.Some? {
        keyCode := report.value.keyCode;
        modifiers := report.value.modifiers;
      }
    }
  }
}
