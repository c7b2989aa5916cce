/** Key events as AppKit delivers them and the Carbon constants the app uses. */
module Keyboard {
  import opened Wrappers

  /** Swift's `UInt32`. */
  type UInt32 = x: int | 0 <= x < 0x1_0000_0000

  /** Carbon modifier bits (`cmdKey`, `shiftKey`, `optionKey`, `controlKey`). */
  const CmdKey: bv32 := 256
  const ShiftKey: bv32 := 512
  const OptionKey: bv32 := 2048
  const ControlKey: bv32 := 4096
  /** The four bits together. */
  const AllModifiers: bv32 := CmdKey | ShiftKey | OptionKey | ControlKey

  /** Carbon virtual key codes. */
  const KeySpace: UInt32 := 49
  const KeyReturn: UInt32 := 36
  const KeyEscape: UInt32 := 53
  const KeyN: UInt32 := 45
  /** `kVK_ANSI_1` ... `kVK_ANSI_9`, in digit order. */
  const DigitKeys: seq<UInt32> := [18, 19, 20, 21, 23, 22, 26, 28, 25]

  /** Members of `NSEvent.ModifierFlags`. */
  datatype ModifierFlag = Command | Option | Shift | Control | CapsLock | NumericPad | Help | Function

  /** `NSEvent.specialKey` values the panel looks at. */
  datatype SpecialKey = UpArrow | DownArrow | Home | End | OtherSpecial

  /** The parts of an `NSEvent` key-down that the app reads. */
  datatype KeyEvent = KeyEvent(
    keyCode: nat,                      // UInt16 hardware key code
    characters: Option<string>,        // charactersIgnoringModifiers
    flags: set<ModifierFlag>,          // modifierFlags
    special: Option<SpecialKey>)       // specialKey

  predicate ValidEvent(e: KeyEvent) { e.keyCode < 0x1_0000 }

  /** At least one of command, option, shift, control is held. */
  predicate HasModifier(flags: set<ModifierFlag>)
  {
    Command in flags || Option in flags || Shift in flags || Control in flags
  }

  /** `m` is the Carbon encoding of `flags`: each of the four bits is set iff its flag is held, and no other bit is set. */
  ghost predicate IsCarbonMaskOf(flags: set<ModifierFlag>, m: bv32)
  {
    && ((m & CmdKey != 0) <==> Command in flags)
    && ((m & OptionKey != 0) <==> Option in flags)
    && ((m & ShiftKey != 0) <==> Shift in flags)
    && ((m & ControlKey != 0) <==> Control in flags)
    && m & !AllModifiers == 0
  }

  /** The encoding is unique, so both capture controls produce the same mask for the same event. */
  lemma CarbonMaskUnique(flags: set<ModifierFlag>, m1: bv32, m2: bv32)
    requires IsCarbonMaskOf(flags, m1) && IsCarbonMaskOf(flags, m2)
    ensures m1 == m2
  {
    assert m1 == (m1 & CmdKey) | (m1 & OptionKey) | (m1 & ShiftKey) | (m1 & ControlKey);
    assert m2 == (m2 & CmdKey) | (m2 & OptionKey) | (m2 & ShiftKey) | (m2 & ControlKey);
  }

  /** The mask is zero exactly when none of the four modifiers is held. */
  lemma CarbonMaskZero(flags: set<ModifierFlag>, m: bv32)
    requires IsCarbonMaskOf(flags, m)
    ensures m == 0 <==> !HasModifier(flags)
  {
    assert m == (m & CmdKey) | (m & OptionKey) | (m & ShiftKey) | (m & ControlKey);
  }
}
