/**
 * `ShortcutCaptureField` and its `CaptureView`: every key-down is forwarded to `onUpdate`, which beeps and keeps
 * the bindings when no modifier is held and otherwise overwrites both bindings.
 */
module ShortcutCaptureField {
  import opened Keyboard
  import opened Settings

  /** `toCarbon`: sets the command, shift, option and control bits, in that order. */
  method ToCarbon(flags: set<ModifierFlag>) returns (m: bv32)
    ensures IsCarbonMaskOf(flags, m)
  {
    m := 0;
    if Command in flags {
      m := m | CmdKey;
    }
    if Shift in flags {
      m := m | ShiftKey;
    }
    if Option in flags {
      m := m | OptionKey;
    }
    if Control in flags {
      m := m | ControlKey;
    }
  }

  /** The bindings after `onUpdate(kc, mods)`. */
  function OnUpdate(bindings: HotKeyCombo, kc: UInt32, mods: bv32): (r: HotKeyCombo)
    ensures mods == 0 ==> r == bindings
    ensures mods != 0 ==> r.keyCode == kc && r.modifiers == mods
  {
    if mods == 0 then bindings else HotKeyCombo(kc, mods)
  }

  /** The bindings after a sequence of updates, oldest first. */
  function Run(bindings: HotKeyCombo, updates: seq<HotKeyCombo>): HotKeyCombo
    decreases |updates|
  {
    if updates == [] then bindings
    else Run(OnUpdate(bindings, updates[0].keyCode, updates[0].modifiers), updates[1..])
  }

  /** After any sequence of updates the modifiers are zero only if they were zero to begin with. */
  lemma {:induction false} RunKeepsModifier(bindings: HotKeyCombo, updates: seq<HotKeyCombo>)
    ensures Run(bindings, updates).modifiers == 0 ==> bindings.modifiers == 0
    decreases |updates|
  {
    if updates != [] {
      RunKeepsModifier(OnUpdate(bindings, updates[0].keyCode, updates[0].modifiers), updates[1..]);
    }
  }

  /** `updates[i]` holds a modifier and no later update does. */
  predicate LastWithModifier(updates: seq<HotKeyCombo>, i: nat)
    requires i < |updates|
  {
    updates[i].modifiers != 0 && forall j :: i < j < |updates| ==> updates[j].modifiers == 0
  }

  /** The bindings end as the last update with a modifier, or as they started when there was none. */
  lemma {:induction false} RunLastWithModifier(bindings: HotKeyCombo, updates: seq<HotKeyCombo>)
    ensures (forall i :: 0 <= i < |updates| ==> updates[i].modifiers == 0) ==> Run(bindings, updates) == bindings
    ensures forall i :: 0 <= i < |updates| && LastWithModifier(updates, i) ==> Run(bindings, updates) == updates[i]
    decreases |updates|
  {
    if updates != [] {
      var next := OnUpdate(bindings, updates[0].keyCode, updates[0].modifiers);
      RunLastWithModifier(next, updates[1..]);
      forall i | 0 <= i < |updates| && LastWithModifier(updates, i)
        ensures Run(bindings, updates) == updates[i]
      {
        if i == 0 {
          assert forall k :: 0 <= k < |updates[1..]| ==> updates[1..][k].modifiers == 0 by {
            forall k | 0 <= k < |updates[1..]| ensures updates[1..][k].modifiers == 0 {
              assert updates[1..][k] == updates[k + 1];
            }
          }
        } else {
          assert updates[1..][i - 1] == updates[i];
          assert forall j :: i - 1 < j < |updates[1..]| ==> updates[1..][j].modifiers == 0 by {
            forall j | i - 1 < j < |updates[1..]| ensures updates[1..][j].modifiers == 0 {
              assert updates[1..][j] == updates[j + 1];
            }
          }
        }
      }
    }
  }

  /** The field with its two bindings; `beeps` counts the rejected updates. */
  class ShortcutCaptureField {
    var keyCode: UInt32
    var modifiers: bv32
    var beeps: nat

    constructor (keyCode: UInt32, modifiers: bv32)
      ensures this.keyCode == keyCode && this.modifiers == modifiers && beeps == 0
    {
      this.keyCode := keyCode;
      this.modifiers := modifiers;
      beeps := 0;
    }

    /** `keyDown(with:)` forwards the event's code and mask to `onUpdate`, which writes the bindings. */
    method KeyDown(e: KeyEvent)
      requires ValidEvent(e)
      modifies this
      ensures exists m ::
                && IsCarbonMaskOf(e.flags, m)
                && HotKeyCombo(keyCode, modifiers) == OnUpdate(old(HotKeyCombo(keyCode, modifiers)), e.keyCode, m)
                && beeps == old(beeps) + (if m == 0 then 1 else 0)
      ensures HasModifier(e.flags) ==>
        keyCode == e.keyCode && IsCarbonMaskOf(e.flags, modifiers) && beeps == old(beeps)
      ensures !HasModifier(e.flags) ==>
        keyCode == old(keyCode) && modifiers == old(modifiers) && beeps == old(beeps) + 1
    {
      var mods := ToCarbon(e.flags);
      var kc: UInt32 := e.keyCode;
      CarbonMaskZero(e.flags, mods);
      if mods == 0 {
        beeps := beeps + 1;
        return;
      }
      keyCode, modifiers := kc, mods;
    }
  }
}
