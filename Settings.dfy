/** Hotkey settings and the human-readable display of a key combination. */
module Settings {
  import opened Wrappers
  import opened Keyboard
  import Text

  /** One configurable global hotkey slot. */
  datatype HotkeySpec = HotkeySpec(keyCode: UInt32, modifiers: bv32, enabled: bool)

  /** The overlay shortcut's combination (a key code and a Carbon modifier mask). */
  datatype HotKeyCombo = HotKeyCombo(keyCode: UInt32, modifiers: bv32)

  /** The persisted settings document. The last two fields are the overlay hotkey and the compatibility-mode flag. */
  datatype SettingsModel = SettingsModel(
    togglePrimary: Option<HotkeySpec>,
    toggleFallback: Option<HotkeySpec>,
    quickAddGlobal: Option<HotkeySpec>,
    overlayHotKey: Option<HotKeyCombo>,
    useCompatibilityMode: Option<bool>)

  /** A spec the registry can claim: enabled, with at least one modifier and only the four modifier bits. */
  predicate IsUsableSpec(s: HotkeySpec)
  {
    s.enabled && s.modifiers != 0 && s.modifiers & !AllModifiers == 0
  }

  /** `SettingsModel.defaults`: ⌥Space and ⌘⌥Space enabled, no quick-add hotkey. */
  function Defaults(): (d: SettingsModel)
    ensures d.togglePrimary.Some? && IsUsableSpec(d.togglePrimary.value)
    ensures d.toggleFallback.Some? && IsUsableSpec(d.toggleFallback.value)
    ensures d.togglePrimary.value.keyCode == d.toggleFallback.value.keyCode == KeySpace
    ensures d.togglePrimary.value.modifiers != d.toggleFallback.value.modifiers
    ensures d.quickAddGlobal.None?
  {
    SettingsModel(
      Some(HotkeySpec(KeySpace, OptionKey, true)),
      Some(HotkeySpec(KeySpace, OptionKey | CmdKey, true)),
      None, None, None)
  }

  const CommandGlyph: char := '\U{2318}'   // ⌘
  const OptionGlyph: char := '\U{2325}'    // ⌥
  const ShiftGlyph: char := '\U{21E7}'     // ⇧
  const ControlGlyph: char := '\U{2303}'   // ⌃

  predicate IsGlyph(c: char)
  {
    c == CommandGlyph || c == OptionGlyph || c == ShiftGlyph || c == ControlGlyph
  }

  /** Position of a modifier glyph in the display order ⌘ ⌥ ⇧ ⌃. */
  function GlyphRank(c: char): nat
  {
    if c == CommandGlyph then 0 else if c == OptionGlyph then 1 else if c == ShiftGlyph then 2 else 3
  }

  /** The modifier part of `KeyDisplay.format`. */
  function ModifierGlyphs(m: bv32): (r: string)
    ensures |r| <= 4 && forall i :: 0 <= i < |r| ==> IsGlyph(r[i])
  {
    GlyphIf(m, CmdKey, CommandGlyph) + GlyphIf(m, OptionKey, OptionGlyph)
    + GlyphIf(m, ShiftKey, ShiftGlyph) + GlyphIf(m, ControlKey, ControlGlyph)
  }

  /** `glyph` when `bit` is set in `m`, else nothing. */
  function GlyphIf(m: bv32, bit: bv32, glyph: char): string
  {
    if m & bit != 0 then [glyph] else []
  }
  /** A glyph is shown iff its Carbon bit is set. */
  lemma GlyphsShown(m: bv32)
    ensures (CommandGlyph in ModifierGlyphs(m)) <==> m & CmdKey != 0
    ensures (OptionGlyph in ModifierGlyphs(m)) <==> m & OptionKey != 0
    ensures (ShiftGlyph in ModifierGlyphs(m)) <==> m & ShiftKey != 0
    ensures (ControlGlyph in ModifierGlyphs(m)) <==> m & ControlKey != 0
  {
  }

  /** The glyphs come in the order ⌘ ⌥ ⇧ ⌃. */
  lemma GlyphsOrdered(m: bv32)
    ensures var r := ModifierGlyphs(m); forall i, j :: 0 <= i < j < |r| ==> GlyphRank(r[i]) < GlyphRank(r[j])
  {
  }


  /** The thirteen key codes with a symbol of their own. */
  predicate IsMappedKey(code: int)
  {
    code in {49, 36, 53, 18, 19, 20, 21, 23, 22, 26, 28, 25, 45}
  }

  /** `KeyDisplay.symbolForKeyCode`. */
  function SymbolForKeyCode(code: int): (r: string)
    ensures r != [] && forall i :: 0 <= i < |r| ==> !IsGlyph(r[i])
    ensures !IsMappedKey(code) <==> Text.HasPrefix(r, "Key(")
    ensures !IsMappedKey(code) ==> r == "Key(" + Text.IntToDecimal(code) + ")"
  {
    match code
    case 49 => assert "Space"[0] != 'K'; "Space"
    case 36 => "\U{21A9}"
    case 53 => "\U{238B}"
    case 18 => "1"
    case 19 => "2"
    case 20 => "3"
    case 21 => "4"
    case 23 => "5"
    case 22 => "6"
    case 26 => "7"
    case 28 => "8"
    case 25 => "9"
    case 45 => "N"
    case _ =>
      var r := "Key(" + Text.IntToDecimal(code) + ")";
      assert r[..4] == "Key(";
      r
  }

  /** What `KeyDisplay.format` returns: the modifier glyphs, then one key symbol. */
  function Display(keyCode: UInt32, modifiers: bv32): string
  {
    ModifierGlyphs(modifiers) + SymbolForKeyCode(keyCode)
  }

  /** `KeyDisplay.format`, building the parts array by conditional appends and joining it. */
  method Format(keyCode: UInt32, modifiers: bv32) returns (s: string)
    ensures s == Display(keyCode, modifiers)
  {
    var parts: seq<string> := [];
    if modifiers & CmdKey != 0 { JoinedAppend(parts, [CommandGlyph]); parts := parts + [[CommandGlyph]]; }
    ghost var shown := GlyphIf(modifiers, CmdKey, CommandGlyph);
    assert Joined(parts) == shown;
    if modifiers & OptionKey != 0 { JoinedAppend(parts, [OptionGlyph]); parts := parts + [[OptionGlyph]]; }
    shown := shown + GlyphIf(modifiers, OptionKey, OptionGlyph);
    assert Joined(parts) == shown;
    if modifiers & ShiftKey != 0 { JoinedAppend(parts, [ShiftGlyph]); parts := parts + [[ShiftGlyph]]; }
    shown := shown + GlyphIf(modifiers, ShiftKey, ShiftGlyph);
    assert Joined(parts) == shown;
    if modifiers & ControlKey != 0 { JoinedAppend(parts, [ControlGlyph]); parts := parts + [[ControlGlyph]]; }
    shown := shown + GlyphIf(modifiers, ControlKey, ControlGlyph);
    assert Joined(parts) == shown == ModifierGlyphs(modifiers);
    JoinedAppend(parts, SymbolForKeyCode(keyCode));
    parts := parts + [SymbolForKeyCode(keyCode)];
    s := Joined(parts);
  }

  /** `parts.joined()`. */
  function Joined(parts: seq<string>): string
  {
    if parts == [] then "" else parts[0] + Joined(parts[1..])
  }

  lemma {:induction false} JoinedAppend(parts: seq<string>, last: string)
    ensures Joined(parts + [last]) == Joined(parts) + last
  {
    if parts != [] {
      assert (parts + [last])[1..] == parts[1..] + [last];
      JoinedAppend(parts[1..], last);
    }
  }

  /** A glyph occurs in the display iff its Carbon bit is set. */
  lemma DisplayGlyphs(keyCode: UInt32, m: bv32)
    ensures (CommandGlyph in Display(keyCode, m)) <==> m & CmdKey != 0
    ensures (OptionGlyph in Display(keyCode, m)) <==> m & OptionKey != 0
    ensures (ShiftGlyph in Display(keyCode, m)) <==> m & ShiftKey != 0
    ensures (ControlGlyph in Display(keyCode, m)) <==> m & ControlKey != 0
  {
    GlyphsShown(m);
  }

  /** Display is the glyphs in ⌘ ⌥ ⇧ ⌃ order followed by exactly one key symbol. */
  lemma DisplayShape(keyCode: UInt32, m: bv32)
    ensures var d := Display(keyCode, m);
      var n := |ModifierGlyphs(m)|;
      n <= 4 && d[n..] == SymbolForKeyCode(keyCode)
      && (forall i :: 0 <= i < n ==> IsGlyph(d[i]))
      && (forall i :: n <= i < |d| ==> !IsGlyph(d[i]))
      && (forall i, j :: 0 <= i < j < n ==> GlyphRank(d[i]) < GlyphRank(d[j]))
  {
    GlyphsOrdered(m);
  }

  /** Bits other than the four modifiers do not change the display. */
  lemma DisplayIgnoresOtherBits(keyCode: UInt32, m: bv32)
    ensures Display(keyCode, m) == Display(keyCode, m & AllModifiers)
  {
    assert (m & AllModifiers) & CmdKey == m & CmdKey;
    assert (m & AllModifiers) & OptionKey == m & OptionKey;
    assert (m & AllModifiers) & ShiftKey == m & ShiftKey;
    assert (m & AllModifiers) & ControlKey == m & ControlKey;
  }

  /** Different key codes display differently. */
  lemma SymbolInjective(a: int, b: int)
    requires SymbolForKeyCode(a) == SymbolForKeyCode(b)
    ensures a == b
  {
    if !IsMappedKey(a) && !IsMappedKey(b) {
      var da, db := Text.IntToDecimal(a), Text.IntToDecimal(b);
      assert ("Key(" + da + ")")[4..|da| + 4] == da;
      assert ("Key(" + db + ")")[4..|db| + 4] == db;
      Text.IntToDecimalInjective(a, b);
    }
  }

  /** The formatting test: ⌘⌥ with Space. */
  lemma FormatCommandOptionSpace()
    ensures Display(KeySpace, CmdKey | OptionKey) == [CommandGlyph, OptionGlyph] + "Space"
  {
  }

  /** The default slots display as ⌥Space and ⌘⌥Space. */
  lemma DefaultsDisplay()
    ensures Display(Defaults().togglePrimary.value.keyCode, Defaults().togglePrimary.value.modifiers) == [OptionGlyph] + "Space"
    ensures Display(Defaults().toggleFallback.value.keyCode, Defaults().toggleFallback.value.modifiers) == [CommandGlyph, OptionGlyph] + "Space"
  {
  }

  /** The nine digit keys display as their digits. */
  lemma DigitSymbols(i: nat)
    requires i < 9
    ensures SymbolForKeyCode(DigitKeys[i]) == [('1' as int + i) as char]
  {
  }
}
