/**
 * The global hotkey slot registry (`HotKeyManager`). Each of the three slots holds at most one
 * OS registration; `apply` always releases a slot's registration before claiming it again.
 * The Carbon calls are an oracle (`Os`); the OS's table of live registrations is the field `osLive`.
 */
module HotKeys {
  import opened Wrappers
  import opened Keyboard
  import opened Settings

  datatype Action = TogglePrimary | ToggleFallback | QuickAdd

  /** `Action.rawValue`, the id carried by the registration. */
  function RawValue(a: Action): (r: UInt32)
    ensures 1 <= r <= 3
  {
    match a
    case TogglePrimary => 1
    case ToggleFallback => 2
    case QuickAdd => 3
  }

  /** `Action(rawValue:)`. */
  function ActionOfRaw(id: int): (r: Option<Action>)
    ensures r.Some? <==> 1 <= id <= 3
    ensures r.Some? ==> RawValue(r.value) == id
  {
    if id == 1 then Some(TogglePrimary)
    else if id == 2 then Some(ToggleFallback)
    else if id == 3 then Some(QuickAdd)
    else None
  }

  /** Raw values identify actions. */
  lemma RawValueRoundTrip(a: Action)
    ensures ActionOfRaw(RawValue(a)) == Some(a)
  {
  }

  /** The settings field `apply(settings:)` reads for an action's slot. */
  function SlotSpec(s: SettingsModel, a: Action): Option<HotkeySpec>
  {
    match a
    case TogglePrimary => s.togglePrimary
    case ToggleFallback => s.toggleFallback
    case QuickAdd => s.quickAddGlobal
  }

  /** The slot's spec is present and enabled, so `apply` asks the OS to register it. */
  predicate Wanted(s: SettingsModel, a: Action)
  {
    SlotSpec(s, a).Some? && SlotSpec(s, a).value.enabled
  }

  function ComboOf(spec: HotkeySpec): HotKeyCombo
  {
    HotKeyCombo(spec.keyCode, spec.modifiers)
  }

  /** An `EventHotKeyRef`. */
  type Handle = nat

  /** What one OS registration holds: the `EventHotKeyID.id` and the key combination. */
  datatype Registration = Registration(id: int, combo: HotKeyCombo)

  /** What the OS answers: whether `InstallEventHandler` succeeds, whether `RegisterEventHotKey` succeeds per action, and the clock. */
  datatype Os = Os(installOk: bool, accepts: Action -> bool, now: int)

  /** Notifications the handler posts. */
  datatype Notification = TogglePanelHotkey | QuickAddHotkey

  /** Seconds between two logged registration-failure warnings. */
  const WarnInterval: int := 10

  /** More than `WarnInterval` seconds have passed since the last logged warning; with none logged, one is due. */
  predicate WarnDue(last: Option<int>, now: int)
  {
    last.None? || now - last.value > WarnInterval
  }

  /** Logged warnings are more than `WarnInterval` apart and `last` is the latest of them. */
  predicate WarningLog(warnings: seq<int>, last: Option<int>)
  {
    && (forall i, j :: 0 <= i < j < |warnings| ==> warnings[i] + WarnInterval < warnings[j])
    && last == (if warnings == [] then None else Some(warnings[|warnings| - 1]))
  }

  /** Every id maps to the action whose raw value it is. */
  predicate IdsConsistent(idToAction: map<int, Action>)
  {
    forall k :: k in idToAction ==> RawValue(idToAction[k]) == k
  }

  /** The handler's lookup `idToAction[hotKeyID.id]`. */
  function ActionFor(idToAction: map<int, Action>, id: int): Option<Action>
  {
    if id in idToAction then Some(idToAction[id]) else None
  }

  /** The handler's switch over the looked-up action. */
  function NotificationFor(a: Option<Action>): Option<Notification>
  {
    match a
    case Some(TogglePrimary) => Some(TogglePanelHotkey)
    case Some(ToggleFallback) => Some(TogglePanelHotkey)
    case Some(QuickAdd) => Some(QuickAddHotkey)
    case None => None
  }

  /** Ids 1 and 2 toggle the panel, id 3 opens quick add, anything unregistered posts nothing. */
  lemma DispatchRoutes(idToAction: map<int, Action>, id: int)
    requires IdsConsistent(idToAction)
    ensures id !in idToAction ==> NotificationFor(ActionFor(idToAction, id)).None?
    ensures id in idToAction && (id == 1 || id == 2) ==> NotificationFor(ActionFor(idToAction, id)) == Some(TogglePanelHotkey)
    ensures id in idToAction && id == 3 ==> NotificationFor(ActionFor(idToAction, id)) == Some(QuickAddHotkey)
    ensures !(1 <= id <= 3) ==> NotificationFor(ActionFor(idToAction, id)).None?
  {
    if id in idToAction {
      assert RawValue(idToAction[id]) == id;
    }
  }

  /** Slot map `refs` holds handle `h` for the action whose raw value is `id`. */
  predicate OwnedBy(refs: map<Action, Handle>, id: int, h: Handle)
  {
    ActionOfRaw(id).Some? && ActionOfRaw(id).value in refs && refs[ActionOfRaw(id).value] == h
  }

  /**
   * The slot maps and the OS's table agree: the id map is the inverse of `rawValue` on the occupied slots, every
   * slot's handle is live under the slot's id, and every live handle was handed out and belongs to its id's slot,
   * so nothing the OS holds is forgotten.
   */
  predicate RegistryOf(refs: map<Action, Handle>, ids: map<int, Action>, live: map<Handle, Registration>, next: nat)
  {
    && IdsConsistent(ids)
    && (forall a :: a in refs <==> RawValue(a) in ids)
    && (forall a :: a in refs ==> refs[a] in live && live[refs[a]].id == RawValue(a))
    && (forall h :: h in live ==> h < next && OwnedBy(refs, live[h].id, h))
  }

  /** Claiming a free slot with a fresh handle keeps the registry consistent. */
  lemma RegisterKeepsRegistry(refs: map<Action, Handle>, ids: map<int, Action>, live: map<Handle, Registration>,
                              next: nat, a: Action, combo: HotKeyCombo)
    requires RegistryOf(refs, ids, live, next) && a !in refs
    ensures RegistryOf(refs[a := next], ids[RawValue(a) := a], live[next := Registration(RawValue(a), combo)], next + 1)
  {
    RawValueRoundTrip(a);
    var refs', live' := refs[a := next], live[next := Registration(RawValue(a), combo)];
    forall h | h in live' ensures h < next + 1 && OwnedBy(refs', live'[h].id, h) {
      if h != next {
        assert OwnedBy(refs, live[h].id, h);
      }
    }
  }

  /** Releasing a slot's registration and forgetting the slot keeps the registry consistent. */
  lemma UnregisterKeepsRegistry(refs: map<Action, Handle>, ids: map<int, Action>, live: map<Handle, Registration>,
                                next: nat, a: Action)
    requires RegistryOf(refs, ids, live, next)
    ensures RegistryOf(refs - {a}, ids - {RawValue(a)}, if a in refs then live - {refs[a]} else live, next)
  {
    var live' := if a in refs then live - {refs[a]} else live;
    forall h | h in live' ensures h < next && OwnedBy(refs - {a}, live'[h].id, h) {
      assert OwnedBy(refs, live[h].id, h);
    }
  }

  /** The slot of `a` reflects `settings`: it holds a registration exactly when the spec is present, enabled and
      accepted, made no earlier than handle `n0`, for the spec's combination. */
  predicate SlotAppliedOf(refs: map<Action, Handle>, live: map<Handle, Registration>, settings: SettingsModel, os: Os,
                          a: Action, n0: nat)
  {
    && (a in refs <==> Wanted(settings, a) && os.accepts(a))
    && (a in refs ==> refs[a] >= n0 && refs[a] in live && live[refs[a]].combo == ComboOf(SlotSpec(settings, a).value))
  }

  /** Releasing slot `a` leaves every other slot as it was. */
  lemma UnregisterKeepsSlot(refs: map<Action, Handle>, ids: map<int, Action>, live: map<Handle, Registration>,
                            next: nat, a: Action, b: Action, settings: SettingsModel, os: Os, n0: nat)
    requires RegistryOf(refs, ids, live, next) && a != b && SlotAppliedOf(refs, live, settings, os, b, n0)
    ensures SlotAppliedOf(refs - {a}, if a in refs then live - {refs[a]} else live, settings, os, b, n0)
  {
    if a in refs && b in refs {
      assert live[refs[a]].id != live[refs[b]].id;
    }
  }

  /** Claiming free slot `a` with a fresh handle leaves every other slot as it was. */
  lemma RegisterKeepsSlot(refs: map<Action, Handle>, ids: map<int, Action>, live: map<Handle, Registration>,
                          next: nat, a: Action, combo: HotKeyCombo, b: Action, settings: SettingsModel, os: Os, n0: nat)
    requires RegistryOf(refs, ids, live, next) && a != b && SlotAppliedOf(refs, live, settings, os, b, n0)
    ensures SlotAppliedOf(refs[a := next], live[next := Registration(RawValue(a), combo)], settings, os, b, n0)
  {
  }

  /** The three slots are all there is. */
  lemma SlotsApplied(refs: map<Action, Handle>, live: map<Handle, Registration>, settings: SettingsModel, os: Os,
                     n0: nat, a: Action)
    requires SlotAppliedOf(refs, live, settings, os, TogglePrimary, n0)
    requires SlotAppliedOf(refs, live, settings, os, ToggleFallback, n0)
    requires SlotAppliedOf(refs, live, settings, os, QuickAdd, n0)
    ensures SlotAppliedOf(refs, live, settings, os, a, n0)
  {
  }

  /** Once every slot is applied from handle `n0` on, no registration older than `n0` is live. */
  lemma AppliedReleasesOld(refs: map<Action, Handle>, ids: map<int, Action>, live: map<Handle, Registration>,
                           next: nat, settings: SettingsModel, os: Os, n0: nat, h: Handle)
    requires RegistryOf(refs, ids, live, next) && forall a :: SlotAppliedOf(refs, live, settings, os, a, n0)
    requires h in live
    ensures h >= n0
  {
    var a := ActionOfRaw(live[h].id).value;
    assert OwnedBy(refs, live[h].id, h) && refs[a] == h;
    assert SlotAppliedOf(refs, live, settings, os, a, n0);
  }

  class HotKeyManager {
    var handlerInstalled: bool
    var hotKeyRefs: map<Action, Handle>
    var idToAction: map<int, Action>
    var lastIMEWarn: Option<int>

    /** Registrations the OS holds for this process. */
    var osLive: map<Handle, Registration>
    /** The next handle the OS hands out; handles are never reused. */
    var nextHandle: nat
    /** Number of handlers the OS has installed for this process. */
    var handlersInstalled: nat
    /** Times at which a registration-failure warning was logged. */
    var warnings: seq<int>
    /** Notifications posted, in order. */
    var posted: seq<Notification>

    ghost predicate Valid()
      reads this
    {
      && Registry()
      && handlersInstalled == (if handlerInstalled then 1 else 0)
      && WarningLog(warnings, lastIMEWarn)
    }

    /** The slot maps and the OS's table agree. */
    ghost predicate Registry()
      reads this`hotKeyRefs, this`idToAction, this`osLive, this`nextHandle
    {
      RegistryOf(hotKeyRefs, idToAction, osLive, nextHandle)
    }

    constructor ()
      ensures Valid()
      ensures !handlerInstalled && hotKeyRefs == map[] && idToAction == map[] && osLive == map[]
      ensures warnings == [] && posted == []
    {
      handlerInstalled := false;
      hotKeyRefs := map[];
      idToAction := map[];
      lastIMEWarn := None;
      osLive := map[];
      nextHandle := 0;
      handlersInstalled := 0;
      warnings := [];
      posted := [];
    }

    /** Installs the process-wide handler, unless one is installed already. */
    method InstallHandlerIfNeeded(os: Os)
      requires Valid()
      modifies this`handlerInstalled, this`handlersInstalled
      ensures Valid()
      ensures handlerInstalled == (old(handlerInstalled) || os.installOk)
      ensures old(handlerInstalled) ==> handlersInstalled == old(handlersInstalled)
    {
      if handlerInstalled {
        return;
      }
      if os.installOk {
        handlerInstalled := true;
        handlersInstalled := handlersInstalled + 1;
      }
    }

    /** `RegisterEventHotKey` for one action; only called for a slot that holds no registration. */
    method RegisterHotKey(action: Action, keyCode: UInt32, modifiers: bv32, os: Os)
      requires Valid() && action !in hotKeyRefs
      modifies this`hotKeyRefs, this`idToAction, this`osLive, this`nextHandle, this`lastIMEWarn, this`warnings
      ensures Valid()
      ensures old(nextHandle) <= nextHandle
      ensures os.accepts(action) ==>
        && hotKeyRefs == old(hotKeyRefs)[action := old(nextHandle)]
        && idToAction == old(idToAction)[RawValue(action) := action]
        && osLive == old(osLive)[old(nextHandle) := Registration(RawValue(action), HotKeyCombo(keyCode, modifiers))]
        && warnings == old(warnings)
      ensures !os.accepts(action) ==>
        && hotKeyRefs == old(hotKeyRefs) && idToAction == old(idToAction) && osLive == old(osLive)
        && warnings == old(warnings) + (if WarnDue(old(lastIMEWarn), os.now) then [os.now] else [])
    {
      if os.accepts(action) {
        var ref := nextHandle;
        osLive := osLive[ref := Registration(RawValue(action), HotKeyCombo(keyCode, modifiers))];
        nextHandle := nextHandle + 1;
        hotKeyRefs := hotKeyRefs[action := ref];
        idToAction := idToAction[RawValue(action) := action];
        RegisterKeepsRegistry(old(hotKeyRefs), old(idToAction), old(osLive), ref, action, HotKeyCombo(keyCode, modifiers));
      } else {
        var now := os.now;
        if WarnDue(lastIMEWarn, now) {
          lastIMEWarn := Some(now);
          warnings := warnings + [now];
        }
      }
    }

    /** Releases the action's registration, if any, and forgets it in both maps. */
    method Unregister(action: Action)
      requires Valid()
      modifies this`hotKeyRefs, this`idToAction, this`osLive
      ensures Valid()
      ensures hotKeyRefs == old(hotKeyRefs) - {action}
      ensures idToAction == old(idToAction) - {RawValue(action)}
      ensures osLive == if action in old(hotKeyRefs) then old(osLive) - {old(hotKeyRefs)[action]} else old(osLive)
    {
      UnregisterKeepsRegistry(hotKeyRefs, idToAction, osLive, nextHandle, action);
      if action in hotKeyRefs {
        osLive := osLive - {hotKeyRefs[action]};
      }
      hotKeyRefs := hotKeyRefs - {action};
      idToAction := idToAction - {RawValue(action)};
    }

    ghost predicate SlotApplied(settings: SettingsModel, os: Os, action: Action, n0: nat)
      reads this`hotKeyRefs, this`osLive
    {
      SlotAppliedOf(hotKeyRefs, osLive, settings, os, action, n0)
    }

    /** One slot of `apply`: unregister, then register if the slot's spec is present and enabled. */
    method ApplySlot(settings: SettingsModel, action: Action, os: Os, ghost n0: nat)
      requires Valid() && n0 <= nextHandle
      modifies this`hotKeyRefs, this`idToAction, this`osLive, this`nextHandle, this`lastIMEWarn, this`warnings
      ensures Valid()
      ensures old(nextHandle) <= nextHandle
      ensures SlotApplied(settings, os, action, n0)
      ensures forall b :: b != action && old(SlotApplied(settings, os, b, n0)) ==> SlotApplied(settings, os, b, n0)
      ensures warnings == old(warnings)
        || (&& Wanted(settings, action) && !os.accepts(action) && WarnDue(old(lastIMEWarn), os.now)
            && warnings == old(warnings) + [os.now])
    {
      ghost var refs0, ids0, live0 := hotKeyRefs, idToAction, osLive;
      Unregister(action);
      forall b | b != action && SlotAppliedOf(refs0, live0, settings, os, b, n0)
        ensures SlotAppliedOf(hotKeyRefs, osLive, settings, os, b, n0)
      {
        UnregisterKeepsSlot(refs0, ids0, live0, nextHandle, action, b, settings, os, n0);
      }
      var spec := SlotSpec(settings, action);
      if spec.Some? && spec.value.enabled {
        ghost var refs1, ids1, live1, next1 := hotKeyRefs, idToAction, osLive, nextHandle;
        RegisterHotKey(action, spec.value.keyCode, spec.value.modifiers, os);
        forall b | b != action && SlotAppliedOf(refs1, live1, settings, os, b, n0)
          ensures SlotAppliedOf(hotKeyRefs, osLive, settings, os, b, n0)
        {
          if os.accepts(action) {
            RegisterKeepsSlot(refs1, ids1, live1, next1, action, HotKeyCombo(spec.value.keyCode, spec.value.modifiers),
              b, settings, os, n0);
          }
        }
      }
    }

    /** `apply(settings:)`: after it, exactly the wanted slots the OS accepted hold a registration, each for its
        slot's combination, and every registration held before has been released. */
    method Apply(settings: SettingsModel, os: Os)
      requires Valid()
      modifies this
      ensures Valid()
      ensures handlerInstalled == (old(handlerInstalled) || os.installOk)
      ensures forall a :: a in hotKeyRefs <==> Wanted(settings, a) && os.accepts(a)
      ensures forall a :: a in hotKeyRefs ==> Wanted(settings, a) && osLive[hotKeyRefs[a]].combo == ComboOf(SlotSpec(settings, a).value)
      ensures forall h :: h in old(osLive) ==> h !in osLive
      ensures posted == old(posted)
      ensures warnings == old(warnings) || warnings == old(warnings) + [os.now]
      ensures warnings != old(warnings) ==> exists a :: Wanted(settings, a) && !os.accepts(a)
    {
      InstallHandlerIfNeeded(os);
      ghost var n0 := nextHandle;
      ApplySlot(settings, TogglePrimary, os, n0);
      ApplySlot(settings, ToggleFallback, os, n0);
      assert SlotApplied(settings, os, TogglePrimary, n0);
      ApplySlot(settings, QuickAdd, os, n0);
      assert SlotApplied(settings, os, TogglePrimary, n0) && SlotApplied(settings, os, ToggleFallback, n0);
      forall a ensures SlotAppliedOf(hotKeyRefs, osLive, settings, os, a, n0) {
        SlotsApplied(hotKeyRefs, osLive, settings, os, n0, a);
      }
      forall a ensures (a in hotKeyRefs <==> Wanted(settings, a) && os.accepts(a))
        && (a in hotKeyRefs ==> osLive[hotKeyRefs[a]].combo == ComboOf(SlotSpec(settings, a).value))
      {
        SlotsApplied(hotKeyRefs, osLive, settings, os, n0, a);
      }
      forall h | h in osLive ensures h >= n0 {
        AppliedReleasesOld(hotKeyRefs, idToAction, osLive, nextHandle, settings, os, n0, h);
      }
    }

    /** `registerHotKeys`: install the handler and apply the default settings. `apply` tries the installation
        again when the first attempt failed; `retryInstallOk` is the answer to that second attempt. */
    method RegisterHotKeys(os: Os, retryInstallOk: bool)
      requires Valid()
      modifies this
      ensures Valid()
      ensures handlerInstalled == (old(handlerInstalled) || os.installOk || retryInstallOk)
      ensures forall a :: a in hotKeyRefs <==> Wanted(Defaults(), a) && os.accepts(a)
      ensures forall a :: a in hotKeyRefs ==> Wanted(Defaults(), a) && osLive[hotKeyRefs[a]].combo == ComboOf(SlotSpec(Defaults(), a).value)
      ensures forall h :: h in old(osLive) ==> h !in osLive
      ensures QuickAdd !in hotKeyRefs
      ensures posted == old(posted)
    {
      InstallHandlerIfNeeded(os);
      Apply(Defaults(), os.(installOk := retryInstallOk));
    }

    /** `ensureHotKeysArmed`: re-applies the defaults only when no slot holds a registration. */
    method EnsureHotKeysArmed(os: Os, retryInstallOk: bool)
      requires Valid()
      modifies this
      ensures Valid()
      ensures old(hotKeyRefs) != map[] ==> unchanged(this)
      ensures old(hotKeyRefs) == map[] ==>
        (forall a :: a in hotKeyRefs <==> Wanted(Defaults(), a) && os.accepts(a))
        && handlerInstalled == (old(handlerInstalled) || os.installOk || retryInstallOk)
    {
      if hotKeyRefs == map[] {
        RegisterHotKeys(os, retryInstallOk);
      }
    }

    /** The installed handler receiving a hot-key event; `id` is `None` when `GetEventParameter` fails. */
    method HandleHotKeyPressed(id: Option<UInt32>) returns (handled: bool)
      requires Valid() && handlerInstalled
      modifies this`posted
      ensures handled == id.Some?
      ensures id.None? ==> posted == old(posted)
      ensures id.Some? ==> match NotificationFor(ActionFor(idToAction, id.value))
        case Some(n) => posted == old(posted) + [n]
        case None => posted == old(posted)
    {
      if id.None? {
        return false;
      }
      match NotificationFor(ActionFor(idToAction, id.value)) {
        case Some(n) => posted := posted + [n];
        case None =>
      }
      return true;
    }
  }

  /** Big-endian value of the character codes, each taken as one byte. */
  function PackedValue(s: string): nat
  {
    if s == [] then 0 else PackedValue(s[..|s| - 1]) * 256 + s[|s| - 1] as int
  }

  predicate IsByteString(s: string)
  {
    forall i :: 0 <= i < |s| ==> s[i] as int < 256
  }

  function Pow256(n: nat): nat
  {
    if n == 0 then 1 else 256 * Pow256(n - 1)
  }

  lemma {:induction false} PackedBound(s: string)
    requires IsByteString(s)
    ensures PackedValue(s) < Pow256(|s|)
  {
    if s != [] {
      assert IsByteString(s[..|s| - 1]);
      PackedBound(s[..|s| - 1]);
    }
  }

  /** Reading one more character appends one base-256 digit to the packed value. */
  lemma PackedStep(s: string, i: nat)
    requires i < |s|
    ensures PackedValue(s[..i + 1]) == PackedValue(s[..i]) * 256 + s[i] as int
  {
    assert s[..i + 1][..i] == s[..i];
  }

  /** At most four bytes pack into 32 bits. */
  lemma PackedFits(s: string)
    requires |s| <= 4 && IsByteString(s)
    ensures PackedValue(s) < UInt32Modulus
  {
    PackedBound(s);
    assert Pow256(|s|) <= UInt32Modulus by {
      assert Pow256(4) == UInt32Modulus;
      if |s| < 4 {
        assert Pow256(3) == 0x100_0000;
      }
    }
  }

  const UInt32Modulus: int := 0x1_0000_0000

  lemma ModOf(x: int, q: int, r: int)
    requires 0 <= r < UInt32Modulus && x == q * UInt32Modulus + r
    ensures x % UInt32Modulus == r
  {
  }

  /**
   * One loop step on `UInt32`: shifting the wrapped value and adding a byte equals the unbounded step taken modulo
   * 2^32, and the addition never overflows, since the shift leaves the low byte zero.
   */
  lemma ShiftAddStep(p: nat, b: nat)
    requires b < 256
    ensures ((p % UInt32Modulus) * 256) % UInt32Modulus + b < UInt32Modulus
    ensures ((p % UInt32Modulus) * 256) % UInt32Modulus + b == (p * 256 + b) % UInt32Modulus
  {
    var q, r := p / 0x100_0000, p % 0x100_0000;
    assert p == q * 0x100_0000 + r;
    var r2 := p % UInt32Modulus;
    var qq := q % 256;
    assert q == (q / 256) * 256 + qq;
    assert p == (q / 256) * UInt32Modulus + (qq * 0x100_0000 + r);
    ModOf(p, q / 256, qq * 0x100_0000 + r);
    assert r2 * 256 == qq * UInt32Modulus + r * 256;
    ModOf(r2 * 256, qq, r * 256);
    assert p * 256 + b == q * UInt32Modulus + (r * 256 + b);
    ModOf(p * 256 + b, q, r * 256 + b);
  }

  /**
   * `String.fourCharCodeValue`: each Unicode scalar in turn is added to the accumulator shifted left by eight bits,
   * on `UInt32`. The shift drops the high bits; the addition traps on overflow, reported here as `trapped`. On byte
   * strings it never traps and yields the big-endian packing modulo 2^32, exactly the packing for up to four bytes.
   */
  method FourCharCodeValue(s: string) returns (trapped: bool, result: UInt32)
    ensures IsByteString(s) ==> !trapped && result == PackedValue(s) % UInt32Modulus
    ensures |s| <= 4 && IsByteString(s) ==> !trapped && result == PackedValue(s)
  {
    trapped := false;
    result := 0;
    var i := 0;
    while i < |s|
      invariant 0 <= i <= |s|
      invariant IsByteString(s) ==> !trapped && result == PackedValue(s[..i]) % UInt32Modulus
    {
      var sum := (result * 256) % UInt32Modulus + s[i] as int;
      if IsByteString(s) {
        PackedStep(s, i);
        ShiftAddStep(PackedValue(s[..i]), s[i] as int);
      }
      if sum >= UInt32Modulus {
        trapped := true;
        return;
      }
      result := sum;
      i := i + 1;
    }
    assert s[..i] == s;
    if |s| <= 4 && IsByteString(s) {
      PackedFits(s);
    }
  }

  /** The registration signature `"D2HK"` is the OSType 0x4432484B. */
  lemma SignatureValue()
    ensures PackedValue("D2HK") == 0x4432_484B
  {
    assert "D2HK"[..3] == "D2H" && "D2H"[..2] == "D2" && "D2"[..1] == "D" && "D"[..0] == [];
  }
}
