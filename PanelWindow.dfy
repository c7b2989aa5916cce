/**
 * The panel's local key monitor (`PanelWindowController.installKeyMonitor`): a priority-ordered decision over a
 * key-down event, plus the install/remove guards of the key and outside-click monitors.
 */
module PanelWindow {
  import opened Wrappers
  import opened Text
  import opened Keyboard
  import opened SwiftInt

  /** Key code 51, the Delete key. */
  const KeyDelete: nat := 51

  /** The notifications the key monitor posts. */
  datatype Notice =
    | ToggleMatrixOverlay
    | ToggleImportantSelected
    | ToggleUrgentSelected
    | DeleteSelection
    | NavigateSelection(dir: int)

  /** What the monitor does with an event: the notice it posts, if any, and whether it swallows the event. */
  datatype Route = Route(post: Option<Notice>, consumed: bool)

  const PassThrough: Route := Route(None, false)

  /** The key typed, ignoring modifiers and case, is the letter `c`. */
  predicate IsChar(e: KeyEvent, c: string)
  {
    e.characters.Some? && Lowercased(e.characters.value) == c
  }

  /** The `dir` the navigation keys post: −1, 1, `Int.min` and `Int.max`. */
  function NavigationDir(k: SpecialKey): (r: Option<int>)
    ensures r.Some? ==> InInt(r.value)
    ensures r.None? <==> k == OtherSpecial
  {
    match k
    case UpArrow => Some(-1)
    case DownArrow => Some(1)
    case Home => Some(IntMin)
    case End => Some(IntMax)
    case OtherSpecial => None
  }

  /**
   * The monitor closure; `editingText` says whether an `NSText` or `NSTextView` is the panel's first responder.
   * A consumed event is one the closure returns `nil` for.
   */
  function RouteKey(e: KeyEvent, editingText: bool): (r: Route)
    ensures r.consumed <==> r.post.Some?
    ensures Command in e.flags && IsChar(e, "m") ==> r == Route(Some(ToggleMatrixOverlay), true)
    ensures editingText && !(Command in e.flags && IsChar(e, "m")) ==> r == PassThrough
    ensures r.post == Some(ToggleImportantSelected) ==> IsChar(e, "i") && !HasModifier(e.flags)
    ensures r.post == Some(ToggleUrgentSelected) ==> IsChar(e, "u") && !HasModifier(e.flags)
    ensures r.post == Some(DeleteSelection) ==> Command in e.flags && e.keyCode == KeyDelete
    ensures r.post.Some? && r.post.value.NavigateSelection? ==>
      e.special.Some? && NavigationDir(e.special.value) == Some(r.post.value.dir)
  {
    if Command in e.flags && IsChar(e, "m") then Route(Some(ToggleMatrixOverlay), true)
    else if editingText then PassThrough
    else if !HasModifier(e.flags) && IsChar(e, "i") then Route(Some(ToggleImportantSelected), true)
    else if !HasModifier(e.flags) && IsChar(e, "u") then Route(Some(ToggleUrgentSelected), true)
    else if Command in e.flags && e.keyCode == KeyDelete then Route(Some(DeleteSelection), true)
    else if e.special.Some? && NavigationDir(e.special.value).Some? then
      Route(Some(NavigateSelection(NavigationDir(e.special.value).value)), true)
    else PassThrough
  }

  /** Outside a text field, a bare `i` or `u` toggles the selected item's flag; with a modifier held it does not. */
  lemma BareLetterToggles(e: KeyEvent)
    ensures !HasModifier(e.flags) && IsChar(e, "i") ==> RouteKey(e, false) == Route(Some(ToggleImportantSelected), true)
    ensures !HasModifier(e.flags) && IsChar(e, "u") ==> RouteKey(e, false) == Route(Some(ToggleUrgentSelected), true)
    ensures HasModifier(e.flags) ==>
      RouteKey(e, false).post != Some(ToggleImportantSelected) && RouteKey(e, false).post != Some(ToggleUrgentSelected)
  {
    assert Lowercased("i") != Lowercased("u") by {
      assert Lowercased("i")[0] == 'i';
    }
  }

  /** Outside a text field, the arrows, Home and End navigate unless a higher-priority rule applies. */
  lemma NavigationKeys(e: KeyEvent)
    requires e.special.Some? && e.special.value != OtherSpecial
    requires !(Command in e.flags && (IsChar(e, "m") || e.keyCode == KeyDelete))
    requires HasModifier(e.flags) || !(IsChar(e, "i") || IsChar(e, "u"))
    ensures RouteKey(e, false) == Route(Some(NavigateSelection(NavigationDir(e.special.value).value)), true)
  {
  }

  /** Command-Delete deletes the selection when it is not Command-M. */
  lemma CommandDeleteDeletes(e: KeyEvent)
    requires Command in e.flags && e.keyCode == KeyDelete && !IsChar(e, "m")
    ensures RouteKey(e, false) == Route(Some(DeleteSelection), true)
  {
  }

  /** An event no rule claims is returned unchanged. */
  lemma OtherKeysPassThrough(e: KeyEvent)
    requires !IsChar(e, "m") && !IsChar(e, "i") && !IsChar(e, "u") && e.keyCode != KeyDelete
    requires e.special.None? || e.special.value == OtherSpecial
    ensures RouteKey(e, false) == PassThrough
  {
  }

  /**
   * The monitor slots of the controller. Monitor tokens are modelled as numbers from a counter; `live` is the
   * set of monitors installed with AppKit and not yet removed.
   */
  class PanelWindowController {
    var keyMonitor: Option<nat>
    var outsideClickGlobal: Option<nat>
    var outsideClickLocal: Option<nat>
    var live: set<nat>
    var nextToken: nat

    /** Every installed monitor is held by exactly one slot, and the click monitors come and go together. */
    predicate Valid()
      reads this
    {
      && (outsideClickGlobal.Some? <==> outsideClickLocal.Some?)
      && live == (if keyMonitor.Some? then {keyMonitor.value} else {})
                 + (if outsideClickGlobal.Some? then {outsideClickGlobal.value} else {})
                 + (if outsideClickLocal.Some? then {outsideClickLocal.value} else {})
      && (forall t :: t in live ==> t < nextToken)
      && (keyMonitor.Some? && outsideClickGlobal.Some? ==> keyMonitor.value != outsideClickGlobal.value)
      && (keyMonitor.Some? && outsideClickLocal.Some? ==> keyMonitor.value != outsideClickLocal.value)
      && (outsideClickGlobal.Some? && outsideClickLocal.Some? ==> outsideClickGlobal.value != outsideClickLocal.value)
    }

    constructor()
      ensures Valid() && keyMonitor.None? && outsideClickGlobal.None? && live == {}
    {
      keyMonitor := None;
      outsideClickGlobal := None;
      outsideClickLocal := None;
      live := {};
      nextToken := 0;
    }

    /** `installKeyMonitor()`: installs a monitor only when none is held, so a second call changes nothing. */
    method InstallKeyMonitor()
      requires Valid()
      modifies this`keyMonitor, this`live, this`nextToken
      ensures Valid() && keyMonitor.Some?
      ensures old(keyMonitor).Some? ==> keyMonitor == old(keyMonitor) && live == old(live) && nextToken == old(nextToken)
      ensures old(keyMonitor).None? ==> keyMonitor == Some(old(nextToken)) && live == old(live) + {old(nextToken)}
    {
      if keyMonitor.Some? {
        return;
      }
      var token := nextToken;
      nextToken := nextToken + 1;
      keyMonitor := Some(token);
      live := live + {token};
    }

    /** `removeKeyMonitor()`: removes and clears the held monitor, if any. */
    method RemoveKeyMonitor()
      requires Valid()
      modifies this`keyMonitor, this`live
      ensures Valid() && keyMonitor.None?
      ensures live == old(live) - (if old(keyMonitor).Some? then {old(keyMonitor).value} else {})
    {
      if keyMonitor.Some? {
        live := live - {keyMonitor.value};
        keyMonitor := None;
      }
    }

    /** `installOutsideClickMonitors()`: installs both monitors only when neither is held. */
    method InstallOutsideClickMonitors()
      requires Valid()
      modifies this`outsideClickGlobal, this`outsideClickLocal, this`live, this`nextToken
      ensures Valid() && outsideClickGlobal.Some? && outsideClickLocal.Some?
      ensures old(outsideClickGlobal).Some? ==>
        outsideClickGlobal == old(outsideClickGlobal) && outsideClickLocal == old(outsideClickLocal) && live == old(live)
      ensures old(outsideClickGlobal).None? ==> live == old(live) + {old(nextToken), old(nextToken) + 1}
    {
      if outsideClickGlobal.Some? || outsideClickLocal.Some? {
        return;
      }
      var g := nextToken;
      var l := nextToken + 1;
      nextToken := nextToken + 2;
      outsideClickGlobal := Some(g);
      outsideClickLocal := Some(l);
      live := live + {g, l};
    }

    /** `removeOutsideClickMonitors()`: removes and clears both click monitors. */
    method RemoveOutsideClickMonitors()
      requires Valid()
      modifies this`outsideClickGlobal, this`outsideClickLocal, this`live
      ensures Valid() && outsideClickGlobal.None? && outsideClickLocal.None?
      ensures live == (if keyMonitor.Some? then {keyMonitor.value} else {})
    {
      if outsideClickGlobal.Some? {
        live := live - {outsideClickGlobal.value};
        outsideClickGlobal := None;
      }
      if outsideClickLocal.Some? {
        live := live - {outsideClickLocal.value};
        outsideClickLocal := None;
      }
    }
  }
}
