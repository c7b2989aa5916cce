# DODO2 core, modelled in Dafny

DODO2 is a macOS menu-bar to-do app. A global hotkey brings up a bottom-sheet panel holding a task list with
coloured labels and an Eisenhower priority matrix. This project models the logic behind that UI:

- **Hotkey slot registry** (`HotKeys`, class `HotKeyManager`). Three slots (primary toggle, fallback toggle,
  quick add) each hold at most one Carbon registration. `apply(settings:)` releases a slot before claiming it
  again, so no registration is ever leaked or held twice. The handler routes a pressed hot-key id to a
  notification.
- **Shortcut settings and capture** (`Settings`, `Keyboard`, `ShortcutCaptureView`, `ShortcutCaptureField`, `Preferences`).
  - The default slots, and how a combination is displayed (`KeyDisplay.format`).
  - How the two capture controls turn a key event into a Carbon modifier mask, and which events each rejects.
  - The preferences view's overlay-hotkey apply/revert rule and its slot enable toggles.
- **Priority matrix** (`TaskItems`, `PriorityMatrix`, `MatrixOverlay`). The quadrant classification, level
  clamping, drop-to-quadrant, the binary toggles, the newest-first columns and the per-quadrant counts.
- **Task list and labels** (`Labels`, `BottomSheet`, `HeaderBar`).
  - Tasks: quick add with a `#label` suffix, filtering, per-label counts, keyboard selection and deletion.
  - Labels: creating, renaming, deleting, reordering and focusing label chips.
- **Store** (`Persistence`). The seeded default store, migration of label orders and the schema version, and
  filling in missing settings on load.
- **Small parsers and routers** (`DragDrop`, `PanelWindow`, `Uuid`). The `task:<UUID>` drag payload, the
  panel's key-monitor decision table, and the idempotent install/remove of the panel's event monitors.

Shared helpers:
- `Wrappers` (optional values), `Collections` (`firstIndex(where:)`, `filter`, move, map sums).
- `Sorting` (a stable insertion sort by an integer key), `Text` (trimming, case folding, prefixes, decimal
  rendering), `SwiftInt` (the 64-bit `Int` range).

Each piece takes the source's own form:
- State the source mutates lives in classes whose methods name their frames. These are `HotKeyManager`,
  `PreferencesView`, both capture controls, both matrix views, `BottomSheetRoot`, `HeaderBar` and
  `PanelWindowController`.
- Value computations are functions, with lemmas relating them.
- Loops in the source are `while` loops with invariants: `countsByLabel`, the reassign closure, the reindex
  loop and `fourCharCodeValue`.

Inputs from the environment are parameters:
- Carbon results are an `Os` value: whether the handler installs, whether each slot's registration is accepted,
  and the clock.
- `HotKeyManager.start(with:)`'s answer is `startOk`.
- The alert answers are `confirmed`.
- Fresh UUIDs are `newId`, or `uuid: nat -> Uuid` for the seeded tasks.
- `Date()` is an integer clock `now`.
- `HotKeyManager` keeps ghost-free bookkeeping `osLive`, the OS's table of live registrations, so that
  "nothing leaked" can be stated.

## Model

| member | source | states |
|---|---|---|
| HotKeys.RawValue | Sources/DODO2/HotKeyManager.swift:13 | actions carry the ids 1, 2, 3 |
| HotKeys.ActionOfRaw | Sources/DODO2/HotKeyManager.swift:13 | `Action(rawValue:)` succeeds exactly for 1...3 and inverts `rawValue` |
| HotKeys.RawValueRoundTrip | Sources/DODO2/HotKeyManager.swift:13 | decoding an action's raw value gives the action back |
| HotKeys.DispatchRoutes | Sources/DODO2/HotKeyManager.swift:33-41 | with a consistent id map, ids 1 and 2 post the toggle-panel notification, id 3 quick add, and an unregistered or out-of-range id posts nothing |
| HotKeys.RegisterKeepsRegistry | Sources/DODO2/HotKeyManager.swift:58-60 | claiming a free slot with a fresh handle, in both maps under `rawValue`, keeps the two maps in step and the OS table owned |
| HotKeys.UnregisterKeepsRegistry | Sources/DODO2/HotKeyManager.swift:71-77 | releasing a slot's handle and removing the slot from both maps keeps the registry consistent, whether or not the slot held one |
| HotKeys.UnregisterKeepsSlot | Sources/DODO2/HotKeyManager.swift:79-96 | unregistering one slot does not disturb another slot's applied state |
| HotKeys.RegisterKeepsSlot | Sources/DODO2/HotKeyManager.swift:79-96 | registering one slot does not disturb another slot's applied state |
| HotKeys.SlotsApplied | Sources/DODO2/HotKeyManager.swift:79-96 | the three slots applied means every action's slot is applied |
| HotKeys.AppliedReleasesOld | Sources/DODO2/HotKeyManager.swift:79-96 | once every slot was re-applied from handle `n0` on, no older registration is live (no leak) |
| HotKeys.HotKeyManager.constructor | Sources/DODO2/HotKeyManager.swift:6-11 | no handler, empty maps, nothing registered with the OS |
| HotKeys.HotKeyManager.InstallHandlerIfNeeded | Sources/DODO2/HotKeyManager.swift:25-51 | the handler is installed at most once; the flag becomes true only when installation succeeds |
| HotKeys.HotKeyManager.RegisterHotKey | Sources/DODO2/HotKeyManager.swift:54-69 | success adds the action to both maps under `rawValue` with a fresh OS registration; failure changes neither map and logs a warning only if the last one is more than 10 s old |
| HotKeys.HotKeyManager.Unregister | Sources/DODO2/HotKeyManager.swift:71-77 | removes the action from both maps and releases its OS registration; idempotent when absent |
| HotKeys.HotKeyManager.ApplySlot | Sources/DODO2/HotKeyManager.swift:82-85 | one slot of `apply`: afterwards the slot holds a fresh registration for its `HotkeySpec`'s combination exactly when that spec is present, enabled and accepted; other slots keep their state; a warning at the current time is logged only for a rejected wanted slot when the 10-second interval has passed |
| HotKeys.HotKeyManager.Apply | Sources/DODO2/HotKeyManager.swift:79-96 | afterwards exactly the wanted, accepted slots hold a registration, each for its `HotkeySpec`'s combination, and every registration held before is released; at most one warning is logged, at the current time, and only when some wanted slot was rejected; nothing is posted |
| HotKeys.HotKeyManager.RegisterHotKeys | Sources/DODO2/HotKeyManager.swift:15-19 | `apply` of the defaults: only the two toggle slots can be registered, never quick add; the handler is installed if either the first attempt or `apply`'s second one succeeds |
| HotKeys.HotKeyManager.EnsureHotKeysArmed | Sources/DODO2/HotKeyManager.swift:21-23 | nothing changes unless no slot is registered, in which case the defaults are applied |
| HotKeys.HotKeyManager.HandleHotKeyPressed | Sources/DODO2/HotKeyManager.swift:28-44 | a readable event is handled and posts the notification its id routes to (or none); an unreadable one posts nothing |
| HotKeys.PackedBound | Sources/DODO2/HotKeyManager.swift:100-106 | the big-endian packing of n bytes is below 256^n |
| HotKeys.PackedStep | Sources/DODO2/HotKeyManager.swift:103 | reading one more character appends one base-256 digit to the packed value |
| HotKeys.PackedFits | Sources/DODO2/HotKeyManager.swift:100-106 | at most four bytes pack into 32 bits |
| HotKeys.ShiftAddStep | Sources/DODO2/HotKeyManager.swift:103 | on `UInt32`, shifting the accumulator and adding a byte never overflows and equals the unbounded step modulo 2^32 |
| HotKeys.FourCharCodeValue | Sources/DODO2/HotKeyManager.swift:100-106 | on every string of byte-sized characters the `UInt32` loop does not trap and yields the big-endian packing modulo 2^32, which for at most four characters is the packing itself |
| HotKeys.SignatureValue | Sources/DODO2/HotKeyManager.swift:56 | the signature "D2HK" packs to 0x4432484B |
| Settings.Defaults | Sources/DODO2/Models/SettingsModel.swift:15-21 | both toggle slots present, enabled, on Space, with a non-zero mask of modifier bits only, and with different modifiers; no quick-add hotkey |
| Settings.ModifierGlyphs | Sources/DODO2/Models/SettingsModel.swift:27-30 | at most four characters, all modifier glyphs |
| Settings.GlyphsShown | Sources/DODO2/Models/SettingsModel.swift:27-30 | each glyph appears iff its Carbon bit is set |
| Settings.GlyphsOrdered | Sources/DODO2/Models/SettingsModel.swift:27-30 | glyphs appear in the order ⌘ ⌥ ⇧ ⌃ |
| Settings.SymbolForKeyCode | Sources/DODO2/Models/SettingsModel.swift:35-52 | a non-empty glyph-free symbol; `"Key(<code>)"` exactly for the codes outside the 13-entry table |
| Settings.Format | Sources/DODO2/Models/SettingsModel.swift:25-33 | the conditional appends and `joined()` produce the modifier glyphs followed by the key symbol |
| Settings.JoinedAppend | Sources/DODO2/Models/SettingsModel.swift:31-32 | appending a part then joining is joining then concatenating |
| Settings.DisplayGlyphs | Sources/DODO2/Models/SettingsModel.swift:27-30 | a modifier glyph occurs in the whole display iff its bit is set |
| Settings.DisplayShape | Sources/DODO2/Models/SettingsModel.swift:25-33 | the display is up to four glyphs in ⌘ ⌥ ⇧ ⌃ order, then exactly the key symbol, which holds no glyph |
| Settings.DisplayIgnoresOtherBits | Sources/DODO2/Models/SettingsModel.swift:27-30 | bits other than the four modifiers do not change the display |
| Settings.SymbolInjective | Sources/DODO2/Models/SettingsModel.swift:35-52 | different key codes get different symbols |
| Settings.FormatCommandOptionSpace | Tests/DODO2Tests/SettingsTests.swift:19-24 | ⌘⌥ with Space displays as "⌘⌥Space" |
| Settings.DefaultsDisplay | Sources/DODO2/Models/SettingsModel.swift:15-21 | the default slots display as "⌥Space" and "⌘⌥Space" |
| Settings.DigitSymbols | Sources/DODO2/Models/SettingsModel.swift:40-48 | the nine ANSI digit key codes display as their digits |
| Keyboard.CarbonMaskUnique | Sources/DODO2/Settings/ShortcutCaptureView.swift:39-46 | the Carbon encoding of a flag set is unique, so both capture controls compute the same mask |
| Keyboard.CarbonMaskZero | Sources/DODO2/Settings/ShortcutCaptureField.swift:13 | the mask is zero exactly when none of the four modifiers is held |
| ShortcutCaptureView.CarbonMask | Sources/DODO2/Settings/ShortcutCaptureView.swift:39-46 | each of the four bits is set iff its flag is held, and no other bit |
| ShortcutCaptureView.ReportedCombo | Sources/DODO2/Settings/ShortcutCaptureView.swift:30-37 | an event is reported iff it has characters and is not key code 0 with a modifier; a report carries the event's key code and its Carbon mask, zero included |
| ShortcutCaptureView.ShortcutCaptureView.constructor | Sources/DODO2/Settings/ShortcutCaptureView.swift:4-6 | the two bindings start with the given values |
| ShortcutCaptureView.ShortcutCaptureView.KeyDown | Sources/DODO2/Settings/ShortcutCaptureView.swift:10-13 | an ignored event changes nothing; any other overwrites both bindings with the code and mask |
| ShortcutCaptureField.ToCarbon | Sources/DODO2/Settings/ShortcutCaptureField.swift:32-39 | each of the four bits is set iff its flag is held, and no other bit |
| ShortcutCaptureField.OnUpdate | Sources/DODO2/Settings/ShortcutCaptureField.swift:11-15 | a zero mask keeps both bindings; a non-zero mask sets both to the update |
| ShortcutCaptureField.RunKeepsModifier | Sources/DODO2/Settings/ShortcutCaptureField.swift:13-14 | after any sequence of updates the modifiers are zero only if they were zero at first |
| ShortcutCaptureField.RunLastWithModifier | Sources/DODO2/Settings/ShortcutCaptureField.swift:13-14 | the bindings end as the last update with a modifier, or unchanged if there was none |
| ShortcutCaptureField.ShortcutCaptureField.constructor | Sources/DODO2/Settings/ShortcutCaptureField.swift:5-7 | the two bindings start with the given values |
| ShortcutCaptureField.ShortcutCaptureField.KeyDown | Sources/DODO2/Settings/ShortcutCaptureField.swift:26-30 | the bindings become `OnUpdate` of the old bindings with the event's code and Carbon mask, and the field beeps exactly when the mask is zero |
| Preferences.WithPrimaryEnabled | Sources/DODO2/Settings/PreferencesView.swift:85-90 | the getter then reads `on`; a missing slot is seeded from the defaults; only the primary slot changes, keeping its combination |
| Preferences.WithFallbackEnabled | Sources/DODO2/Settings/PreferencesView.swift:100-105 | the same for the fallback slot |
| Preferences.WithQuickAddEnabled | Sources/DODO2/Settings/PreferencesView.swift:120-128 | a missing slot becomes ⌘⇧N with `enabled = on`, an existing one changes only `enabled`; nothing else changes |
| Preferences.PrimaryToggleBack | Sources/DODO2/Settings/PreferencesView.swift:86-90 | enabling then disabling a present, disabled primary slot restores the settings |
| Preferences.StatusBadgeDistinct | Sources/DODO2/Settings/PreferencesView.swift:242-253 | the badge text tells statuses apart, except the error payload; red means denied or error |
| Preferences.PreferencesView.constructor | Sources/DODO2/Settings/PreferencesView.swift:14-26 | settings are the stored ones or the defaults; the overlay fields come from their overlay hotkey or the default combination; compatibility mode is off when unset |
| Preferences.PreferencesView.SaveSettings | Sources/DODO2/Settings/PreferencesView.swift:200-205 | the settings are saved, then applied to the registry, which releases every old registration and holds exactly the wanted, accepted slots |
| Preferences.PreferencesView.ApplyOverlayHotKey | Sources/DODO2/Settings/PreferencesView.swift:207-235 | a zero mask only raises an alert and leaves settings, fields and registry unchanged; success makes the fields' combination the saved overlay hotkey and announces it; failure reverts fields and settings to the saved or default combination, saves and alerts; after a save the registry holds exactly the wanted, accepted slots and no old registration; compatibility mode is kept |
| Preferences.PreferencesView.ResetDefault | Sources/DODO2/Settings/PreferencesView.swift:47-51 | the default combination goes through the same apply: a zero default mask only alerts, leaving settings and registry unchanged; success saves it as the overlay hotkey and announces it; failure reverts fields and settings to the saved overlay hotkey or the default, saves and alerts; after a save the registry holds exactly the wanted, accepted slots and no old registration |
| Preferences.PreferencesView.SetCompatMode | Sources/DODO2/Settings/PreferencesView.swift:64-69 | the choice is recorded in the settings, which are saved; the registry then holds exactly the wanted, accepted slots and no old registration; the overlay fields, start attempts, announcements and alerts are untouched |
| Preferences.PreferencesView.SetPrimaryEnabled | Sources/DODO2/Settings/PreferencesView.swift:86-90 | the settings become `WithPrimaryEnabled` and are saved; the slot is registered iff turned on and accepted, the registry holds exactly the wanted, accepted slots and no old registration; nothing else changes |
| Preferences.PreferencesView.SetFallbackEnabled | Sources/DODO2/Settings/PreferencesView.swift:101-105 | the settings become `WithFallbackEnabled` and are saved; the slot is registered iff turned on and accepted, the registry holds exactly the wanted, accepted slots and no old registration; nothing else changes |
| Preferences.PreferencesView.SetQuickAddEnabled | Sources/DODO2/Settings/PreferencesView.swift:121-128 | the settings become `WithQuickAddEnabled` and are saved; the slot is registered iff turned on and accepted, the registry holds exactly the wanted, accepted slots and no old registration; nothing else changes |
| Preferences.PreferencesView.CaptureOverlayKey | Sources/DODO2/Settings/PreferencesView.swift:44 | the overlay's capture view writes both fields unless the event is ignored |
| TaskItems.QuadrantOf | Sources/DODO2/Model/TaskItem.swift:16-23 | each quadrant iff its (importance ≥ 2, urgency ≥ 2) pair |
| TaskItems.ClampLevel | Sources/DODO2/Model/TaskItem.swift:27-28 | the result is in 0...3, equal to the input when in range, 3 above, 0 below |
| TaskItems.Updating | Sources/DODO2/Model/TaskItem.swift:25-31 | supplied levels are clamped, missing ones kept; id, title, notes, creation time kept; update time set to the clock, so later than before when the clock advanced |
| TaskItems.UpdatingInRangeIdempotent | Sources/DODO2/Model/TaskItem.swift:25-31 | updating keeps in-range levels in range, and repeating the same update changes nothing more |
| TaskItems.UpdatingClampsExample | Tests/DODO2Tests/TaskItemTests.swift:12-17 | urgency 5 becomes 3 and importance −2 becomes 0 |
| TaskItems.ToggleSequence | Tests/DODO2Tests/TaskItemTests.swift:21-30 | from (1, 1): importance 3 gives schedule, urgency 3 then gives do-first, and (1, 1) gives eliminate |
| PriorityMatrix.FilterQuadrant | Sources/DODO2/UI/Matrix/PriorityMatrixView.swift:216-224 | only `all` has no quadrant |
| PriorityMatrix.FilterQuadrantInverse | Sources/DODO2/UI/Matrix/PriorityMatrixView.swift:216-224 | every quadrant is the quadrant of exactly its same-named filter case |
| PriorityMatrix.Dropped | Sources/DODO2/UI/Matrix/PriorityMatrixView.swift:107-117 | with the four level pairs, the dropped item lands in the target quadrant, keeping its identity and content |
| PriorityMatrix.IndexOfPayload | Sources/DODO2/UI/Matrix/PriorityMatrixView.swift:102-104 | the first item whose id the payload parses to; none when the payload is no UUID or no item has it |
| PriorityMatrix.DropTarget | Sources/DODO2/UI/Matrix/PriorityMatrixView.swift:98-105 | a target exists only for an accepted drop and is a valid index |
| PriorityMatrix.DropFindsDraggedItem | Sources/DODO2/UI/Matrix/PriorityMatrixView.swift:102-104 | the text form of an item's id finds that item, if it is the first with the id |
| PriorityMatrix.SortedItems | Sources/DODO2/UI/Matrix/PriorityMatrixView.swift:91-93 | exactly the items of the quadrant, as a multiset, ordered by non-increasing update time |
| PriorityMatrix.NewestFirst | Sources/DODO2/UI/Matrix/PriorityMatrixView.swift:92 | a newest-first permutation has the same elements with non-increasing update times |
| PriorityMatrix.MembersOf | Sources/DODO2/UI/Matrix/PriorityMatrixView.swift:92 | the quadrant filter keeps exactly the items of that quadrant |
| PriorityMatrix.SortedItemsKeepsOrder | Sources/DODO2/UI/Matrix/PriorityMatrixView.swift:92 | a quadrant already listed newest first keeps its list order |
| PriorityMatrix.Counts | Sources/DODO2/UI/Matrix/PriorityMatrixView.swift:153-155 | a key for exactly the non-empty quadrants, each with its number of items |
| PriorityMatrix.CountInCons | Sources/DODO2/UI/Matrix/PriorityMatrixView.swift:154 | the first item adds one to its own quadrant's count and none to the others |
| PriorityMatrix.CountsSum | Sources/DODO2/UI/Matrix/PriorityMatrixView.swift:153-155 | the counts sum to the number of items |
| PriorityMatrix.ToggledLevel | Sources/DODO2/UI/Matrix/PriorityMatrixView.swift:125-130 | the new level is 1 or 3 and flips the high/low status |
| PriorityMatrix.Dummy | Sources/DODO2/UI/Matrix/PriorityMatrixView.swift:148 | the new item carries the given id, is titled "New Task", without notes, in eliminate, created and updated at `now` |
| PriorityMatrix.PriorityMatrixView.constructor | Sources/DODO2/UI/Matrix/PriorityMatrixView.swift:143 | the items are the loaded ones, the filter is `all`, nothing saved |
| PriorityMatrix.PriorityMatrixView.HandleDrop | Sources/DODO2/UI/Matrix/PriorityMatrixView.swift:97-122 | accepted iff the first provider loads strings; a known id moves that item into the quadrant and saves; anything else changes nothing |
| PriorityMatrix.PriorityMatrixView.ToggleImportant | Sources/DODO2/UI/Matrix/PriorityMatrixView.swift:128-133 | the first equal item gets the toggled importance, urgency untouched, and is saved; an absent item changes nothing |
| PriorityMatrix.PriorityMatrixView.ToggleUrgent | Sources/DODO2/UI/Matrix/PriorityMatrixView.swift:135-140 | the same for urgency, importance untouched |
| PriorityMatrix.PriorityMatrixView.CreateDummy | Sources/DODO2/UI/Matrix/PriorityMatrixView.swift:147-150 | exactly one eliminate item is appended and saved |
| PriorityMatrix.ToggleFlipsOneFlag | Sources/DODO2/UI/Matrix/PriorityMatrixView.swift:125-140 | a toggle flips exactly its own flag and keeps the other level |
| MatrixOverlay.MatrixOverlayView.constructor | Sources/DODO2/UI/Matrix/MatrixOverlayView.swift:5 | the view starts over the bound items with filter `all` |
| MatrixOverlay.MatrixOverlayView.HandleDrop | Sources/DODO2/UI/Matrix/MatrixOverlayView.swift:88-112 | accepted iff the first provider loads strings; a known id changes only the dropped item, which lands in the quadrant; anything else changes nothing |
| MatrixOverlay.MatrixOverlayView.Column | Sources/DODO2/UI/Matrix/MatrixOverlayView.swift:63 | exactly the bound items of the quadrant, each as often as it occurs in `items` (equal multisets), ordered by non-increasing update time |
| MatrixOverlay.DropMovesColumn | Sources/DODO2/UI/Matrix/MatrixOverlayView.swift:63 | after a drop the item shows in the target column and in no other |
| Labels.AllColorsComplete | Sources/DODO2/UI/Theme/BrandTokens.swift:21-22 | every colour case is in `allCases` |
| Labels.Ids | Sources/DODO2/Services/Persistence.swift:101 | the id list lines up with the labels |
| Labels.IdsAppend | Sources/DODO2/Services/Persistence.swift:101 | the id list of a concatenation is the concatenation of id lists |
| Labels.LabelIndex | Sources/DODO2/UI/BottomSheet/HeaderBar.swift:224 | the position of the first label with the id, or none when no label has it |
| Labels.Reindexed | Sources/DODO2/UI/BottomSheet/HeaderBar.swift:219 | each label's order becomes its position, nothing else changes |
| Labels.ReindexedKeeps | Sources/DODO2/Services/Persistence.swift:93-96 | reindexing keeps the ids in place and leaves indexed labels alone |
| Labels.ReindexOrders | Sources/DODO2/Services/Persistence.swift:93-96 | the reindex loop produces `Reindexed` |
| Labels.IdsMultiset | Sources/DODO2/Services/Persistence.swift:100-104 | permuting labels permutes their ids |
| Labels.IdsRemoveAt | Sources/DODO2/UI/BottomSheet/HeaderBar.swift:226 | removing one label removes exactly its id from the id multiset |
| Persistence.EmptyLabelsNeedReindex | Sources/DODO2/Services/Persistence.swift:92 | an empty label list satisfies `allSatisfy`, so migration always saves it |
| Persistence.Migrate | Sources/DODO2/Services/Persistence.swift:89-107 | tasks and settings kept; a missing version becomes 1 and an existing one is kept; labels are a permutation of the reindexed ones with the same id multiset; reindexed when some later label or every label has order 0; indexed labels unchanged; sorted by order when ids are distinct; saved exactly when the version was missing, a reindex was needed or the labels changed, and unchanged when not saved |
| Persistence.DefaultStore | Sources/DODO2/Services/Persistence.swift:70-86 | five labels with distinct ids and orders 0...4, "general" first; six tasks, each under one of them; default settings; version 1 |
| Persistence.DefaultTasks | Sources/DODO2/Services/Persistence.swift:78-85 | six tasks with the supplied ids, each under a seeded label id |
| Persistence.DefaultLabelsWellFormed | Sources/DODO2/Services/Persistence.swift:71-77 | the seeded labels have distinct ids, in order, and are indexed |
| Persistence.DefaultStoreIsMigrated | Sources/DODO2/Services/Persistence.swift:70-107 | the seeded store needs no reindexing and has a version, so migration leaves it alone |
| Persistence.IndexedNeedsNoReindex | Sources/DODO2/Services/Persistence.swift:92 | indexed labels take the reindex branch only when there is at most one |
| Persistence.Load | Sources/DODO2/Services/Persistence.swift:19-33 | an unreadable file gives the default store, written once; a decoded one keeps its tasks, gets the default settings when they are missing, ends with a version and the same label ids, sorted by order when ids are distinct, and is written at most once, always when it had no version |
| Persistence.MigrateLabels | Sources/DODO2/Services/Persistence.swift:92-104 | the label half of `Migrate`: permutation, id multiset, reindex, identity on indexed labels, sortedness |
| Persistence.MigrateIds | Sources/DODO2/Services/Persistence.swift:100-104 | the sort step keeps the id multiset |
| Persistence.IndexedSortKeeps | Sources/DODO2/Services/Persistence.swift:100 | sorting indexed labels changes nothing |
| Persistence.MigrateSorted | Sources/DODO2/Services/Persistence.swift:100-104 | with distinct ids, skipping the reassignment only happens when the labels are already sorted |
| Persistence.SameIdsSameLabels | Sources/DODO2/Services/Persistence.swift:101 | a permutation of labels with distinct ids that leaves the id list in place is the identity |
| BottomSheet.FilterTasks | Sources/DODO2/UI/BottomSheet/BottomSheetRoot.swift:115-121 | an order-preserving subsequence holding each task that matches the label selection and the search exactly as often as it occurs in the list, and nothing else |
| BottomSheet.UnfilteredShowsAll | Sources/DODO2/UI/BottomSheet/BottomSheetRoot.swift:117-118 | with no label selected and an empty search every task is shown |
| BottomSheet.IndexOfId | Sources/DODO2/UI/BottomSheet/BottomSheetRoot.swift:104 | the first task with the id, or none when no task has it |
| BottomSheet.IndexOfTask | Sources/DODO2/UI/BottomSheet/BottomSheetRoot.swift:110 | the first task equal to the given one; none iff it is absent |
| BottomSheet.RelabelledOnlyTarget | Sources/DODO2/UI/BottomSheet/BottomSheetRoot.swift:103-107 | assigning a label changes only the target task's label id, and the target then carries it |
| BottomSheet.Reassigned | Sources/DODO2/UI/BottomSheet/BottomSheetRoot.swift:33-35 | exactly the tasks of the deleted label move to the fallback; the others are kept |
| BottomSheet.CountOf | Sources/DODO2/UI/BottomSheet/BottomSheetRoot.swift:123-127 | a label's count is at most the number of tasks |
| BottomSheet.CountMapCounts | Sources/DODO2/UI/BottomSheet/BottomSheetRoot.swift:123-127 | the dictionary's keys are exactly the used label ids, each with its number of tasks |
| BottomSheet.CountMapSum | Sources/DODO2/UI/BottomSheet/BottomSheetRoot.swift:123-127 | the counts sum to the number of tasks |
| BottomSheet.CountOfPositive | Sources/DODO2/UI/BottomSheet/BottomSheetRoot.swift:125 | every task's label has a positive count |
| BottomSheet.ReassignedCounts | Sources/DODO2/UI/BottomSheet/BottomSheetRoot.swift:33-35 | after reassigning, the deleted label counts 0, the fallback gains its tasks, others are unchanged |
| BottomSheet.FirstMatch | Sources/DODO2/UI/BottomSheet/BottomSheetRoot.swift:90 | the first label whose name equals the text ignoring case, or none when no label matches |
| BottomSheet.LastHashUnique | Sources/DODO2/UI/BottomSheet/BottomSheetRoot.swift:85 | `lastIndex(of: "#")` finds the last `#` |
| BottomSheet.HashLabel | Sources/DODO2/UI/BottomSheet/BottomSheetRoot.swift:85-91 | a result is the last `#`, followed by non-empty text, and the first label matching that text, trimmed |
| BottomSheet.HashLabelNone | Sources/DODO2/UI/BottomSheet/BottomSheetRoot.swift:85-91 | no result with text after the last `#` means no label matches it |
| BottomSheet.ExampleHashPosition | Sources/DODO2/UI/BottomSheet/BottomSheetRoot.swift:85 | in "Buy milk #work" the last `#` is at index 9 |
| BottomSheet.ExampleHashName | Sources/DODO2/UI/BottomSheet/BottomSheetRoot.swift:86-89 | the text after it is "work" |
| BottomSheet.ExampleNameMatch | Sources/DODO2/UI/BottomSheet/BottomSheetRoot.swift:90 | "work" matches the label named "Work" |
| BottomSheet.HashLabelExample | Sources/DODO2/UI/BottomSheet/BottomSheetRoot.swift:85-91 | "Buy milk #work" picks the label named "Work" |
| BottomSheet.HashTitleExample | Sources/DODO2/UI/BottomSheet/BottomSheetRoot.swift:92-93 | the title then becomes "Buy milk" |
| BottomSheet.NoHashNoLabel | Sources/DODO2/UI/BottomSheet/BottomSheetRoot.swift:85 | a title without `#` names no label |
| BottomSheet.ClampedIndex | Sources/DODO2/UI/BottomSheet/BottomSheetRoot.swift:133 | the corrected index: within the visible range, the moved index when in range, 0 below and the last above |
| BottomSheet.ClampedIndexMonotone | Sources/DODO2/UI/BottomSheet/BottomSheetRoot.swift:133 | a larger step never lands earlier |
| BottomSheet.HomeAndEnd | Sources/DODO2/UI/BottomSheet/BottomSheetRoot.swift:133 | with the corrected arithmetic Home selects the first visible task and End the last |
| BottomSheet.MoveIndexAsWritten | Sources/DODO2/UI/BottomSheet/BottomSheetRoot.swift:133 | as written: traps exactly when `currentIndex + delta` leaves the 64-bit range, else the clamped index |
| BottomSheet.EndTrapsAsWritten | Sources/DODO2/UI/BottomSheet/BottomSheetRoot.swift:133 | End (`Int.max`) traps whenever the selection is not the first visible task |
| BottomSheet.EndTrapsExample | Sources/DODO2/UI/BottomSheet/BottomSheetRoot.swift:133 | two visible tasks, the second selected, End: the code traps where the last task was meant |
| BottomSheet.NavigationSafeAsWritten | Sources/DODO2/UI/BottomSheet/BottomSheetRoot.swift:133 | arrows, Home, and End from the first task do not trap |
| BottomSheet.SelectionIndex | Sources/DODO2/UI/BottomSheet/BottomSheetRoot.swift:132 | the selected task's visible position, or 0 when nothing visible is selected |
| BottomSheet.BottomSheetRoot.constructor | Sources/DODO2/UI/BottomSheet/BottomSheetRoot.swift:13-18 | tasks and labels of the loaded store; empty search, no selection |
| BottomSheet.BottomSheetRoot.DefaultLabelId | Sources/DODO2/UI/BottomSheet/BottomSheetRoot.swift:84 | some selected label, else the first label, else "general" |
| BottomSheet.BottomSheetRoot.AddTask | Sources/DODO2/UI/BottomSheet/BottomSheetRoot.swift:82-101 | exactly one not-done task is inserted at the front and selected; a matching `#name` gives its label and strips the suffix, otherwise the title is kept and the default label used |
| BottomSheet.BottomSheetRoot.AssignLabel | Sources/DODO2/UI/BottomSheet/BottomSheetRoot.swift:103-107 | the first task with the id gets the label; an unknown id changes nothing |
| BottomSheet.BottomSheetRoot.ToggleDone | Sources/DODO2/UI/BottomSheet/BottomSheetRoot.swift:109-113 | the first equal task flips `done`; an absent task changes nothing |
| BottomSheet.BottomSheetRoot.Reassign | Sources/DODO2/UI/BottomSheet/BottomSheetRoot.swift:33-35 | the loop produces `Reassigned` |
| BottomSheet.BottomSheetRoot.CountsByLabel | Sources/DODO2/UI/BottomSheet/BottomSheetRoot.swift:123-127 | every task's label is a key, each key maps to its positive count, and the values sum to the number of tasks |
| BottomSheet.BottomSheetRoot.MoveSelection | Sources/DODO2/UI/BottomSheet/BottomSheetRoot.swift:129-135 | nothing visible changes nothing; otherwise the visible task at the corrected clamped index, counted from the selection or 0, is selected |
| BottomSheet.BottomSheetRoot.DeleteSelected | Sources/DODO2/UI/BottomSheet/BottomSheetRoot.swift:137-150 | a confirmed delete of a present selection removes exactly that task and selects the next task, else the new last one, else nothing; otherwise nothing changes |
| BottomSheet.BottomSheetRoot.AssignLabelIndex | Sources/DODO2/UI/BottomSheet/BottomSheetRoot.swift:63-68 | the 1-based label index goes to the selected task; no selection or an out-of-range index changes nothing |
| HeaderBar.Toggled | Sources/DODO2/UI/BottomSheet/HeaderBar.swift:173-179 | the id's membership flips and every other id keeps its membership |
| HeaderBar.ToggledTwice | Sources/DODO2/UI/BottomSheet/HeaderBar.swift:173-179 | toggling twice restores the selection |
| HeaderBar.DeleteFallback | Sources/DODO2/UI/BottomSheet/HeaderBar.swift:216 | "general" when present and not the one deleted; otherwise the first label whose id is not the deleted one; the deleted id only when no other label exists |
| HeaderBar.FirstUnusedColor | Sources/DODO2/UI/BottomSheet/HeaderBar.swift:233-234 | an unused colour with every earlier case used; none only when every colour is used |
| HeaderBar.StoredName | Sources/DODO2/UI/BottomSheet/HeaderBar.swift:192-200 | the trimmed draft cut to its first 24 characters: a prefix of the trimmed draft, all of it when it is that short and exactly 24 characters otherwise; non-empty and not starting with whitespace when the draft is not blank |
| HeaderBar.EditTarget | Sources/DODO2/UI/BottomSheet/HeaderBar.swift:194 | the index of the first label with the edited id, whenever the edited label still exists |
| HeaderBar.SubmitKeepsIndexed | Sources/DODO2/UI/BottomSheet/HeaderBar.swift:194-202 | renaming and appending with order = count keep labels indexed |
| HeaderBar.HeaderBar.constructor | Sources/DODO2/UI/BottomSheet/HeaderBar.swift:23-27 | no edit in progress, empty draft in gray, no chip focus, popover closed |
| HeaderBar.HeaderBar.ToggleLabel | Sources/DODO2/UI/BottomSheet/HeaderBar.swift:173-179 | the root's selection becomes `Toggled` |
| HeaderBar.HeaderBar.SubmitLabelEdit | Sources/DODO2/UI/BottomSheet/HeaderBar.swift:191-205 | a blank name only closes the popover; otherwise the edited label is renamed and recoloured, or a label with order = old count is appended, with the cut name |
| HeaderBar.HeaderBar.ReindexLabels | Sources/DODO2/UI/BottomSheet/HeaderBar.swift:219 | the root's labels become `Reindexed` |
| HeaderBar.HeaderBar.DeleteLabel | Sources/DODO2/UI/BottomSheet/HeaderBar.swift:207-221 | a confirmed delete moves the label's tasks to the fallback, removes the label and reindexes; a refused one changes nothing |
| HeaderBar.HeaderBar.MoveLabel | Sources/DODO2/UI/BottomSheet/HeaderBar.swift:223-230 | the dragged label moves to the target's index and orders are reindexed; an unknown id changes nothing |
| HeaderBar.HeaderBar.NextDistinctColor | Sources/DODO2/UI/BottomSheet/HeaderBar.swift:232-236 | the first unused colour whenever one exists |
| HeaderBar.HeaderBar.MoveChipFocus | Sources/DODO2/UI/BottomSheet/HeaderBar.swift:238-244 | no focus without labels; otherwise the focus, or 0, moved and clamped into range |
| HeaderBar.HeaderBar.ToggleFocusChip | Sources/DODO2/UI/BottomSheet/HeaderBar.swift:246-249 | the focused chip's label is toggled; no focus or a stale index changes nothing |
| HeaderBar.MoveLabelKeepsIds | Sources/DODO2/UI/BottomSheet/HeaderBar.swift:223-230 | a move keeps every id exactly once, puts the dragged label at the target index, and leaves orders indexed |
| DragDrop.TaskId | Sources/DODO2/Services/DragDrop.swift:4-7 | no `task:` prefix gives no id |
| DragDrop.Payload | Sources/DODO2/UI/BottomSheet/TaskCardView.swift:39 | a card's payload is `task:` and the 36-character UUID text |
| DragDrop.TaskIdPayload | Tests/DODO2Tests/PersistenceTests.swift:7 | a card's payload reads back as its task's id |
| DragDrop.TaskIdSuffixOnly | Sources/DODO2/Services/DragDrop.swift:6 | only the text after the five-character prefix is parsed |
| DragDrop.TaskIdNeedsPrefix | Sources/DODO2/Services/DragDrop.swift:5 | a bare UUID text is refused |
| DragDrop.TaskIdRejectsNonUuid | Tests/DODO2Tests/PersistenceTests.swift:9 | `task:not-a-uuid` gives no id |
| Uuid.Format | Sources/DODO2/UI/BottomSheet/TaskCardView.swift:39 | 36 characters, hyphens at 8, 13, 18 and 23 and each digit in place |
| Uuid.Parse | Sources/DODO2/Services/DragDrop.swift:6 | accepts exactly the 8-4-4-4-12 hexadecimal form and reads each digit |
| Uuid.ParseFormat | Sources/DODO2/Services/DragDrop.swift:6 | parsing an identifier's text form gives it back |
| PanelWindow.NavigationDir | Sources/DODO2/PanelWindowController.swift:240-255 | the four navigation keys, and only they, post a direction, each within `Int` |
| PanelWindow.RouteKey | Sources/DODO2/PanelWindowController.swift:215-257 | consumed iff something is posted; ⌘M toggles the matrix even while editing text; editing text passes every other key through; each other notice is posted only for its own key |
| PanelWindow.BareLetterToggles | Sources/DODO2/PanelWindowController.swift:226-235 | a bare `i` or `u` toggles importance or urgency; with a modifier held it does not |
| PanelWindow.NavigationKeys | Sources/DODO2/PanelWindowController.swift:240-252 | arrows, Home and End post −1, 1, `Int.min`, `Int.max` unless an earlier rule applies |
| PanelWindow.CommandDeleteDeletes | Sources/DODO2/PanelWindowController.swift:236-239 | ⌘ with key code 51 posts delete-selection |
| PanelWindow.OtherKeysPassThrough | Sources/DODO2/PanelWindowController.swift:253-256 | a key no rule claims is returned unconsumed |
| PanelWindow.PanelWindowController.constructor | Sources/DODO2/PanelWindowController.swift:12-14 | no monitor is installed |
| PanelWindow.PanelWindowController.InstallKeyMonitor | Sources/DODO2/PanelWindowController.swift:213-215 | installs a monitor only when none is held, so a second call changes nothing |
| PanelWindow.PanelWindowController.RemoveKeyMonitor | Sources/DODO2/PanelWindowController.swift:260-262 | removes the held monitor, if any, and clears the slot |
| PanelWindow.PanelWindowController.InstallOutsideClickMonitors | Sources/DODO2/PanelWindowController.swift:265-291 | installs both click monitors only when neither is held |
| PanelWindow.PanelWindowController.RemoveOutsideClickMonitors | Sources/DODO2/PanelWindowController.swift:293-296 | removes and clears both click monitors, leaving only the key monitor live |
| Collections.FirstIndex | Sources/DODO2/UI/BottomSheet/BottomSheetRoot.swift:104 | `firstIndex(where:)`: the first satisfying index, or none when no element satisfies |
| Collections.Filter | Sources/DODO2/UI/BottomSheet/BottomSheetRoot.swift:116 | `filter`: an order-preserving subsequence holding every satisfying element and nothing else (how often each is kept is stated by `FilterCounts`) |
| Collections.FilterCounts | Sources/DODO2/UI/BottomSheet/BottomSheetRoot.swift:116 | `filter` keeps every occurrence: each satisfying element occurs in the result exactly as often as in the input, every other element not at all |
| Collections.Moved | Sources/DODO2/UI/BottomSheet/HeaderBar.swift:226-227 | `remove(at:)` then `insert(_:at:)`: the element lands at the target index and the others keep their order |
| Collections.MovedPermutes | Sources/DODO2/UI/BottomSheet/HeaderBar.swift:226-227 | a move is a permutation |
| Sorting.SortBy | Sources/DODO2/Services/Persistence.swift:100 | `sorted(by:)` on an integer key: a permutation with non-decreasing keys |
| Sorting.SortBySorted | Sources/DODO2/Services/Persistence.swift:100 | an already sorted sequence is left as it is |
| Text.Trim | Sources/DODO2/UI/BottomSheet/BottomSheetRoot.swift:83 | `trimmingCharacters(in:)`: only characters of the set are cut, from the two ends, and the result neither starts nor ends with one |
| Text.Prefix | Sources/DODO2/UI/BottomSheet/HeaderBar.swift:195 | `prefix(n)`: the first n characters, or the whole string when it is shorter |
| Text.LastIndexOf | Sources/DODO2/UI/BottomSheet/BottomSheetRoot.swift:85 | `lastIndex(of:)`: the last occurrence, or none when absent |

## Left out

- Carbon calls (`InstallEventHandler`, `RegisterEventHotKey`, `UnregisterEventHotKey`, `GetEventParameter`) are
  reduced to the `Os` answers. The `EventHotKeyRef` is a counter-issued handle.
- `NSLog` lines are left out, except the rate-limited registration warning, which is a log of times.
- `NotificationCenter` posts are logs (`posted`, `announced`) or a `Route` value.
- `HotKeyManager.start(with:)`, `status`, `enableCompatibilityMode`, `fireForTest` and `SettingsModel.defaultHotKey`
  are not defined in the modelled files.
  - `start`'s answer is the `startOk` input, and `defaultHotKey` is a constructor parameter.
  - The status is an input to the badge mapping.
  - The compatibility-mode call is not modelled.
  - The event-tap strategy, the status state machine and the debouncer are not part of this model.
  - `HotKeyManager+UI.swift` is not part of this model.
- `SettingsModel.overlayHotKey` and `useCompatibilityMode` are used but not declared in the modelled files. They
  are two optional fields, and `defaults` leaves both unset.
- A failed overlay start is not retried with the built-in default. `applyOverlayHotKey` falls back once to the
  saved overlay hotkey or `defaultHotKey`, saves and alerts, and no second start is attempted.
- The hotkey handler is installed at the start of `apply` and `registerHotKeys`, before any registration, and its
  flag is set only when installation succeeds, so a failed installation is tried again on the next call.
- File I/O is not modelled: JSON coding, the atomic write, the debounced save queue, `flush` and
  `ensureParentDir`.
  - `Load` takes the decoded store or `None`.
  - `saveSettings` records the settings written, not the reloaded store around them.
  - `BottomSheetRoot.saveStore` (which writes a store without settings) is not modelled.
  - `Store/TaskPersistence.swift` is not part of this model: the matrix view's saves are a log of item snapshots.
- The `NSAlert` answers are the `confirmed` inputs. The alert texts are left out.
- UUID generation is replaced by `newId` and `uuid` parameters. `Date()` is the integer clock `now`, passed in.
  - A new matrix item's `createdAt` and `updatedAt` are both `now`. The source evaluates `Date()` twice, so the
    two may differ slightly there.
  - The seeded `Task`s have no timestamps.
- Strings are sequences of Unicode scalars, not of grapheme clusters.
  - Case folding covers ASCII letters only.
  - The whitespace sets are listed explicitly.
  - `localizedCaseInsensitiveContains` is an ASCII-folded infix test.
- The order of `Set.first` is not modelled: `DefaultLabelId` may pick any selected label. The same holds for
  `randomElement()` once all colours are used.
- Swift's `sorted(by:)` is not guaranteed stable. The model sorts stably:
  - Sorting.SortBy: the order of labels with equal `order` is fixed here, while the source leaves it unspecified.
  - PriorityMatrix.SortedItems: same-time items in a column are in list order here.
- Persistence.Migrate: "sorted by order" is stated only for labels with distinct ids. With repeated ids the
  id-list comparison can skip a reorder.
- Persistence.Load: for a decoded store it states only the version, task, settings and label-id parts of `Migrate`,
  and that a write happens at most once. It does not restate when the write happens beyond a missing version.
- HeaderBar.HeaderBar.NextDistinctColor: constrained only when some colour is unused. The random pick after that
  is any colour.
- HotKeys.FourCharCodeValue: the result is stated only for strings of byte-sized characters. A scalar above 255
  can make the `UInt32` addition trap, and for such strings the model does not state when it does.
- The `DispatchQueue.main.async` hops in the drop handlers are left out. Each drop is one synchronous update, and
  the item is looked up at drop time.
- `PreferencesView`'s labels tab is not part of this model.
- These are not part of this model:
  - `beginEdit` and `commitQuickAdd` (its trim is modelled in `AddTask`).
  - `suggestNameForTask`, the `labelsDidChange` receiver and the coachmark.
  - View bodies, layout and geometry.
- The key monitor's `[weak self]` guard and the AppKit monitor tokens are not modelled. Tokens are
  counter-issued numbers.
- Two source inconsistencies are modelled file by file:
  - `MatrixOverlayView` binds `[Task]` but uses `TaskItem` members, so it is modelled over `TaskItem`.
  - `BottomSheetRoot` builds `HeaderBar` with fewer arguments than `HeaderBar` declares. `HeaderBar` is modelled
    over the root's `labels`, `selectedLabels`, `tasks` and reassign closure.

## Findings

| source | as written | input that shows it | evidently intended | confidence | as-written member | corrected member |
|---|---|---|---|---|---|---|
| Sources/DODO2/UI/BottomSheet/BottomSheetRoot.swift:133 (with Sources/DODO2/PanelWindowController.swift:250-252) | `min(max(0, currentIndex + delta), visible.count - 1)` adds `delta` on 64-bit `Int`, and End posts `delta = Int.max`, so the addition overflows and traps whenever the selection is not the first visible task | two visible tasks, the second selected, End pressed: `1 + Int.max` overflows | End selects the last visible task (clamp without overflow) | not executed | BottomSheet.MoveIndexAsWritten (BottomSheet.EndTrapsAsWritten, BottomSheet.EndTrapsExample) | BottomSheet.ClampedIndex (BottomSheet.HomeAndEnd, used by BottomSheet.BottomSheetRoot.MoveSelection) |
