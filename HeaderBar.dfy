/**
 * The label chips of the bottom sheet's header (`HeaderBar`): selecting, creating, renaming, deleting and
 * reordering labels, and moving the keyboard focus between chips. The `labels` and `selectedLabels` bindings and
 * the reassign closure are those of the `BottomSheetRoot` the bar belongs to.
 */
module HeaderBar {
  import opened Wrappers
  import opened Text
  import opened Collections
  import opened Labels
  import opened BottomSheet

  /** The longest label name `submitLabelEdit` stores. */
  const MaxNameLength: nat := 24

  /** `s` with `id`'s membership flipped. */
  function Toggled(s: set<string>, id: string): (r: set<string>)
    ensures id in r <==> id !in s
    ensures forall x :: x != id ==> (x in r <==> x in s)
  {
    if id in s then s - {id} else s + {id}
  }

  /** Toggling the same id twice restores the selection. */
  lemma ToggledTwice(s: set<string>, id: string)
    ensures Toggled(Toggled(s, id), id) == s
  {
  }

  /**
   * The label a deleted label's tasks move to: "general" unless it is the one deleted, else the first other
   * label, else the deleted label itself.
   */
  function DeleteFallback(labels: seq<Label>, deletedId: string): (r: string)
    ensures (exists i :: 0 <= i < |labels| && labels[i].id == GeneralId) && deletedId != GeneralId ==> r == GeneralId
    ensures r != deletedId ==> exists i :: 0 <= i < |labels| && labels[i].id == r
    ensures r == deletedId ==> forall i :: 0 <= i < |labels| ==> labels[i].id == deletedId
    ensures r != GeneralId && r != deletedId ==>
      exists i :: 0 <= i < |labels| && labels[i].id == r && forall j :: 0 <= j < i ==> labels[j].id == deletedId
  {
    match FirstIndex(labels, (l: Label) => l.id == GeneralId && l.id != deletedId)
    case Some(i) => labels[i].id
    case None =>
      match FirstIndex(labels, (l: Label) => l.id != deletedId)
      case Some(i) => labels[i].id
      case None => deletedId
  }

  /** The colours some label already uses. */
  function UsedColors(labels: seq<Label>): set<BrandColor>
  {
    set l | l in labels :: l.color
  }

  /** The first `BrandColor` case, in declaration order, that no label uses. */
  function FirstUnusedColor(labels: seq<Label>): (r: Option<BrandColor>)
    ensures r.Some? ==> r.value !in UsedColors(labels)
    ensures r.Some? ==> exists k :: 0 <= k < |AllColors| && AllColors[k] == r.value &&
                                 (forall j :: 0 <= j < k ==> AllColors[j] in UsedColors(labels))
    ensures r.None? ==> forall c: BrandColor :: c in UsedColors(labels)
  {
    match FirstIndex(AllColors, (c: BrandColor) => c !in UsedColors(labels))
    case Some(k) => Some(AllColors[k])
    case None =>
      assert forall c: BrandColor :: c in UsedColors(labels) by {
        forall c: BrandColor ensures c in UsedColors(labels) {
          AllColorsComplete(c);
        }
      }
      None
  }

  /** The draft name is empty once trimmed. */
  predicate Blank(draft: string)
  {
    Trim(draft, IsWhitespaceOrNewline) == []
  }

  /** The name `submitLabelEdit` stores: the trimmed draft, cut to `MaxNameLength` characters. */
  function StoredName(draft: string): (r: string)
    ensures |r| <= MaxNameLength
    ensures !Blank(draft) ==> r != [] && !IsWhitespaceOrNewline(r[0])
    ensures HasPrefix(Trim(draft, IsWhitespaceOrNewline), r)
    ensures |Trim(draft, IsWhitespaceOrNewline)| <= MaxNameLength ==> r == Trim(draft, IsWhitespaceOrNewline)
    ensures |Trim(draft, IsWhitespaceOrNewline)| > MaxNameLength ==> |r| == MaxNameLength
  {
    Prefix(Trim(draft, IsWhitespaceOrNewline), MaxNameLength)
  }

  /** The index of the label being edited, if there is one and it still exists. */
  function EditTarget(labels: seq<Label>, editing: Option<string>): (r: Option<nat>)
    ensures r.Some? ==> editing.Some? && r.value < |labels| && labels[r.value].id == editing.value
    ensures r.Some? ==> forall j :: 0 <= j < r.value ==> labels[j].id != editing.value
    ensures editing.Some? && (exists i :: 0 <= i < |labels| && labels[i].id == editing.value) ==> r.Some?
  {
    if editing.Some? then LabelIndex(labels, editing.value) else None
  }

  /** Renaming keeps positions and orders, and appending with order `|labels|` extends an indexed list. */
  lemma SubmitKeepsIndexed(labels: seq<Label>, i: nat, name: string, color: BrandColor, newId: string)
    requires Indexed(labels)
    ensures i < |labels| ==> Indexed(labels[i := labels[i].(name := name, color := color)])
    ensures Indexed(labels + [Label(newId, name, color, |labels|)])
  {
  }

  class HeaderBar {
    const root: BottomSheetRoot
    var editingLabelId: Option<string>
    var draftName: string
    var draftColor: BrandColor
    var chipFocusIndex: Option<int>
    var showLabelPopover: bool

    constructor(root: BottomSheetRoot)
      ensures this.root == root
      ensures editingLabelId == None && draftName == [] && draftColor == Gray
      ensures chipFocusIndex == None && !showLabelPopover
    {
      this.root := root;
      editingLabelId := None;
      draftName := [];
      draftColor := Gray;
      chipFocusIndex := None;
      showLabelPopover := false;
    }

    /** `toggleLabel(_:)`. */
    method ToggleLabel(id: string)
      modifies root`selectedLabels
      ensures root.selectedLabels == Toggled(old(root.selectedLabels), id)
    {
      if id in root.selectedLabels {
        root.selectedLabels := root.selectedLabels - {id};
      } else {
        root.selectedLabels := root.selectedLabels + {id};
      }
    }

    /**
     * `submitLabelEdit()`; `newId` is the fresh UUID string a created label gets. A blank name only closes the
     * popover; otherwise the label being edited is renamed and recoloured, or a new label is appended.
     */
    method SubmitLabelEdit(newId: string)
      modifies root`labels, this`showLabelPopover, this`editingLabelId
      ensures !showLabelPopover
      ensures Blank(draftName) ==> root.labels == old(root.labels) && editingLabelId == old(editingLabelId)
      ensures !Blank(draftName) ==> editingLabelId == None
      ensures !Blank(draftName) && EditTarget(old(root.labels), old(editingLabelId)).Some? ==>
        var i := EditTarget(old(root.labels), old(editingLabelId)).value;
        root.labels == old(root.labels)[i := old(root.labels)[i].(name := StoredName(draftName), color := draftColor)]
      ensures !Blank(draftName) && EditTarget(old(root.labels), old(editingLabelId)).None? ==>
        root.labels == old(root.labels) + [Label(newId, StoredName(draftName), draftColor, |old(root.labels)|)]
    {
      if Blank(draftName) {
        showLabelPopover := false;
        return;
      }
      var name := StoredName(draftName);
      var idx := EditTarget(root.labels, editingLabelId);
      if idx.Some? {
        var i := idx.value;
        root.labels := root.labels[i := root.labels[i].(name := name, color := draftColor)];
      } else {
        var ord := |root.labels|;
        root.labels := root.labels + [Label(newId, name, draftColor, ord)];
      }
      showLabelPopover := false;
      editingLabelId := None;
    }

    /** The reindex step of `deleteLabel`: every label's order becomes its position. */
    method ReindexLabels()
      modifies root`labels
      ensures root.labels == Reindexed(old(root.labels))
    {
      root.labels := ReindexOrders(root.labels);
    }

    /**
     * `deleteLabel(_:)`, with `confirmed` the answer to the alert: the `deleted` label's tasks move to `DeleteFallback`, the
     * label is removed and the remaining labels are reindexed.
     */
    method DeleteLabel(deleted: Label, confirmed: bool)
      modifies root`labels, root`tasks
      ensures !confirmed ==> root.labels == old(root.labels) && root.tasks == old(root.tasks)
      ensures confirmed ==>
        root.tasks == Reassigned(old(root.tasks), deleted.id, DeleteFallback(old(root.labels), deleted.id)) &&
        root.labels == Reindexed(Filter(old(root.labels), (l: Label) => l.id != deleted.id))
      ensures confirmed ==> Indexed(root.labels) && forall i :: 0 <= i < |root.labels| ==> root.labels[i].id != deleted.id
    {
      if !confirmed {
        return;
      }
      var fallback := DeleteFallback(root.labels, deleted.id);
      root.Reassign(deleted.id, fallback);
      root.labels := Filter(root.labels, (l: Label) => l.id != deleted.id);
      ghost var kept := root.labels;
      ReindexLabels();
      ReindexedKeeps(kept);
      forall i | 0 <= i < |root.labels| ensures root.labels[i].id != deleted.id {
        assert Ids(root.labels)[i] == Ids(kept)[i];
        assert kept[i] in kept;
      }
    }

    /**
     * `moveLabel(id:toBefore:)`: the dragged label takes the target's index, the others keep their relative order,
     * and orders are reindexed. An unknown id changes nothing.
     */
    method MoveLabel(draggedId: string, targetId: string)
      modifies root`labels
      ensures LabelIndex(old(root.labels), draggedId).None? || LabelIndex(old(root.labels), targetId).None? ==>
        root.labels == old(root.labels)
      ensures LabelIndex(old(root.labels), draggedId).Some? && LabelIndex(old(root.labels), targetId).Some? ==>
        var from := LabelIndex(old(root.labels), draggedId).value;
        var to := LabelIndex(old(root.labels), targetId).value;
        root.labels == Reindexed(Moved(old(root.labels), from, to))
    {
      var from := LabelIndex(root.labels, draggedId);
      var to := LabelIndex(root.labels, targetId);
      if from.None? || to.None? {
        return;
      }
      var copy := root.labels;
      var item := copy[from.value];
      copy := copy[..from.value] + copy[from.value + 1..];
      copy := copy[..to.value] + [item] + copy[to.value..];
      copy := ReindexOrders(copy);
      root.labels := copy;
    }

    /** `nextDistinctColor()`: the first unused colour, or any colour once all are in use. */
    method NextDistinctColor() returns (c: BrandColor)
      ensures FirstUnusedColor(root.labels).Some? ==> c == FirstUnusedColor(root.labels).value
    {
      var unused := FirstUnusedColor(root.labels);
      if unused.Some? {
        c := unused.value;
      } else {
        c :| c in AllColors;
      }
    }

    /** `moveChipFocus(_:)`: no focus without labels, else the focus moves by `delta` and is clamped. */
    method MoveChipFocus(delta: int)
      modifies this`chipFocusIndex
      ensures root.labels == [] ==> chipFocusIndex == None
      ensures root.labels != [] ==>
        chipFocusIndex == Some(ClampedIndex(if old(chipFocusIndex).Some? then old(chipFocusIndex).value else 0, delta, |root.labels|))
    {
      if root.labels == [] {
        chipFocusIndex := None;
        return;
      }
      var current := if chipFocusIndex.Some? then chipFocusIndex.value else 0;
      chipFocusIndex := Some(ClampedIndex(current, delta, |root.labels|));
    }

    /** `toggleFocusChip()`: toggles the focused chip's label; no focus or a stale index changes nothing. */
    method ToggleFocusChip()
      modifies root`selectedLabels
      ensures chipFocusIndex.None? || !(0 <= chipFocusIndex.value < |root.labels|) ==>
        root.selectedLabels == old(root.selectedLabels)
      ensures chipFocusIndex.Some? && 0 <= chipFocusIndex.value < |root.labels| ==>
        root.selectedLabels == Toggled(old(root.selectedLabels), root.labels[chipFocusIndex.value].id)
    {
      if chipFocusIndex.None? || !(0 <= chipFocusIndex.value < |root.labels|) {
        return;
      }
      ToggleLabel(root.labels[chipFocusIndex.value].id);
    }
  }

  /** Moving a label keeps every label id exactly once and puts the dragged label at the target's index. */
  lemma MoveLabelKeepsIds(labels: seq<Label>, from: nat, to: nat)
    requires from < |labels| && to < |labels|
    ensures multiset(Ids(Reindexed(Moved(labels, from, to)))) == multiset(Ids(labels))
    ensures Reindexed(Moved(labels, from, to))[to].id == labels[from].id
    ensures Indexed(Reindexed(Moved(labels, from, to)))
  {
    var m := Moved(labels, from, to);
    ReindexedKeeps(m);
    MovedPermutes(labels, from, to);
    IdsMultiset(m, labels);
  }
}
