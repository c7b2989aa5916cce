/**
 * The task list behind the bottom sheet (`BottomSheetRoot`): quick add with a `#label` suffix, label assignment,
 * done toggling, filtering, per-label counts, keyboard selection and deletion.
 */
module BottomSheet {
  import opened Wrappers
  import opened Uuid
  import opened Text
  import opened Collections
  import opened Labels
  import opened SwiftInt

  /** The test `filteredTasks` applies to one task. */
  predicate Matches(t: Task, selected: set<string>, search: string)
  {
    (selected == {} || t.labelId in selected) && (search == [] || ContainsIgnoringCase(t.title, search))
  }

  /** `filteredTasks()`: the tasks that pass `Matches`, in their order. */
  function FilterTasks(tasks: seq<Task>, selected: set<string>, search: string): (r: seq<Task>)
    ensures IsSubsequence(r, tasks)
    ensures forall t :: t in r <==> t in tasks && Matches(t, selected, search)
    ensures forall t :: multiset(r)[t] == if Matches(t, selected, search) then multiset(tasks)[t] else 0
  {
    FilterCounts(tasks, t => Matches(t, selected, search));
    Filter(tasks, t => Matches(t, selected, search))
  }

  /** With no label selected and an empty search the whole list is shown. */
  lemma UnfilteredShowsAll(tasks: seq<Task>)
    ensures FilterTasks(tasks, {}, []) == tasks
  {
    FilterAll(tasks, t => Matches(t, {}, []));
  }

  /** The position of the first task with id `id`. */
  function IndexOfId(tasks: seq<Task>, id: Uuid): (r: Option<nat>)
    ensures r.Some? ==> r.value < |tasks| && tasks[r.value].id == id
    ensures r.Some? ==> forall j :: 0 <= j < r.value ==> tasks[j].id != id
    ensures r.None? ==> forall j :: 0 <= j < |tasks| ==> tasks[j].id != id
  {
    FirstIndex(tasks, (t: Task) => t.id == id)
  }

  /** The position of the first task equal to `task`. */
  function IndexOfTask(tasks: seq<Task>, task: Task): (r: Option<nat>)
    ensures r.Some? ==> r.value < |tasks| && tasks[r.value] == task
    ensures r.Some? ==> forall j :: 0 <= j < r.value ==> tasks[j] != task
    ensures r.None? <==> task !in tasks
  {
    FirstIndex(tasks, (t: Task) => t == task)
  }

  /** `after` is `before` with the first task whose id is `taskId` moved to label `labelId` (`assignLabel`). */
  predicate Relabelled(before: seq<Task>, after: seq<Task>, taskId: Uuid, labelId: string)
  {
    match IndexOfId(before, taskId)
    case None => after == before
    case Some(i) => after == before[i := before[i].(labelId := labelId)]
  }

  /** Assigning a label touches only the target task, and only its label. */
  lemma RelabelledOnlyTarget(before: seq<Task>, after: seq<Task>, taskId: Uuid, labelId: string)
    requires Relabelled(before, after, taskId, labelId)
    ensures |after| == |before|
    ensures forall j :: 0 <= j < |before| ==> after[j] == before[j].(labelId := after[j].labelId)
    ensures forall j :: 0 <= j < |before| && before[j].id != taskId ==> after[j] == before[j]
    ensures (exists j :: 0 <= j < |before| && before[j].id == taskId) ==>
      exists j :: 0 <= j < |after| && after[j].id == taskId && after[j].labelId == labelId
  {
    match IndexOfId(before, taskId)
    case None =>
    case Some(i) =>
      assert after[i].id == taskId && after[i].labelId == labelId;
  }

  /** The reassign closure: every task of label `deletedId` moves to `fallbackId`. */
  function Reassigned(tasks: seq<Task>, deletedId: string, fallbackId: string): (r: seq<Task>)
    ensures |r| == |tasks|
    ensures forall i :: 0 <= i < |tasks| ==>
      r[i] == if tasks[i].labelId == deletedId then tasks[i].(labelId := fallbackId) else tasks[i]
  {
    seq(|tasks|, i requires 0 <= i < |tasks| => if tasks[i].labelId == deletedId then tasks[i].(labelId := fallbackId) else tasks[i])
  }

  /** How many tasks carry label `id`. */
  function CountOf(tasks: seq<Task>, id: string): (r: nat)
    ensures r <= |tasks|
  {
    if tasks == [] then 0
    else CountOf(tasks[..|tasks| - 1], id) + (if tasks[|tasks| - 1].labelId == id then 1 else 0)
  }

  /** One more task under `id`: its count goes up by one, starting from zero when the id is new. */
  function Bump(dict: map<string, nat>, id: string): map<string, nat>
  {
    dict[id := if id in dict then dict[id] + 1 else 1]
  }

  /** The dictionary `countsByLabel` builds for `tasks`, one task at a time. */
  function CountMap(tasks: seq<Task>): map<string, nat>
  {
    if tasks == [] then map[] else Bump(CountMap(tasks[..|tasks| - 1]), tasks[|tasks| - 1].labelId)
  }

  /** The keys of `CountMap` are the used label ids, each mapped to its number of tasks. */
  lemma {:induction false} CountMapCounts(tasks: seq<Task>, id: string)
    ensures id in CountMap(tasks) <==> CountOf(tasks, id) > 0
    ensures id in CountMap(tasks) ==> CountMap(tasks)[id] == CountOf(tasks, id)
  {
    if tasks != [] {
      CountMapCounts(tasks[..|tasks| - 1], id);
    }
  }

  /** The counts add up to the number of tasks. */
  lemma {:induction false} CountMapSum(tasks: seq<Task>)
    ensures MapSum(CountMap(tasks)) == |tasks|
  {
    if tasks != [] {
      var init := tasks[..|tasks| - 1];
      CountMapSum(init);
      MapSumIncrement(CountMap(init), tasks[|tasks| - 1].labelId);
    }
  }

  /** Every task's label id is counted. */
  lemma CountOfPositive(tasks: seq<Task>, i: nat)
    requires i < |tasks|
    ensures CountOf(tasks, tasks[i].labelId) > 0
    decreases |tasks|
  {
    if i < |tasks| - 1 {
      CountOfPositive(tasks[..|tasks| - 1], i);
    }
  }

  /** Reassigning moves all of the deleted label's tasks to the fallback and leaves every other count alone. */
  lemma {:induction false} ReassignedCounts(tasks: seq<Task>, deletedId: string, fallbackId: string, other: string)
    requires deletedId != fallbackId
    ensures CountOf(Reassigned(tasks, deletedId, fallbackId), deletedId) == 0
    ensures CountOf(Reassigned(tasks, deletedId, fallbackId), fallbackId)
      == CountOf(tasks, fallbackId) + CountOf(tasks, deletedId)
    ensures other != deletedId && other != fallbackId ==>
      CountOf(Reassigned(tasks, deletedId, fallbackId), other) == CountOf(tasks, other)
    decreases |tasks|
  {
    if tasks != [] {
      var init := tasks[..|tasks| - 1];
      var r := Reassigned(tasks, deletedId, fallbackId);
      assert r[..|r| - 1] == Reassigned(init, deletedId, fallbackId);
      ReassignedCounts(init, deletedId, fallbackId, other);
    }
  }

  /** Label `l`'s name equals `name`, ignoring case. */
  predicate NameMatches(l: Label, name: string)
  {
    EqualsIgnoringCase(l.name, name)
  }

  /** `k` is the index of the first label named `name`, ignoring case. */
  predicate FirstNamed(labels: seq<Label>, name: string, k: nat)
  {
    k < |labels| && NameMatches(labels[k], name) && forall j :: 0 <= j < k ==> !NameMatches(labels[j], name)
  }

  /** The index of the first label named `name`, ignoring case (`labels.first(where:)`). */
  function FirstMatch(labels: seq<Label>, name: string): (r: Option<nat>)
    ensures r.Some? ==> FirstNamed(labels, name, r.value)
    ensures r.None? ==> forall k :: 0 <= k < |labels| ==> !NameMatches(labels[k], name)
  {
    FirstIndex(labels, (l: Label) => NameMatches(l, name))
  }

  /** The label name written after the `#` at `h`: the rest of the title without surrounding whitespace. */
  function HashName(title: string, h: nat): string
    requires h < |title|
  {
    Trim(title[h + 1..], IsWhitespace)
  }

  /** `h` is the position of the last `#` in `title`. */
  predicate IsLastHash(title: string, h: nat)
  {
    h < |title| && title[h] == '#' && forall j :: h < j < |title| ==> title[j] != '#'
  }

  /** The last `#` is the one `lastIndex(of:)` finds. */
  lemma LastHashUnique(title: string, h: nat)
    requires IsLastHash(title, h)
    ensures LastIndexOf(title, '#') == Some(h)
  {
  }

  /**
   * The `#name` suffix `addTask` looks for: the position of the last `#` in `title` and the index of the first
   * label whose name matches the non-empty text after it.
   */
  function HashLabel(title: string, labels: seq<Label>): (r: Option<(nat, nat)>)
    ensures r.Some? ==> IsLastHash(title, r.value.0) && r.value.0 + 1 < |title|
    ensures r.Some? ==> FirstNamed(labels, HashName(title, r.value.0), r.value.1)
  {
    match LastIndexOf(title, '#')
    case None => None
    case Some(h) =>
      if h + 1 == |title| then None
      else
        match FirstMatch(labels, HashName(title, h))
        case None => None
        case Some(k) => Some((h, k))
  }

  /** No label is chosen only when no label matches the non-empty text after the last `#`. */
  lemma HashLabelNone(title: string, labels: seq<Label>, h: nat, k: nat)
    requires HashLabel(title, labels).None?
    requires IsLastHash(title, h) && h + 1 < |title| && k < |labels|
    ensures !NameMatches(labels[k], HashName(title, h))
  {
    var m := FirstMatch(labels, HashName(title, h));
    assert m.None? by {
      LastHashUnique(title, h);
    }
  }

  /** The last `#` of "Buy milk #work" is at index 9 ... */
  lemma ExampleHashPosition()
    ensures LastIndexOf("Buy milk #work", '#') == Some(9)
  {
    var title := "Buy milk #work";
    assert title[10..] == "work";
    assert title[9] == '#';
    LastHashUnique(title, 9);
  }

  /** ... the text after it is "work" ... */
  lemma ExampleHashName()
    ensures HashName("Buy milk #work", 9) == "work"
  {
    assert "Buy milk #work"[10..] == "work";
    TrimKeeps("work", IsWhitespace);
  }

  /** ... which names the label "Work", whatever the case. */
  lemma ExampleNameMatch(l: Label)
    requires l.name == "Work"
    ensures NameMatches(l, "work")
  {
    assert LowerChar('W') == 'w';
    assert Lowercased("Work") == "work";
  }

  /** So "Buy milk #work" goes to the label named "Work". */
  lemma HashLabelExample()
    ensures HashLabel("Buy milk #work", [Label("w", "Work", Blue, 0)]) == Some((9, 0))
  {
    var l := Label("w", "Work", Blue, 0);
    ExampleHashPosition();
    ExampleHashName();
    ExampleNameMatch(l);
    assert FirstMatch([l], "work") == Some(0);
  }

  /** ... and the task keeps "Buy milk" as its title. */
  lemma HashTitleExample()
    ensures Trim("Buy milk #work"[..9], IsWhitespace) == "Buy milk"
  {
    assert "Buy milk #work"[..9] == "Buy milk ";
    assert TrimStart("Buy milk ", IsWhitespace) == "Buy milk ";
    assert "Buy milk "[..8] == "Buy milk";
    assert TrimEnd("Buy milk ", IsWhitespace) == TrimEnd("Buy milk", IsWhitespace) == "Buy milk";
  }

  /** A title without a `#` never names a label. */
  lemma NoHashNoLabel(title: string, labels: seq<Label>)
    requires '#' !in title
    ensures HashLabel(title, labels).None?
  {
  }

  /** The index `delta` steps from `current`, clamped into `0..count - 1`, computed without overflow. */
  function ClampedIndex(current: int, delta: int, count: nat): (r: nat)
    requires count > 0
    ensures r < count
    ensures 0 <= current + delta < count ==> r == current + delta
    ensures current + delta < 0 ==> r == 0
    ensures current + delta >= count ==> r == count - 1
  {
    if current + delta < 0 then 0 else if current + delta >= count then count - 1 else current + delta
  }

  /** A larger step never lands earlier. */
  lemma ClampedIndexMonotone(current: int, d1: int, d2: int, count: nat)
    requires count > 0 && d1 <= d2
    ensures ClampedIndex(current, d1, count) <= ClampedIndex(current, d2, count)
  {
  }

  /** Home (`Int.min`) selects the first visible task and End (`Int.max`) the last. */
  lemma HomeAndEnd(current: nat, count: nat)
    requires current < count <= IntMax
    ensures ClampedIndex(current, IntMin, count) == 0
    ensures ClampedIndex(current, IntMax, count) == count - 1
  {
  }

  /**
   * `moveSelection` as written: `currentIndex + delta` on 64-bit `Int`, where `None` stands for the overflow
   * trap; otherwise the clamped index.
   */
  function MoveIndexAsWritten(current: int, delta: int, count: nat): (r: Option<nat>)
    requires count > 0 && InInt(current) && InInt(delta)
    ensures r.None? <==> !InInt(current + delta)
    ensures r.Some? ==> r.value == ClampedIndex(current, delta, count)
  {
    if !InInt(current + delta) then None else Some(ClampedIndex(current, delta, count))
  }

  /** End traps as soon as the current selection is not the first visible task. */
  lemma EndTrapsAsWritten(current: nat, count: nat)
    requires 1 <= current < count <= IntMax
    ensures MoveIndexAsWritten(current, IntMax, count).None?
  {
  }

  /** Two visible tasks, the second selected, End pressed. */
  lemma EndTrapsExample()
    ensures MoveIndexAsWritten(1, IntMax, 2).None?
    ensures ClampedIndex(1, IntMax, 2) == 1
  {
  }

  /** Arrows, Home and End never trap when there are no more tasks than `Int.max`. */
  lemma NavigationSafeAsWritten(current: nat, delta: int, count: nat)
    requires current < count <= IntMax
    requires delta == -1 || delta == 1 || delta == IntMin || (delta == IntMax && current == 0)
    ensures MoveIndexAsWritten(current, delta, count) == Some(ClampedIndex(current, delta, count))
  {
  }

  /** The index `moveSelection` starts from: the selected task's position if it is visible, else 0. */
  function SelectionIndex(visible: seq<Task>, selected: Option<Uuid>): (r: nat)
    ensures visible != [] ==> r < |visible|
    ensures selected.Some? && IndexOfId(visible, selected.value).Some? ==> visible[r].id == selected.value
    ensures selected.None? || IndexOfId(visible, selected.value).None? ==> r == 0
  {
    match selected
    case None => 0
    case Some(id) => match IndexOfId(visible, id) case None => 0 case Some(i) => i
  }

  class BottomSheetRoot {
    var tasks: seq<Task>
    var labels: seq<Label>
    var searchText: string
    var selectedLabels: set<string>
    var selectedTaskId: Option<Uuid>

    /** `init`, from the tasks and labels of the loaded store. */
    constructor(tasks0: seq<Task>, labels0: seq<Label>)
      ensures tasks == tasks0 && labels == labels0
      ensures searchText == [] && selectedLabels == {} && selectedTaskId == None
    {
      tasks := tasks0;
      labels := labels0;
      searchText := [];
      selectedLabels := {};
      selectedTaskId := None;
    }

    /**
     * The label `addTask` uses when the title names none: some selected label (`Set.first`, in no particular
     * order), else the first label, else "general".
     */
    method DefaultLabelId() returns (id: string)
      ensures selectedLabels != {} ==> id in selectedLabels
      ensures selectedLabels == {} && labels != [] ==> id == labels[0].id
      ensures selectedLabels == {} && labels == [] ==> id == GeneralId
    {
      if selectedLabels != {} {
        id :| id in selectedLabels;
      } else if labels != [] {
        id := labels[0].id;
      } else {
        id := GeneralId;
      }
    }

    /** `addTask(_:)`; `newId` is the fresh UUID of the new task. */
    method AddTask(input: string, newId: Uuid)
      modifies this`tasks, this`selectedTaskId
      ensures |tasks| == |old(tasks)| + 1 && tasks[1..] == old(tasks)
      ensures tasks[0].id == newId && !tasks[0].done && selectedTaskId == Some(newId)
      ensures var t := Trim(input, IsWhitespaceOrNewline);
        match HashLabel(t, labels)
        case Some((h, k)) => tasks[0].labelId == labels[k].id && tasks[0].title == Trim(t[..h], IsWhitespace)
        case None =>
          tasks[0].title == t &&
          (selectedLabels != {} ==> tasks[0].labelId in selectedLabels) &&
          (selectedLabels == {} && labels != [] ==> tasks[0].labelId == labels[0].id) &&
          (selectedLabels == {} && labels == [] ==> tasks[0].labelId == GeneralId)
    {
      var title := Trim(input, IsWhitespaceOrNewline);
      var chosenLabelId := DefaultLabelId();
      var hash := HashLabel(title, labels);
      if hash.Some? {
        var (h, k) := hash.value;
        chosenLabelId := labels[k].id;
        title := Trim(title[..h], IsWhitespace);
      }
      tasks := [Task(newId, title, false, chosenLabelId)] + tasks;
      selectedTaskId := Some(newId);
    }

    /** `assignLabel(taskId:labelId:)`. */
    method AssignLabel(taskId: Uuid, labelId: string)
      modifies this`tasks
      ensures Relabelled(old(tasks), tasks, taskId, labelId)
    {
      var idx := IndexOfId(tasks, taskId);
      if idx.Some? {
        tasks := tasks[idx.value := tasks[idx.value].(labelId := labelId)];
      }
    }

    /** `toggleDone(_:)`: the first task equal to `task` flips `done`. */
    method ToggleDone(task: Task)
      modifies this`tasks
      ensures match IndexOfTask(old(tasks), task)
        case None => tasks == old(tasks)
        case Some(i) => tasks == old(tasks)[i := task.(done := !task.done)]
    {
      var idx := IndexOfTask(tasks, task);
      if idx.Some? {
        tasks := tasks[idx.value := tasks[idx.value].(done := !tasks[idx.value].done)];
      }
    }

    /** The `reassignTasksFromDeletedLabel` closure. */
    method Reassign(deletedId: string, fallbackId: string)
      modifies this`tasks
      ensures tasks == Reassigned(old(tasks), deletedId, fallbackId)
    {
      var i := 0;
      while i < |tasks|
        invariant 0 <= i <= |tasks| == |old(tasks)|
        invariant forall j :: 0 <= j < i ==> tasks[j] == Reassigned(old(tasks), deletedId, fallbackId)[j]
        invariant forall j :: i <= j < |tasks| ==> tasks[j] == old(tasks)[j]
      {
        if tasks[i].labelId == deletedId {
          tasks := tasks[i := tasks[i].(labelId := fallbackId)];
        }
        i := i + 1;
      }
    }

    /** `countsByLabel()`: the used label ids, each with its number of tasks. */
    method CountsByLabel() returns (dict: map<string, nat>)
      ensures dict == CountMap(tasks)
      ensures forall i :: 0 <= i < |tasks| ==> tasks[i].labelId in dict
      ensures forall id :: id in dict ==> dict[id] > 0 && dict[id] == CountOf(tasks, id)
      ensures MapSum(dict) == |tasks|
    {
      dict := map[];
      var i := 0;
      while i < |tasks|
        invariant 0 <= i <= |tasks|
        invariant dict == CountMap(tasks[..i])
      {
        assert tasks[..i + 1][..i] == tasks[..i];
        var id := tasks[i].labelId;
        dict := dict[id := if id in dict then dict[id] + 1 else 1];
        i := i + 1;
      }
      assert tasks[..i] == tasks;
      CountMapSum(tasks);
      forall id | id in dict ensures dict[id] > 0 && dict[id] == CountOf(tasks, id) {
        CountMapCounts(tasks, id);
      }
      forall i | 0 <= i < |tasks| ensures tasks[i].labelId in dict {
        CountOfPositive(tasks, i);
        CountMapCounts(tasks, tasks[i].labelId);
      }
    }

    /** `moveSelection(by:)`, with the index arithmetic done without overflow (see `MoveIndexAsWritten`). */
    method MoveSelection(delta: int)
      modifies this`selectedTaskId
      ensures var visible := FilterTasks(tasks, selectedLabels, searchText);
        if visible == [] then selectedTaskId == old(selectedTaskId)
        else selectedTaskId == Some(visible[ClampedIndex(SelectionIndex(visible, old(selectedTaskId)), delta, |visible|)].id)
    {
      var visible := FilterTasks(tasks, selectedLabels, searchText);
      if visible == [] {
        return;
      }
      var currentIndex := 0;
      if selectedTaskId.Some? {
        var found := IndexOfId(visible, selectedTaskId.value);
        if found.Some? {
          currentIndex := found.value;
        }
      }
      var newIndex := ClampedIndex(currentIndex, delta, |visible|);
      selectedTaskId := Some(visible[newIndex].id);
    }

    /**
     * `deleteSelectedWithConfirm()`; `confirmed` is the answer to the alert. The selection moves to the task after
     * the deleted one, or to the new last task, or to nothing when the list becomes empty.
     */
    method DeleteSelected(confirmed: bool)
      modifies this`tasks, this`selectedTaskId
      ensures !confirmed || old(selectedTaskId).None? || IndexOfId(old(tasks), old(selectedTaskId).value).None? ==>
        tasks == old(tasks) && selectedTaskId == old(selectedTaskId)
      ensures confirmed && old(selectedTaskId).Some? && IndexOfId(old(tasks), old(selectedTaskId).value).Some? ==>
        var idx := IndexOfId(old(tasks), old(selectedTaskId).value).value;
        tasks == old(tasks)[..idx] + old(tasks)[idx + 1..] &&
        selectedTaskId == (if idx + 1 < |old(tasks)| then Some(old(tasks)[idx + 1].id)
                           else if idx > 0 then Some(old(tasks)[idx - 1].id)
                           else None)
    {
      if selectedTaskId.None? {
        return;
      }
      var found := IndexOfId(tasks, selectedTaskId.value);
      if found.None? || !confirmed {
        return;
      }
      var idx := found.value;
      var nextIndex := if idx < |tasks| - 2 then idx else |tasks| - 2;
      tasks := tasks[..idx] + tasks[idx + 1..];
      if 0 <= nextIndex < |tasks| {
        selectedTaskId := Some(tasks[nextIndex].id);
      } else {
        selectedTaskId := None;
      }
    }

    /** The `assignLabelIndex` handler: the 1-based `index`-th label goes to the selected task. */
    method AssignLabelIndex(index: int)
      modifies this`tasks
      ensures old(selectedTaskId).None? || !(1 <= index <= |labels|) ==> tasks == old(tasks)
      ensures selectedTaskId.Some? && 1 <= index <= |labels| ==>
        Relabelled(old(tasks), tasks, selectedTaskId.value, labels[index - 1].id)
    {
      if selectedTaskId.None? {
        return;
      }
      var i := index - 1;
      if !(0 <= i < |labels|) {
        return;
      }
      AssignLabel(selectedTaskId.value, labels[i].id);
    }
  }
}
