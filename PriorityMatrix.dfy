/**
 * `PriorityMatrixView`: the quadrant columns, the per-quadrant counts, drag-and-drop into a quadrant and the
 * binary importance/urgency toggles. The view's filter, level table and column order are shared with the overlay.
 */
module PriorityMatrix {
  import opened Wrappers
  import opened Uuid
  import opened Collections
  import opened Sorting
  import opened TaskItems

  /** The segmented filter: all quadrants or one. */
  datatype MatrixFilter = All | DoFirst | Schedule | Delegate | Eliminate

  /** `MatrixFilter.quadrant`. */
  function FilterQuadrant(f: MatrixFilter): (r: Option<Quadrant>)
    ensures r.None? <==> f == MatrixFilter.All
  {
    match f
    case All => None
    case DoFirst => Some(Quadrant.DoFirst)
    case Schedule => Some(Quadrant.Schedule)
    case Delegate => Some(Quadrant.Delegate)
    case Eliminate => Some(Quadrant.Eliminate)
  }

  /** The filter case named after a quadrant. */
  function FilterFor(q: Quadrant): MatrixFilter
  {
    match q
    case DoFirst => MatrixFilter.DoFirst
    case Schedule => MatrixFilter.Schedule
    case Delegate => MatrixFilter.Delegate
    case Eliminate => MatrixFilter.Eliminate
  }

  /** Every quadrant has exactly one filter case, the one of the same name. */
  lemma FilterQuadrantInverse(q: Quadrant, f: MatrixFilter)
    ensures FilterQuadrant(FilterFor(q)) == Some(q)
    ensures FilterQuadrant(f) == Some(q) ==> f == FilterFor(q)
  {
  }

  /** The (importance, urgency) levels a drop into `q` sets. */
  function DropLevels(q: Quadrant): (int, int)
  {
    match q
    case DoFirst => (3, 3)
    case Schedule => (3, 1)
    case Delegate => (1, 3)
    case Eliminate => (1, 1)
  }

  /** The dropped item after `updating(urgency: u, importance: i)`: it lands in `q`, keeps its identity, content and
      creation time, and carries the drop's time. */
  function Dropped(t: TaskItem, q: Quadrant, now: int): (r: TaskItem)
    ensures QuadrantOf(r) == q
    ensures r.id == t.id && r.title == t.title && r.notes == t.notes && r.createdAt == t.createdAt
    ensures r.updatedAt == now
  {
    var (i, u) := DropLevels(q);
    Updating(t, Some(u), Some(i), now)
  }

  /** One drag provider: whether it can load a string, and the string it loads. */
  datatype Provider = Provider(canLoad: bool, loaded: Option<string>)

  /** The drop is accepted when the first provider can load a string. */
  predicate Accepts(providers: seq<Provider>)
  {
    |providers| > 0 && providers[0].canLoad
  }

  /** The position of the first item whose id the payload text parses to, if it parses and some item has it. */
  function IndexOfPayload(items: seq<TaskItem>, payload: string): (r: Option<nat>)
    ensures r.Some? ==> r.value < |items| && Parse(payload) == Some(items[r.value].id)
    ensures r.Some? ==> forall j :: 0 <= j < r.value ==> items[j].id != items[r.value].id
    ensures r.None? ==> Parse(payload).None? || forall j :: 0 <= j < |items| ==> Some(items[j].id) != Parse(payload)
  {
    match Parse(payload)
    case None => None
    case Some(u) => FirstIndex(items, (t: TaskItem) => t.id == u)
  }

  /** The index a drop updates, if the load and the lookup succeed. */
  function DropTarget(items: seq<TaskItem>, providers: seq<Provider>): (r: Option<nat>)
    ensures r.Some? ==> Accepts(providers) && r.value < |items|
  {
    if Accepts(providers) && providers[0].loaded.Some? then IndexOfPayload(items, providers[0].loaded.value)
    else None
  }

  /** Dropping the payload `"<uuidString>"` of an item reaches the first item with that id. */
  lemma DropFindsDraggedItem(items: seq<TaskItem>, k: nat)
    requires k < |items| && forall j :: 0 <= j < k ==> items[j].id != items[k].id
    ensures IndexOfPayload(items, Format(items[k].id)) == Some(k)
  {
    ParseFormat(items[k].id);
  }

  /** The items of one quadrant, in list order. */
  function Members(items: seq<TaskItem>, q: Quadrant): seq<TaskItem>
  {
    Filter(items, (t: TaskItem) => QuadrantOf(t) == q)
  }

  /** Sort key for newest first. */
  function Newest(t: TaskItem): int { -t.updatedAt }

  /** `sortedItems(in:)`: exactly the items in `q`, newest first. */
  function SortedItems(items: seq<TaskItem>, q: Quadrant): (r: seq<TaskItem>)
    ensures multiset(r) == multiset(Members(items, q))
    ensures forall t :: t in r <==> t in items && QuadrantOf(t) == q
    ensures forall i, j :: 0 <= i < j < |r| ==> r[i].updatedAt >= r[j].updatedAt
  {
    var m := Members(items, q);
    var r := SortBy(m, Newest);
    NewestFirst(m, r);
    MembersOf(items, q);
    r
  }

  /** A newest-first permutation of `m` has the same elements, with the latest update first. */
  lemma NewestFirst(m: seq<TaskItem>, r: seq<TaskItem>)
    requires multiset(r) == multiset(m) && SortedBy(r, Newest)
    ensures forall t :: t in r <==> t in m
    ensures forall i, j :: 0 <= i < j < |r| ==> r[i].updatedAt >= r[j].updatedAt
  {
    forall t ensures t in r <==> t in m {
      assert t in r <==> t in multiset(r);
      assert t in m <==> t in multiset(m);
    }
    forall i, j | 0 <= i < j < |r| ensures r[i].updatedAt >= r[j].updatedAt {
      assert Newest(r[i]) <= Newest(r[j]);
    }
  }

  /** The members of `q` are the items whose quadrant is `q`. */
  lemma MembersOf(items: seq<TaskItem>, q: Quadrant)
    ensures forall t :: t in Members(items, q) <==> t in items && QuadrantOf(t) == q
  {
  }

  /** When the items of a quadrant already run newest first, the column keeps their list order. */
  lemma SortedItemsKeepsOrder(items: seq<TaskItem>, q: Quadrant)
    requires SortedBy(Members(items, q), Newest)
    ensures SortedItems(items, q) == Members(items, q)
  {
    SortBySorted(Members(items, q), Newest);
  }

  /** Number of items in quadrant `q`. */
  function CountIn(items: seq<TaskItem>, q: Quadrant): nat
  {
    |Members(items, q)|
  }

  /** `Dictionary(grouping: items, by: \.quadrant).mapValues(\.count)`: a key for each non-empty quadrant,
      with its number of items. */
  function Counts(items: seq<TaskItem>): (r: map<Quadrant, nat>)
    ensures forall q :: q in r <==> CountIn(items, q) > 0
    ensures forall q :: q in r ==> r[q] == CountIn(items, q)
    decreases |items|
  {
    if items == [] then map[]
    else
      var c := Counts(items[1..]);
      var q := QuadrantOf(items[0]);
      CountInCons(items);
      c[q := if q in c then c[q] + 1 else 1]
  }

  /** The first item adds one to its own quadrant's count. */
  lemma CountInCons(items: seq<TaskItem>)
    requires items != []
    ensures forall q :: CountIn(items, q) == CountIn(items[1..], q) + (if QuadrantOf(items[0]) == q then 1 else 0)
  {
  }

  /** The counts add up to the number of items. */
  lemma {:induction false} CountsSum(items: seq<TaskItem>)
    ensures MapSum(Counts(items)) == |items|
    decreases |items|
  {
    if items != [] {
      CountsSum(items[1..]);
      MapSumIncrement(Counts(items[1..]), QuadrantOf(items[0]));
    }
  }

  /** `binary → levels`: a high level drops to 1, a low one rises to 3. */
  function ToggledLevel(level: int): (r: int)
    ensures r == 1 || r == 3
    ensures IsHigh(r) <==> !IsHigh(level)
  {
    if IsHigh(level) then 1 else 3
  }

  /** The item created by "New Task". */
  function Dummy(id: Uuid, now: int): (t: TaskItem)
    ensures QuadrantOf(t) == Quadrant.Eliminate && t.title == "New Task" && t.notes.None?
    ensures t.id == id && t.createdAt == now && t.updatedAt == now
  {
    TaskItem(id, "New Task", None, 1, 1, now, now)
  }

  class PriorityMatrixView {
    var items: seq<TaskItem>
    var filter: MatrixFilter
    /** Snapshots written by `TaskPersistence.save`, in order. */
    var saves: seq<seq<TaskItem>>

    /** The view after `load()`. */
    constructor (loaded: seq<TaskItem>)
      ensures items == loaded && filter == MatrixFilter.All && saves == []
    {
      items := loaded;
      filter := MatrixFilter.All;
      saves := [];
    }

    /** `handleDrop(into:providers:)`: accepted when the first provider can load a string; the dropped item, if found,
        moves to `q` and the items are saved. Nothing changes otherwise. */
    method HandleDrop(q: Quadrant, providers: seq<Provider>, now: int) returns (accepted: bool)
      modifies this`items, this`saves
      ensures accepted <==> Accepts(providers)
      ensures DropTarget(old(items), providers).None? ==> items == old(items) && saves == old(saves)
      ensures DropTarget(old(items), providers).Some? ==>
        var k := DropTarget(old(items), providers).value;
        items == old(items)[k := Dropped(old(items)[k], q, now)] && saves == old(saves) + [items]
    {
      if !Accepts(providers) {
        return false;
      }
      var target := DropTarget(items, providers);
      if target.Some? {
        var k := target.value;
        items := items[k := Dropped(items[k], q, now)];
        saves := saves + [items];
      }
      return true;
    }

    /** `toggleImportant(_:)`: the first item equal to `item` gets the toggled importance; urgency is untouched. */
    method ToggleImportant(item: TaskItem, now: int)
      modifies this`items, this`saves
      ensures item !in old(items) ==> items == old(items) && saves == old(saves)
      ensures item in old(items) ==>
        var k := FirstIndex(old(items), (t: TaskItem) => t == item).value;
        && items == old(items)[k := Updating(item, None, Some(ToggledLevel(item.importance)), now)]
        && saves == old(saves) + [items]
    {
      var idx := FirstIndex(items, (t: TaskItem) => t == item);
      if idx.None? {
        return;
      }
      var newVal := ToggledLevel(item.importance);
      items := items[idx.value := Updating(items[idx.value], None, Some(newVal), now)];
      saves := saves + [items];
    }

    /** `toggleUrgent(_:)`: the same for urgency; importance is untouched. */
    method ToggleUrgent(item: TaskItem, now: int)
      modifies this`items, this`saves
      ensures item !in old(items) ==> items == old(items) && saves == old(saves)
      ensures item in old(items) ==>
        var k := FirstIndex(old(items), (t: TaskItem) => t == item).value;
        && items == old(items)[k := Updating(item, Some(ToggledLevel(item.urgency)), None, now)]
        && saves == old(saves) + [items]
    {
      var idx := FirstIndex(items, (t: TaskItem) => t == item);
      if idx.None? {
        return;
      }
      var newVal := ToggledLevel(item.urgency);
      items := items[idx.value := Updating(items[idx.value], Some(newVal), None, now)];
      saves := saves + [items];
    }

    /** `createDummy()`: appends one eliminate item and saves. */
    method CreateDummy(id: Uuid, now: int)
      modifies this`items, this`saves
      ensures items == old(items) + [Dummy(id, now)] && saves == old(saves) + [items]
    {
      items := items + [Dummy(id, now)];
      saves := saves + [items];
    }
  }

  /** A toggle flips exactly the toggled flag: toggling importance keeps urgency and vice versa. */
  lemma ToggleFlipsOneFlag(t: TaskItem, now: int)
    ensures var r := Updating(t, None, Some(ToggledLevel(t.importance)), now);
      IsHigh(r.importance) == !IsHigh(t.importance) && r.urgency == t.urgency
    ensures var r := Updating(t, Some(ToggledLevel(t.urgency)), None, now);
      IsHigh(r.urgency) == !IsHigh(t.urgency) && r.importance == t.importance
  {
  }
}
