/**
 * `MatrixOverlayView`: the overlay over the panel's items. Its drop handler moves the dropped item exactly as
 * `PriorityMatrixView` does, but does not save; its columns and counts are those of the matrix view.
 */
module MatrixOverlay {
  import opened Collections
  import opened TaskItems
  import opened PriorityMatrix

  class MatrixOverlayView {
    /** The `items` binding. */
    var items: seq<TaskItem>
    var filter: MatrixFilter

    constructor (items: seq<TaskItem>)
      ensures this.items == items && filter == MatrixFilter.All
    {
      this.items := items;
      filter := MatrixFilter.All;
    }

    /** `handleDrop(into:providers:)`: only the dropped item changes, and it lands in `q`. */
    method HandleDrop(q: Quadrant, providers: seq<Provider>, now: int) returns (accepted: bool)
      modifies this`items
      ensures accepted <==> Accepts(providers)
      ensures DropTarget(old(items), providers).None? ==> items == old(items)
      ensures DropTarget(old(items), providers).Some? ==>
        var k := DropTarget(old(items), providers).value;
        && |items| == |old(items)|
        && items[k] == Dropped(old(items)[k], q, now)
        && forall j :: 0 <= j < |items| && j != k ==> items[j] == old(items)[j]
    {
      if !Accepts(providers) {
        return false;
      }
      var target := DropTarget(items, providers);
      if target.Some? {
        var k := target.value;
        items := items[k := Dropped(items[k], q, now)];
      }
      return true;
    }

    /** The column for `q`: exactly the bound items in quadrant `q`, newest first. */
    function Column(q: Quadrant): (r: seq<TaskItem>)
      reads this
      ensures multiset(r) == multiset(Members(items, q))
      ensures forall t :: multiset(r)[t] == if QuadrantOf(t) == q then multiset(items)[t] else 0
      ensures forall t :: t in r <==> t in items && QuadrantOf(t) == q
      ensures forall i, j :: 0 <= i < j < |r| ==> r[i].updatedAt >= r[j].updatedAt
    {
      FilterCounts(items, (t: TaskItem) => QuadrantOf(t) == q);
      SortedItems(items, q)
    }
  }

  /** After a drop the dropped item shows in the target column and in no other. */
  lemma DropMovesColumn(items: seq<TaskItem>, k: nat, q: Quadrant, now: int)
    requires k < |items|
    ensures var after := items[k := Dropped(items[k], q, now)];
      after[k] in SortedItems(after, q) && forall p :: p != q ==> after[k] !in SortedItems(after, p)
  {
  }
}
