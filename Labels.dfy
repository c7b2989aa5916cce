/** `Label`, `Task` and `BrandColor`: the records the bottom sheet and the store share. */
module Labels {
  import opened Wrappers
  import opened Uuid
  import opened Collections

  /** `BrandColor`, with its cases in declaration order in `AllColors`. */
  datatype BrandColor = Gray | Blue | Pink | Purple | Orange | Green | Red | Teal | Indigo

  const AllColors: seq<BrandColor> := [Gray, Blue, Pink, Purple, Orange, Green, Red, Teal, Indigo]

  lemma AllColorsComplete(c: BrandColor)
    ensures c in AllColors
  {
  }

  datatype Label = Label(id: string, name: string, color: BrandColor, order: int)

  /** `Task`; `labelId` names a label by its id. */
  datatype Task = Task(id: Uuid, title: string, done: bool, labelId: string)

  /** The id of the label every task falls back to. */
  const GeneralId: string := "general"

  /** The labels' ids, in list order. */
  function Ids(labels: seq<Label>): (r: seq<string>)
    ensures |r| == |labels| && forall i :: 0 <= i < |labels| ==> r[i] == labels[i].id
  {
    seq(|labels|, i requires 0 <= i < |labels| => labels[i].id)
  }

  /** `Ids` distributes over concatenation. */
  lemma IdsAppend(a: seq<Label>, b: seq<Label>)
    ensures Ids(a + b) == Ids(a) + Ids(b)
  {
  }

  /** The position of the first label with id `id`, if any label has it. */
  function LabelIndex(labels: seq<Label>, id: string): (r: Option<nat>)
    ensures r.Some? ==> r.value < |labels| && labels[r.value].id == id
    ensures r.Some? ==> forall j :: 0 <= j < r.value ==> labels[j].id != id
    ensures r.None? ==> forall j :: 0 <= j < |labels| ==> labels[j].id != id
  {
    FirstIndex(labels, (l: Label) => l.id == id)
  }

  predicate DistinctIds(labels: seq<Label>)
  {
    forall i, j :: 0 <= i < j < |labels| ==> labels[i].id != labels[j].id
  }

  function Order(l: Label): int { l.order }

  /** Positions and orders agree. */
  predicate Indexed(labels: seq<Label>)
  {
    forall i :: 0 <= i < |labels| ==> labels[i].order == i
  }

  /** Every label's `order` rewritten to its position. */
  function Reindexed(labels: seq<Label>): (r: seq<Label>)
    ensures |r| == |labels| && Indexed(r)
    ensures forall i :: 0 <= i < |labels| ==> r[i] == labels[i].(order := i)
  {
    seq(|labels|, i requires 0 <= i < |labels| => labels[i].(order := i))
  }

  /** Reindexing keeps ids, names and colours in place and leaves indexed labels alone. */
  lemma ReindexedKeeps(labels: seq<Label>)
    ensures Ids(Reindexed(labels)) == Ids(labels)
    ensures Indexed(labels) ==> Reindexed(labels) == labels
  {
  }

  /** The reindex loop of the store migration: walks the labels and sets each one's order to its position. */
  method ReindexOrders(labels: seq<Label>) returns (r: seq<Label>)
    ensures r == Reindexed(labels)
  {
    r := labels;
    var idx := 0;
    while idx < |r|
      invariant 0 <= idx <= |r| == |labels|
      invariant forall i :: 0 <= i < idx ==> r[i] == labels[i].(order := i)
      invariant forall i :: idx <= i < |r| ==> r[i] == labels[i]
    {
      r := r[idx := r[idx].(order := idx)];
      idx := idx + 1;
    }
  }

  /** Permuting labels permutes their ids. */
  lemma {:induction false} IdsMultiset(a: seq<Label>, b: seq<Label>)
    requires multiset(a) == multiset(b)
    ensures multiset(Ids(a)) == multiset(Ids(b))
    decreases |a|
  {
    if a != [] {
      var x := a[0];
      assert x in multiset(b) by {
        assert x in multiset(a);
      }
      var k :| 0 <= k < |b| && b[k] == x;
      var rest := b[..k] + b[k + 1..];
      assert multiset(a[1..]) == multiset(a) - multiset{x} by {
        RemoveAt(a, 0);
        assert a[..0] + a[1..] == a[1..];
      }
      assert multiset(rest) == multiset(b) - multiset{x} by {
        RemoveAt(b, k);
      }
      var ia := multiset(Ids(a[1..]));
      var ib := multiset(Ids(rest));
      assert ia == ib by {
        IdsMultiset(a[1..], rest);
      }
      assert multiset(Ids(a)) == multiset{x.id} + ia by {
        IdsRemoveAt(a, 0);
        assert a[..0] + a[1..] == a[1..];
      }
      assert multiset(Ids(b)) == multiset{x.id} + ib by {
        IdsRemoveAt(b, k);
      }
    }
  }

  /** The ids of `b` are those of `b` without position `k`, plus `b[k]`'s. */
  lemma IdsRemoveAt(b: seq<Label>, k: nat)
    requires k < |b|
    ensures multiset(Ids(b)) == multiset{b[k].id} + multiset(Ids(b[..k] + b[k + 1..]))
  {
    var ids := Ids(b);
    assert Ids(b[..k] + b[k + 1..]) == ids[..k] + ids[k + 1..];
    RemoveAt(ids, k);
    assert ids[k] in multiset(ids);
  }
}
