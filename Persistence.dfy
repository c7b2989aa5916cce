/**
 * The store's seeding and migration (`Persistence.defaultStore`, `migrate`, and the settings defaulting in `load`).
 * Reading and writing the file are outside the model: `Load` takes the decoded store, if decoding succeeded, and
 * reports the stores it writes.
 */
module Persistence {
  import opened Wrappers
  import opened Uuid
  import opened Sorting
  import opened Settings
  import opened Labels

  datatype Store = Store(tasks: seq<Task>, labels: seq<Label>, settings: Option<SettingsModel>, schemaVersion: Option<int>)

  /** The first branch of `migrate`: some label after the first has order 0, or every label has order 0. */
  predicate NeedsReindex(labels: seq<Label>)
  {
    (exists i :: 0 < i < |labels| && labels[i].order == 0) || (forall i :: 0 <= i < |labels| ==> labels[i].order == 0)
  }

  /** A store without labels takes the reindex branch, so `Migrate` saves it on every load. */
  lemma EmptyLabelsNeedReindex()
    ensures NeedsReindex([])
  {
  }

  /** `migrate(_:)`, returning the migrated store and whether it is saved. */
  method Migrate(store: Store) returns (r: Store, saved: bool)
    ensures r.tasks == store.tasks && r.settings == store.settings
    ensures r.schemaVersion == if store.schemaVersion.Some? then store.schemaVersion else Some(1)
    ensures multiset(r.labels) == multiset(if NeedsReindex(store.labels) then Reindexed(store.labels) else store.labels)
    ensures multiset(Ids(r.labels)) == multiset(Ids(store.labels))
    ensures NeedsReindex(store.labels) ==> r.labels == Reindexed(store.labels)
    ensures Indexed(store.labels) ==> r.labels == store.labels
    ensures DistinctIds(store.labels) ==> SortedBy(r.labels, Order)
    ensures store.schemaVersion.None? || NeedsReindex(store.labels) ==> saved
    ensures !saved ==> r == store
    ensures saved <==> store.schemaVersion.None? || NeedsReindex(store.labels) || r.labels != store.labels
  {
    var labels := store.labels;
    var changed := false;
    if NeedsReindex(labels) {
      labels := ReindexOrders(labels);
      changed := true;
    }
    ghost var reindexed := labels;
    var sorted := SortBy(labels, Order);
    if Ids(sorted) != Ids(labels) {
      labels := sorted;
      changed := true;
    }
    var version := store.schemaVersion;
    if version.None? {
      version := Some(1);
      changed := true;
    }
    r := store.(labels := labels, schemaVersion := version);
    saved := changed;
    MigrateLabels(store.labels, reindexed, sorted, labels);
  }

  /** The labels `defaultStore` seeds, in order. */
  const DefaultLabels: seq<Label> := [
    Label("general", "General", Gray, 0),
    Label("work", "Work", Blue, 1),
    Label("personal", "Personal", Pink, 2),
    Label("ideas", "Ideas", Purple, 3),
    Label("errands", "Errands", Orange, 4)
  ]

  /**
   * `defaultStore()`. Each seeded task gets a fresh random UUID in the source; here `uuid(k)` is the id of
   * the `k`-th task.
   */
  function DefaultStore(uuid: nat -> Uuid): (r: Store)
    ensures |r.labels| == 5 && DistinctIds(r.labels) && Indexed(r.labels)
    ensures r.labels[0].id == GeneralId
    ensures |r.tasks| == 6 && forall t :: t in r.tasks ==> t.labelId in Ids(r.labels)
    ensures forall k :: 0 <= k < |r.tasks| ==> r.tasks[k].id == uuid(k)
    ensures r.settings == Some(Defaults()) && r.schemaVersion == Some(1)
  {
    DefaultLabelsWellFormed();
    Store(DefaultTasks(uuid), DefaultLabels, Some(Defaults()), Some(1))
  }

  /** The ids of the seeded labels. */
  const DefaultLabelIds: seq<string> := ["general", "work", "personal", "ideas", "errands"]

  /** The six seeded tasks, the `k`-th with id `uuid(k)`, each filed under a seeded label. */
  function DefaultTasks(uuid: nat -> Uuid): (ts: seq<Task>)
    ensures |ts| == 6 && forall k :: 0 <= k < |ts| ==> ts[k].id == uuid(k)
    ensures forall t :: t in ts ==> t.labelId in DefaultLabelIds
  {
    [ Task(uuid(0), "Sketch bottom sheet layout", false, "work"),
      Task(uuid(1), "Write Quick Add logic", false, "work"),
      Task(uuid(2), "Test hotkeys " + [CommandGlyph, OptionGlyph] + "Space", false, "general"),
      Task(uuid(3), "Grocery list", true, "errands"),
      Task(uuid(4), "Vacation plans", false, "personal"),
      Task(uuid(5), "Feature ideas backlog", false, "ideas") ]
  }

  /** The seeded labels: five distinct ids, ordered by position, "general" first. */
  lemma DefaultLabelsWellFormed()
    ensures |DefaultLabels| == 5 && Indexed(DefaultLabels) && DefaultLabels[0].id == GeneralId
    ensures Ids(DefaultLabels) == DefaultLabelIds
    ensures DistinctIds(DefaultLabels)
  {
    forall i, j | 0 <= i < j < |DefaultLabels| ensures DefaultLabels[i].id != DefaultLabels[j].id {
      assert DefaultLabels[i].id[0] != DefaultLabels[j].id[0];
    }
  }

  /**
   * The seeded store needs no reindexing, and as its labels are indexed and its version set, `Migrate` leaves it
   * unchanged and does not save it.
   */
  lemma DefaultStoreIsMigrated(uuid: nat -> Uuid)
    ensures !NeedsReindex(DefaultStore(uuid).labels) && Indexed(DefaultStore(uuid).labels)
    ensures DefaultStore(uuid).schemaVersion.Some?
  {
    var l := DefaultStore(uuid).labels;
    IndexedNeedsNoReindex(l);
  }

  /** Labels indexed by position need reindexing only when there are at most one of them. */
  lemma IndexedNeedsNoReindex(labels: seq<Label>)
    requires Indexed(labels)
    ensures NeedsReindex(labels) <==> |labels| <= 1
  {
    if |labels| > 1 {
      assert labels[1].order == 1;
    }
  }

  /**
   * `load()` after the file has been read: `decoded` is the decoded store, or `None` when reading or decoding
   * threw. `writes` lists the stores saved immediately, in order.
   */
  method Load(decoded: Option<Store>, uuid: nat -> Uuid) returns (store: Store, writes: seq<Store>)
    ensures decoded.None? ==> store == DefaultStore(uuid) && writes == [store]
    ensures decoded.Some? ==> store.tasks == decoded.value.tasks
    ensures decoded.Some? ==>
      store.settings == if decoded.value.settings.Some? then decoded.value.settings else Some(Defaults())
    ensures decoded.Some? ==> store.schemaVersion.Some?
    ensures decoded.Some? ==> multiset(Ids(store.labels)) == multiset(Ids(decoded.value.labels))
    ensures decoded.Some? && DistinctIds(decoded.value.labels) ==> SortedBy(store.labels, Order)
    ensures decoded.Some? && decoded.value.schemaVersion.None? ==> writes == [store]
    ensures writes == [] || writes == [store]
  {
    if decoded.None? {
      store := DefaultStore(uuid);
      writes := [store];
      return;
    }
    store := decoded.value;
    if store.settings.None? {
      store := store.(settings := Some(Defaults()));
    }
    var saved;
    store, saved := Migrate(store);
    writes := if saved then [store] else [];
  }

  /** The label facts of `Migrate`, for the reindexed labels `l1`, their sort `s` and the result `l2`. */
  lemma MigrateLabels(l0: seq<Label>, l1: seq<Label>, s: seq<Label>, l2: seq<Label>)
    requires l1 == if NeedsReindex(l0) then Reindexed(l0) else l0
    requires s == SortBy(l1, Order)
    requires l2 == if Ids(s) != Ids(l1) then s else l1
    ensures multiset(l2) == multiset(l1)
    ensures multiset(Ids(l2)) == multiset(Ids(l0))
    ensures NeedsReindex(l0) ==> l2 == l1
    ensures Indexed(l0) ==> l2 == l0
    ensures DistinctIds(l0) ==> SortedBy(l2, Order)
  {
    ReindexedKeeps(l0);
    MigrateIds(l0, l1, l2);
    if Indexed(l1) {
      IndexedSortKeeps(l1, s);
    }
    if DistinctIds(l0) {
      MigrateSorted(l0, l1, s, l2);
    }
  }

  lemma MigrateIds(l0: seq<Label>, l1: seq<Label>, l2: seq<Label>)
    requires Ids(l1) == Ids(l0)
    requires multiset(l2) == multiset(l1)
    ensures multiset(Ids(l2)) == multiset(Ids(l0))
  {
    IdsMultiset(l2, l1);
  }

  /** Sorting labels that are already indexed by order changes nothing. */
  lemma IndexedSortKeeps(l1: seq<Label>, s: seq<Label>)
    requires Indexed(l1) && s == SortBy(l1, Order)
    ensures s == l1
  {
    assert SortedBy(l1, Order);
    SortBySorted(l1, Order);
  }

  lemma MigrateSorted(l0: seq<Label>, l1: seq<Label>, s: seq<Label>, l2: seq<Label>)
    requires Ids(l1) == Ids(l0) && DistinctIds(l0)
    requires s == SortBy(l1, Order)
    requires l2 == if Ids(s) != Ids(l1) then s else l1
    ensures SortedBy(l2, Order)
  {
    if l2 != s {
      assert DistinctIds(l1) by {
        forall i, j | 0 <= i < j < |l1| ensures l1[i].id != l1[j].id {
          assert Ids(l1)[i] == Ids(l0)[i] && Ids(l1)[j] == Ids(l0)[j];
        }
      }
      SameIdsSameLabels(l1, s);
    }
  }

  /** A permutation of labels with distinct ids that puts every id at the same place is the identity. */
  lemma SameIdsSameLabels(a: seq<Label>, b: seq<Label>)
    requires DistinctIds(a) && multiset(a) == multiset(b) && Ids(a) == Ids(b)
    ensures a == b
  {
    assert |a| == |b| by {
      assert |multiset(a)| == |multiset(b)|;
    }
    forall i | 0 <= i < |b| ensures a[i] == b[i] {
      assert b[i] in multiset(a);
      var j :| 0 <= j < |a| && a[j] == b[i];
      assert Ids(a)[i] == Ids(b)[i];
    }
  }
}
