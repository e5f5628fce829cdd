/**
 * The persisted snapshot of the device list (script.js): `saveState`
 * projects every device to `{id, status, value}`, `loadState` merges the
 * entries back onto the list by id. JSON text and storage are not modelled;
 * a snapshot is a value.
 */
module Snapshots {
  import opened Wrappers
  import opened Devices

  /** A JSON member that may be absent (`undefined` after parsing) or present. */
  datatype Field<T> = Missing | Present(content: T)

  /** One saved device; `value` is present and `null` or a number, or absent. */
  datatype Entry = Entry(id: int, status: bool, value: Field<Option<int>>)

  /** The stored record, with its capture time in milliseconds. */
  datatype Snapshot = Snapshot(devices: seq<Entry>, timestamp: int)

  /** `saveState`: one entry per device, in list order, each with its value present. */
  function Save(ds: seq<Device>, now: int): (s: Snapshot)
    ensures |s.devices| == |ds| && s.timestamp == now
    ensures forall i :: 0 <= i < |ds| ==>
      s.devices[i].id == ds[i].id && s.devices[i].status == ds[i].status &&
      s.devices[i].value == Present(ds[i].value)
  {
    Snapshot(seq(|ds|, i requires 0 <= i < |ds| => Entry(ds[i].id, ds[i].status, Present(ds[i].value))), now)
  }

  /**
   * One step of `loadState`: the device found by the entry's id takes the
   * entry's status, and its value when the entry carries one.
   */
  function MergeEntry(ds: seq<Device>, e: Entry): (r: seq<Device>)
    ensures SameFrame(ds, r)
    ensures forall i :: 0 <= i < |ds| && ds[i].id != e.id ==> r[i] == ds[i]
    ensures (forall i :: 0 <= i < |ds| ==> ds[i].id != e.id) ==> r == ds
    ensures e.value.Missing? ==> forall i :: 0 <= i < |ds| ==> r[i].value == ds[i].value
  {
    match FirstIndex(ds, e.id)
    case None => ds
    case Some(k) =>
      var v := if e.value.Present? then e.value.content else ds[k].value;
      ds[k := ds[k].(status := e.status, value := v)]
  }

  /** The loop of `loadState`: the entries applied one after another. */
  function Merged(ds: seq<Device>, es: seq<Entry>): (r: seq<Device>)
    ensures SameFrame(ds, r)
    decreases |es|
  {
    if es == [] then ds else MergeEntry(Merged(ds, es[..|es| - 1]), es[|es| - 1])
  }

  /** A device whose id no entry mentions keeps every field. */
  lemma {:induction false} MergedUntouched(ds: seq<Device>, es: seq<Entry>, i: nat)
    requires i < |ds|
    requires forall j :: 0 <= j < |es| ==> es[j].id != ds[i].id
    ensures Merged(ds, es)[i] == ds[i]
  {
    if es != [] {
      MergedUntouched(ds, es[..|es| - 1], i);
    }
  }

  /** Entries whose ids are not in the list change nothing. */
  lemma {:induction false} MergedUnknownIds(ds: seq<Device>, es: seq<Entry>)
    requires forall j, i :: 0 <= j < |es| && 0 <= i < |ds| ==> es[j].id != ds[i].id
    ensures Merged(ds, es) == ds
  {
    if es != [] {
      MergedUnknownIds(ds, es[..|es| - 1]);
    }
  }

  /** Entries without a value never change a value. */
  lemma {:induction false} MergedKeepsValues(ds: seq<Device>, es: seq<Entry>)
    requires forall j :: 0 <= j < |es| ==> es[j].value.Missing?
    ensures forall i :: 0 <= i < |ds| ==> Merged(ds, es)[i].value == ds[i].value
  {
    if es != [] {
      MergedKeepsValues(ds, es[..|es| - 1]);
    }
  }

  /**
   * After merging the first `k` entries of a save of `ds` onto `base`, the
   * first `k` devices are those of `ds` and the rest are still those of `base`.
   */
  lemma {:induction false} MergedSavePrefix(base: seq<Device>, ds: seq<Device>, now: int, k: nat)
    requires SameFrame(base, ds) && UniqueIds(ds) && k <= |ds|
    ensures Merged(base, Save(ds, now).devices[..k]) == ds[..k] + base[k..]
  {
    var es := Save(ds, now).devices;
    if k == 0 {
      assert es[..0] == [];
      assert ds[..0] + base[0..] == base;
    } else {
      MergedSavePrefix(base, ds, now, k - 1);
      var cur := ds[..k - 1] + base[k - 1..];
      assert es[..k][..k - 1] == es[..k - 1];
      assert Merged(base, es[..k]) == MergeEntry(cur, es[k - 1]);
      SaveEntryStep(base, ds, k, es[k - 1]);
    }
  }

  /** Merging the saved entry of device `k - 1` moves the boundary of that split by one. */
  lemma SaveEntryStep(base: seq<Device>, ds: seq<Device>, k: nat, e: Entry)
    requires SameFrame(base, ds) && UniqueIds(ds) && 0 < k <= |ds|
    requires e == Entry(ds[k - 1].id, ds[k - 1].status, Present(ds[k - 1].value))
    ensures MergeEntry(ds[..k - 1] + base[k - 1..], e) == ds[..k] + base[k..]
  {
    var cur := ds[..k - 1] + base[k - 1..];
    assert SameFrame(cur, ds);
    SameFrameKeepsUniqueIds(ds, cur);
    MergeEntryAt(cur, k - 1, e);
    var d := ds[k - 1];
    assert cur[k - 1].(status := d.status, value := d.value) == d;
    assert cur[k - 1 := d] == ds[..k] + base[k..];
  }

  /**
   * With unique ids, the device named by the entry takes the entry's status,
   * and its value exactly when the entry carries one.
   */
  lemma MergeEntryAt(ds: seq<Device>, i: nat, e: Entry)
    requires UniqueIds(ds) && i < |ds| && ds[i].id == e.id
    ensures MergeEntry(ds, e) ==
      ds[i := ds[i].(status := e.status, value := if e.value.Present? then e.value.content else ds[i].value)]
  {
    FirstIndexOfUnique(ds, i);
  }

  /** Some entry of `es` carries the id `id`. */
  ghost predicate Names(es: seq<Entry>, id: int)
  {
    exists j :: 0 <= j < |es| && es[j].id == id
  }

  /** An id is named by a non-empty list of entries iff it is named by all but the last, or by the last. */
  lemma NamesLast(es: seq<Entry>, id: int)
    requires es != []
    ensures Names(es, id) <==> Names(es[..|es| - 1], id) || es[|es| - 1].id == id
  {
    var pre := es[..|es| - 1];
    if Names(es, id) && es[|es| - 1].id != id {
      var j :| 0 <= j < |es| && es[j].id == id;
      assert pre[j].id == id;
    }
    if Names(pre, id) {
      var j :| 0 <= j < |pre| && pre[j].id == id;
      assert es[j].id == id;
    }
  }

  lemma SameFrameFlip(a: seq<Device>, b: seq<Device>)
    requires SameFrame(a, b)
    ensures SameFrame(b, a)
  {
  }

  /** Merging one entry of a save of `ds` restores the device it names and no other. */
  lemma MergeSavedEntry(cur: seq<Device>, ds: seq<Device>, now: int, e: Entry, i: nat)
    requires SameFrame(cur, ds) && UniqueIds(ds) && i < |ds|
    requires e in Save(ds, now).devices
    ensures MergeEntry(cur, e)[i] == if e.id == ds[i].id then ds[i] else cur[i]
  {
    if e.id == ds[i].id {
      var sv := Save(ds, now).devices;
      var k :| 0 <= k < |sv| && sv[k] == e;
      assert k == i;
      SameFrameKeepsUniqueIds(ds, cur);
      MergeEntryAt(cur, i, e);
    }
  }

  /**
   * Partial round trip: merging any entries taken from a save of `ds`, in any
   * order, restores exactly the devices they name and leaves the others as
   * they were in `base`.
   */
  lemma {:induction false} MergedSavedEntries(base: seq<Device>, ds: seq<Device>, now: int, es: seq<Entry>, i: nat)
    requires SameFrame(base, ds) && UniqueIds(ds) && i < |ds|
    requires forall j :: 0 <= j < |es| ==> es[j] in Save(ds, now).devices
    ensures Merged(base, es)[i] == if Names(es, ds[i].id) then ds[i] else base[i]
  {
    if es != [] {
      var pre, e := es[..|es| - 1], es[|es| - 1];
      assert forall j :: 0 <= j < |pre| ==> pre[j] == es[j];
      MergedSavedEntries(base, ds, now, pre, i);
      var cur := Merged(base, pre);
      SameFrameFlip(base, cur);
      SameFrameTransitive(cur, base, ds);
      MergeSavedEntry(cur, ds, now, e, i);
      assert Merged(base, es) == MergeEntry(cur, e);
      NamesLast(es, ds[i].id);
    }
  }

  /**
   * Round trip: merging a saved snapshot onto a list with the same ids,
   * names and types reproduces the saved list exactly.
   */
  lemma SaveThenMerge(base: seq<Device>, ds: seq<Device>, now: int)
    requires SameFrame(base, ds) && UniqueIds(ds)
    ensures Merged(base, Save(ds, now).devices) == ds
  {
    var es := Save(ds, now).devices;
    MergedSavePrefix(base, ds, now, |ds|);
    assert es[..|ds|] == es;
    assert ds[..|ds|] + base[|ds|..] == ds;
  }

  /** In particular a fresh catalog restored from a save of a mutated catalog is that list. */
  lemma CatalogRestores(ds: seq<Device>, now: int)
    requires SameFrame(Catalog(), ds)
    ensures Merged(Catalog(), Save(ds, now).devices) == ds
  {
    CatalogWellFormed();
    SameFrameKeepsUniqueIds(Catalog(), ds);
    SaveThenMerge(Catalog(), ds, now);
  }
}
