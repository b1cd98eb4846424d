/**
 * `cutler unapply` (src/commands/unapply.rs): walks the snapshot's
 * records from the last to the first, restores each preference that had
 * a text before `apply` wrote it and deletes each one that had none, then
 * removes the snapshot file.
 */
module UnapplyCmd {
  import opened Wrappers
  import opened Toml
  import Prefs
  import Snapshots
  import DomainsConvert
  import ApplyCmd

  type Restore = (Prefs.PrefKey, Prefs.PrefValue)

  /** The restore a record asks for: its original text read as a value, when it has one. */
  function RestoreOf(r: Snapshots.SettingState, readF64: FloatReader): seq<Restore>
  {
    if r.originalValue.Some? then [(r.Key(), DomainsConvert.RestoredValue(r.originalValue.value, readF64))] else []
  }

  /** The restores of the reverse walk, in the order it makes them: the last record's first. */
  function Restores(records: seq<Snapshots.SettingState>, readF64: FloatReader): seq<Restore>
    decreases |records|
  {
    if |records| == 0 then [] else Restores(records[1..], readF64) + RestoreOf(records[0], readF64)
  }

  /** The deletes of the reverse walk: the preferences recorded as unset. */
  function Deletes(records: seq<Snapshots.SettingState>): (r: seq<Prefs.PrefKey>)
    ensures forall k :: k in r <==> exists i :: 0 <= i < |records| && records[i].Key() == k && records[i].originalValue.None?
    decreases |records|
  {
    if |records| == 0 then []
    else
      var rest := Deletes(records[1..]);
      assert forall i :: 0 < i < |records| ==> records[i] == records[1..][i - 1];
      if records[0].originalValue.None? then rest + [records[0].Key()] else rest
  }

  /**
   * The value the earliest record with an original text restores `k` to:
   * later records are restored first, so the earliest is written last.
   */
  function FirstRestore(records: seq<Snapshots.SettingState>, k: Prefs.PrefKey, readF64: FloatReader): (r: Option<Prefs.PrefValue>)
    ensures r.None? <==> forall i :: 0 <= i < |records| && records[i].Key() == k ==> records[i].originalValue.None?
    ensures r.Some? ==> exists i :: (0 <= i < |records| && records[i].Key() == k && records[i].originalValue.Some?
      && r.value == DomainsConvert.RestoredValue(records[i].originalValue.value, readF64))
    decreases |records|
  {
    if |records| == 0 then None
    else if records[0].Key() == k && records[0].originalValue.Some? then
      Some(DomainsConvert.RestoredValue(records[0].originalValue.value, readF64))
    else
      var r := FirstRestore(records[1..], k, readF64);
      assert forall i :: 0 < i < |records| ==> records[i] == records[1..][i - 1];
      r
  }

  lemma LastWriteConcat(a: seq<Restore>, b: seq<Restore>, k: Prefs.PrefKey)
    ensures Prefs.LastWrite(a + b, k) == if Prefs.LastWrite(b, k).Some? then Prefs.LastWrite(b, k) else Prefs.LastWrite(a, k)
    decreases |b|
  {
    if |b| > 0 {
      var ab := a + b;
      assert ab[..|ab| - 1] == a + b[..|b| - 1];
      assert ab[|ab| - 1] == b[|b| - 1];
      LastWriteConcat(a, b[..|b| - 1], k);
      if b[|b| - 1].0 != k {
        assert Prefs.LastWrite(ab, k) == Prefs.LastWrite(ab[..|ab| - 1], k);
        assert Prefs.LastWrite(b, k) == Prefs.LastWrite(b[..|b| - 1], k);
      }
    } else {
      assert a + b == a;
    }
  }

  /** The reverse walk's restores leave each preference at the value of its earliest record with an original text. */
  lemma {:induction false} RestoresLastWrite(records: seq<Snapshots.SettingState>, k: Prefs.PrefKey, readF64: FloatReader)
    ensures Prefs.LastWrite(Restores(records, readF64), k) == FirstRestore(records, k, readF64)
    decreases |records|
  {
    if |records| > 0 {
      RestoresLastWrite(records[1..], k, readF64);
      LastWriteConcat(Restores(records[1..], readF64), RestoreOf(records[0], readF64), k);
      if records[0].originalValue.Some? {
        assert RestoreOf(records[0], readF64)[..0] == [];
      }
    }
  }

  /** The store after unapply's restore batch, then its delete batch; a batch that fails changes nothing. */
  function Undone(store: Prefs.Store, records: seq<Snapshots.SettingState>, readF64: FloatReader,
                  writeSucceeds: bool, deleteSucceeds: bool): Prefs.Store
  {
    var restored := if writeSucceeds then Prefs.Written(store, Restores(records, readF64)) else store;
    if deleteSucceeds then Prefs.Deleted(restored, Deletes(records)) else restored
  }

  /**
   * What unapply leaves under one preference: removed when some record
   * says it was unset; otherwise the earliest recorded original text, read
   * as a value; otherwise what was there.
   */
  lemma UndoneAt(store: Prefs.Store, records: seq<Snapshots.SettingState>, readF64: FloatReader, k: Prefs.PrefKey)
    ensures var r := Undone(store, records, readF64, true, true);
      && (k in Deletes(records) ==> k !in r)
      && (k !in Deletes(records) && FirstRestore(records, k, readF64).Some? ==>
            k in r && r[k] == FirstRestore(records, k, readF64).value)
      && (k !in Deletes(records) && FirstRestore(records, k, readF64).None? ==>
            (k in r <==> k in store) && (k in store ==> r[k] == store[k]))
  {
    Prefs.WrittenAt(store, Restores(records, readF64), k);
    RestoresLastWrite(records, k, readF64);
  }

  // ---- the grouping by domain ----

  /** The restores grouped by domain, each domain's in the order they were made. */
  function Grouped(list: seq<Restore>): (g: map<string, seq<(string, Prefs.PrefValue)>>)
    decreases |list|
  {
    if |list| == 0 then map[]
    else
      var g := Grouped(list[..|list| - 1]);
      var last := list[|list| - 1];
      g[last.0.0 := GroupOf(g, last.0.0) + [(last.0.1, last.1)]]
  }

  function GroupOf<T>(g: map<string, seq<T>>, d: string): seq<T>
  {
    if d in g then g[d] else []
  }

  /** A domain's group as restores again. */
  function Tagged(d: string, entries: seq<(string, Prefs.PrefValue)>): (r: seq<Restore>)
    ensures |r| == |entries|
    ensures forall i :: 0 <= i < |r| ==> r[i] == ((d, entries[i].0), entries[i].1)
    decreases |entries|
  {
    if |entries| == 0 then []
    else Tagged(d, entries[..|entries| - 1]) + [((d, entries[|entries| - 1].0), entries[|entries| - 1].1)]
  }

  /** Grouping keeps, for every preference, the last value written to it. */
  lemma {:induction false} GroupedLastWrite(list: seq<Restore>, k: Prefs.PrefKey)
    ensures Prefs.LastWrite(Tagged(k.0, GroupOf(Grouped(list), k.0)), k) == Prefs.LastWrite(list, k)
    decreases |list|
  {
    if |list| > 0 {
      var front := list[..|list| - 1];
      var last := list[|list| - 1];
      GroupedLastWrite(front, k);
      var before := GroupOf(Grouped(front), k.0);
      if last.0.0 == k.0 {
        var after := before + [(last.0.1, last.1)];
        assert GroupOf(Grouped(list), k.0) == after;
        assert after[..|after| - 1] == before;
      } else {
        assert GroupOf(Grouped(list), k.0) == before;
      }
    }
  }

  /** Deleted keys grouped by domain. */
  function GroupedKeys(list: seq<Prefs.PrefKey>): (g: map<string, seq<string>>)
    ensures forall d, key :: key in GroupOf(g, d) <==> (d, key) in list
    decreases |list|
  {
    if |list| == 0 then map[]
    else
      var g := GroupedKeys(list[..|list| - 1]);
      var last := list[|list| - 1];
      assert forall x :: x in list <==> x in list[..|list| - 1] || x == last by {
        assert list == list[..|list| - 1] + [last];
      }
      g[last.0 := GroupOf(g, last.0) + [last.1]]
  }

  /** A tagged group writes only under its own domain. */
  lemma TaggedOtherDomain(d: string, entries: seq<(string, Prefs.PrefValue)>, k: Prefs.PrefKey)
    requires k.0 != d
    ensures Prefs.LastWrite(Tagged(d, entries), k).None?
  {
  }

  /**
   * Flattens the restores grouped by domain into one batch, the domains
   * in the map's (unspecified) iteration order; every preference keeps
   * the last value written to it.
   */
  method FlattenRestores(groups: map<string, seq<(string, Prefs.PrefValue)>>) returns (batch: seq<Restore>)
    ensures forall k :: Prefs.LastWrite(batch, k) == Prefs.LastWrite(Tagged(k.0, GroupOf(groups, k.0)), k)
    ensures groups == map[] ==> batch == []
  {
    batch := [];
    var left := groups;
    while left != map[]
      invariant left.Keys <= groups.Keys
      invariant forall d :: d in left ==> left[d] == groups[d]
      invariant groups == map[] ==> batch == []
      invariant forall k :: (Prefs.LastWrite(batch, k) ==
        if k.0 in left then None else Prefs.LastWrite(Tagged(k.0, GroupOf(groups, k.0)), k))
      decreases |left|
    {
      var d :| d in left;
      var part := Tagged(d, left[d]);
      forall k ensures Prefs.LastWrite(batch + part, k) ==
        if k.0 in left - {d} then None else Prefs.LastWrite(Tagged(k.0, GroupOf(groups, k.0)), k)
      {
        LastWriteConcat(batch, part, k);
        if k.0 != d {
          TaggedOtherDomain(d, left[d], k);
        }
      }
      batch := batch + part;
      left := left - {d};
    }
  }

  /** Flattens the deletes grouped by domain, the domains in the map's iteration order. */
  method FlattenDeletes(groups: map<string, seq<string>>) returns (keys: seq<Prefs.PrefKey>)
    ensures forall k :: k in keys <==> k.1 in GroupOf(groups, k.0)
    ensures groups == map[] ==> keys == []
  {
    keys := [];
    var left := groups;
    while left != map[]
      invariant left.Keys <= groups.Keys
      invariant forall d :: d in left ==> left[d] == groups[d]
      invariant groups == map[] ==> keys == []
      invariant forall k :: k in keys <==> k.0 !in left && k.1 in GroupOf(groups, k.0)
      decreases |left|
    {
      var d :| d in left;
      var part := seq(|left[d]|, i requires 0 <= i < |left[d]| => (d, left[d][i]));
      assert forall k: Prefs.PrefKey :: k in part <==> k.0 == d && k.1 in left[d] by {
        forall k: Prefs.PrefKey | k.0 == d && k.1 in left[d] ensures k in part {
          var i :| 0 <= i < |left[d]| && left[d][i] == k.1;
          assert part[i] == k;
        }
      }
      keys := keys + part;
      left := left - {d};
    }
  }

  /** Writing two batches that leave the same last value under every preference gives the same store. */
  lemma WrittenByLastWrites(store: Prefs.Store, a: seq<Restore>, b: seq<Restore>)
    requires forall k :: Prefs.LastWrite(a, k) == Prefs.LastWrite(b, k)
    ensures Prefs.Written(store, a) == Prefs.Written(store, b)
  {
    forall k ensures (k in Prefs.Written(store, a)) == (k in Prefs.Written(store, b))
      && (k in Prefs.Written(store, a) ==> Prefs.Written(store, a)[k] == Prefs.Written(store, b)[k])
    {
      Prefs.WrittenAt(store, a, k);
      Prefs.WrittenAt(store, b, k);
    }
  }

  /** One step of the reverse walk adds the record's restore, if any, to its domain's group. */
  lemma GroupedStep(records: seq<Snapshots.SettingState>, i: nat, readF64: FloatReader)
    requires i < |records|
    ensures var g := Grouped(Restores(records[i + 1..], readF64));
      var s := records[i];
      Grouped(Restores(records[i..], readF64))
        == if s.originalValue.Some? then
             g[s.domain := GroupOf(g, s.domain) + [(s.key, DomainsConvert.RestoredValue(s.originalValue.value, readF64))]]
           else g
  {
    assert records[i..][1..] == records[i + 1..];
    var list := Restores(records[i..], readF64);
    if records[i].originalValue.Some? {
      assert list[..|list| - 1] == Restores(records[i + 1..], readF64);
    } else {
      assert list == Restores(records[i + 1..], readF64);
    }
  }

  /** One step of the reverse walk adds the record's delete, if any, to its domain's group. */
  lemma GroupedKeysStep(records: seq<Snapshots.SettingState>, i: nat)
    requires i < |records|
    ensures var g := GroupedKeys(Deletes(records[i + 1..]));
      var s := records[i];
      GroupedKeys(Deletes(records[i..]))
        == if s.originalValue.None? then g[s.domain := GroupOf(g, s.domain) + [s.key]] else g
  {
    assert records[i..][1..] == records[i + 1..];
    var list := Deletes(records[i..]);
    if records[i].originalValue.None? {
      assert list[..|list| - 1] == Deletes(records[i + 1..]);
    } else {
      assert list == Deletes(records[i + 1..]);
    }
  }

  /** Builds the two batches in one reverse walk over the records, grouping by domain. */
  method GroupUndo(records: seq<Snapshots.SettingState>, readF64: FloatReader)
    returns (restores: map<string, seq<(string, Prefs.PrefValue)>>, deletes: map<string, seq<string>>)
    ensures restores == Grouped(Restores(records, readF64))
    ensures deletes == GroupedKeys(Deletes(records))
  {
    restores := map[];
    deletes := map[];
    var i := |records|;
    while i > 0
      invariant 0 <= i <= |records|
      invariant restores == Grouped(Restores(records[i..], readF64))
      invariant deletes == GroupedKeys(Deletes(records[i..]))
    {
      i := i - 1;
      var s := records[i];
      GroupedStep(records, i, readF64);
      GroupedKeysStep(records, i);
      if s.originalValue.Some? {
        var value := DomainsConvert.RestoredValue(s.originalValue.value, readF64);
        var group := if s.domain in restores then restores[s.domain] else [];
        restores := restores[s.domain := group + [(s.key, value)]];
      } else {
        var group := if s.domain in deletes then deletes[s.domain] else [];
        deletes := deletes[s.domain := group + [s.key]];
      }
    }
    assert records[0..] == records;
  }

  /** Writes the grouped restores as one batch, unless there are none; a failed batch writes nothing. */
  method WriteRestores(prefs: Prefs.Preferences, restores: map<string, seq<(string, Prefs.PrefValue)>>,
                       ghost list: seq<Restore>, writeSucceeds: bool)
    requires restores == Grouped(list)
    modifies prefs
    ensures prefs.values == if writeSucceeds then Prefs.Written(old(prefs.values), list) else old(prefs.values)
  {
    if restores != map[] {
      var batch := FlattenRestores(restores);
      forall k ensures Prefs.LastWrite(batch, k) == Prefs.LastWrite(list, k) {
        GroupedLastWrite(list, k);
      }
      WrittenByLastWrites(prefs.values, batch, list);
      prefs.WriteBatch(batch, writeSucceeds);
    } else {
      forall k ensures Prefs.LastWrite(list, k).None? {
        GroupedLastWrite(list, k);
      }
      WrittenByLastWrites(prefs.values, [], list);
    }
  }

  /** Deletes the grouped keys as one batch, unless there are none; a failed batch deletes nothing. */
  method DeleteKeys(prefs: Prefs.Preferences, deletes: map<string, seq<string>>,
                    ghost list: seq<Prefs.PrefKey>, deleteSucceeds: bool)
    requires deletes == GroupedKeys(list)
    modifies prefs
    ensures prefs.values == if deleteSucceeds then Prefs.Deleted(old(prefs.values), list) else old(prefs.values)
  {
    if deletes != map[] {
      var keys := FlattenDeletes(deletes);
      assert Prefs.Deleted(prefs.values, keys) == Prefs.Deleted(prefs.values, list);
      prefs.DeleteBatch(keys, deleteSucceeds);
    } else {
      assert forall k :: k !in list by {
        forall k ensures k !in list {
          assert k.1 !in GroupOf(deletes, k.0);
        }
      }
      assert Prefs.Deleted(prefs.values, list) == prefs.values;
    }
  }

  /**
   * `unapply`: fails when there is no snapshot file or it cannot be
   * loaded; otherwise writes the restores, then the deletes (a batch that
   * fails is only reported), and removes the snapshot file, failing
   * after the restores when it cannot be removed. A dry run changes
   * nothing.
   */
  method Unapply(prefs: Prefs.Preferences, files: Snapshots.SnapshotFiles, snapPath: string, dryRun: bool,
                 readF64: FloatReader, writeSucceeds: bool, deleteSucceeds: bool) returns (r: Result<()>)
    modifies prefs, files
    ensures snapPath !in old(files.files) || old(files.files)[snapPath].Unreadable? ==>
      r.Err? && prefs.values == old(prefs.values) && files.files == old(files.files)
    ensures snapPath in old(files.files) && old(files.files)[snapPath].Saved? ==>
      && (r.Ok? <==> dryRun || files.writable)
      && prefs.values == (if dryRun then old(prefs.values)
                          else Undone(old(prefs.values), old(files.files)[snapPath].snapshot.settings, readF64,
                                      writeSucceeds, deleteSucceeds))
      && files.files == (if r.Err? || dryRun then old(files.files) else old(files.files) - {snapPath})
  {
    if snapPath !in files.files {
      return Err("No snapshot found. Please run `cutler apply` first before unapplying.");
    }
    var loaded := files.Load(snapPath);
    if loaded.Err? {
      return Err("Failed to load snapshot: " + loaded.error);
    }
    var snapshot := loaded.value;
    var records := snapshot.settings;
    var restores, deletes := GroupUndo(records, readF64);
    if !dryRun {
      WriteRestores(prefs, restores, Restores(records, readF64), writeSucceeds);
      DeleteKeys(prefs, deletes, Deletes(records), deleteSucceeds);
      var removed := files.Delete(snapshot);
      if removed.Err? {
        return Err("Failed to remove snapshot file at " + snapPath);
      }
    }
    return Ok(());
  }

  // ---- apply, then unapply ----

  /** A preference value that reads back as itself from the text the store shows for it. */
  predicate ReadsBack(p: Prefs.PrefValue, readF64: FloatReader)
  {
    DomainsConvert.RestoredValue(DomainsConvert.PrefValueToString(p), readF64) == p
  }

  /** What `apply` records as a preference's original text when it has no older record: the non-empty text shown. */
  function ShownBefore(store: Prefs.Store, k: Prefs.PrefKey): Option<string>
  {
    if k in store && DomainsConvert.PrefValueToString(store[k]) != "" then Some(DomainsConvert.PrefValueToString(store[k]))
    else None
  }

  /** The records of a fresh apply: one per written preference, with what it showed before. */
  lemma FreshRecords(settings: seq<ApplyCmd.Setting>, store: Prefs.Store, i: nat)
    requires i < |ApplyCmd.ChangedSettings(settings, store)|
    ensures var s := ApplyCmd.ChangedSettings(settings, store)[i];
      var rec := ApplyCmd.JobStates(ApplyCmd.JobsFor(ApplyCmd.ChangedSettings(settings, store), map[], store, false))[i];
      rec.Key() == ApplyCmd.EffectiveKey(s) && rec.originalValue == ShownBefore(store, rec.Key())
  {
    ApplyCmd.JobsForAt(ApplyCmd.ChangedSettings(settings, store), map[], store, false, i);
  }

  /**
   * Unapplying records that each hold what the store showed before a batch
   * wrote their preference, one record per written preference.
   */
  lemma UndoneAfterBatch(store: Prefs.Store, batch: seq<Restore>, records: seq<Snapshots.SettingState>,
                         readF64: FloatReader, k: Prefs.PrefKey)
    requires |batch| == |records|
    requires forall i :: 0 <= i < |records| ==> records[i].Key() == batch[i].0 && records[i].originalValue == ShownBefore(store, batch[i].0)
    requires forall i, j :: 0 <= i < j < |records| ==> records[i].Key() != records[j].Key()
    ensures var after := Undone(Prefs.Written(store, batch), records, readF64, true, true);
      && (k in store && DomainsConvert.PrefValueToString(store[k]) != "" && ReadsBack(store[k], readF64) ==>
            k in after && after[k] == store[k])
      && (k !in store ==> k !in after)
      && ((forall i :: 0 <= i < |records| ==> records[i].Key() != k) ==>
            (k in after <==> k in store) && (k in store ==> after[k] == store[k]))
  {
    var written := Prefs.Written(store, batch);
    UndoneAt(written, records, readF64, k);
    Prefs.WrittenAt(store, batch, k);
    if n :| 0 <= n < |records| && records[n].Key() == k {
      forall i | 0 <= i < |records| && records[i].Key() == k ensures i == n {
      }
    }
  }

  /**
   * Unapply undoes a fresh apply: when every setting has its own
   * preference and a boolean, integer or string value, unapplying the
   * snapshot of an apply that started without one brings back every
   * preference that showed a non-empty text reading back as itself,
   * leaves absent what was absent, and leaves every preference no setting
   * names as it was.
   */
  lemma UnapplyUndoesFreshApply(settings: seq<ApplyCmd.Setting>, store: Prefs.Store,
                                domainsList: set<string>, noCheck: bool, readF64: FloatReader, k: Prefs.PrefKey)
    requires ApplyCmd.DistinctKeys(settings)
    requires forall i :: 0 <= i < |settings| ==>
      settings[i].value.Boolean? || settings[i].value.Integer? || settings[i].value.String?
    requires ApplyCmd.Plan(settings, store, map[], false, domainsList, noCheck).Ok?
    ensures var jobs := ApplyCmd.Plan(settings, store, map[], false, domainsList, noCheck).value.0;
      && ApplyCmd.BatchOf(jobs).Ok?
      && var after := Undone(Prefs.Written(store, ApplyCmd.BatchOf(jobs).value), ApplyCmd.JobStates(jobs), readF64, true, true);
      && (k in store && DomainsConvert.PrefValueToString(store[k]) != "" && ReadsBack(store[k], readF64) ==>
            k in after && after[k] == store[k])
      && (k !in store ==> k !in after)
      && ((forall i :: 0 <= i < |settings| ==> ApplyCmd.EffectiveKey(settings[i]) != k) ==>
            (k in after <==> k in store) && (k in store ==> after[k] == store[k]))
  {
    ApplyCmd.PlanIsChangedSettings(settings, store, map[], false, domainsList, noCheck);
    var changed := ApplyCmd.ChangedSettings(settings, store);
    var jobs := ApplyCmd.JobsFor(changed, map[], store, false);
    ApplyCmd.ChangedBatch(settings, store, map[], false);
    var batch := ApplyCmd.BatchOf(jobs).value;
    var records := ApplyCmd.JobStates(jobs);
    forall i | 0 <= i < |records|
      ensures records[i].Key() == batch[i].0 && records[i].originalValue == ShownBefore(store, batch[i].0)
      ensures (forall a :: 0 <= a < |settings| ==> ApplyCmd.EffectiveKey(settings[a]) != k) ==> records[i].Key() != k
    {
      FreshRecords(settings, store, i);
      var a :| 0 <= a < |settings| && settings[a] == changed[i];
    }
    UndoneAfterBatch(store, batch, records, readF64, k);
  }
}
