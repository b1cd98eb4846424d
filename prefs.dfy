/**
 * The preference store the program reads and writes through the
 * `defaults_rs` crate: typed values (`PrefValue`) under a
 * (domain, key) pair. The crate itself is not part of this model; its
 * batch write and batch delete are modelled by their effect on the store.
 */
module Prefs {
  import opened Wrappers
  import Toml

  /** `defaults_rs::PrefValue`. A dictionary is the sequence of its entries. */
  datatype PrefValue =
    | PString(s: string)
    | PInteger(i: int)
    | PFloat(f: Toml.F64)
    | PBoolean(b: bool)
    | PArray(items: seq<PrefValue>)
    | PDictionary(entries: seq<(string, PrefValue)>)

  /** A preference: its domain (`NSGlobalDomain` for `Domain::Global`) and its key. */
  type PrefKey = (string, string)

  type Store = map<PrefKey, PrefValue>

  /** The last value a batch writes under `k`, if it writes one. */
  function LastWrite(batch: seq<(PrefKey, PrefValue)>, k: PrefKey): (r: Option<PrefValue>)
    ensures r.Some? <==> exists i :: 0 <= i < |batch| && batch[i].0 == k
  {
    if |batch| == 0 then None
    else if batch[|batch| - 1].0 == k then Some(batch[|batch| - 1].1)
    else LastWrite(batch[..|batch| - 1], k)
  }

  /** The store after writing a batch in order. */
  function Written(store: Store, batch: seq<(PrefKey, PrefValue)>): Store
  {
    if |batch| == 0 then store
    else Written(store, batch[..|batch| - 1])[batch[|batch| - 1].0 := batch[|batch| - 1].1]
  }

  /** The store after deleting a batch of keys. */
  function Deleted(store: Store, keys: seq<PrefKey>): (r: Store)
    ensures forall k :: k in r <==> k in store && k !in keys
    ensures forall k :: k in r ==> r[k] == store[k]
  {
    map k | k in store && k !in keys :: store[k]
  }

  /** A written batch leaves under each key the last value written there, and nothing else changes. */
  lemma {:induction false} WrittenAt(store: Store, batch: seq<(PrefKey, PrefValue)>, k: PrefKey)
    ensures k in Written(store, batch) <==> (LastWrite(batch, k).Some? || k in store)
    ensures LastWrite(batch, k).Some? ==> Written(store, batch)[k] == LastWrite(batch, k).value
    ensures LastWrite(batch, k).None? && k in store ==> Written(store, batch)[k] == store[k]
  {
    if |batch| > 0 {
      WrittenAt(store, batch[..|batch| - 1], k);
    }
  }

  /** The batch-writing side of the crate, as a store that changes in place. */
  class Preferences {
    var values: Store

    constructor(initial: Store)
      ensures values == initial
    {
      values := initial;
    }

    /** `Preferences::write_batch`: when it fails, nothing is written. */
    method WriteBatch(batch: seq<(PrefKey, PrefValue)>, succeeds: bool)
      modifies this
      ensures values == if succeeds then Written(old(values), batch) else old(values)
    {
      if succeeds {
        values := Written(values, batch);
      }
    }

    /** `Preferences::delete_batch`: when it fails, nothing is deleted. */
    method DeleteBatch(keys: seq<PrefKey>, succeeds: bool)
      modifies this
      ensures values == if succeeds then Deleted(old(values), keys) else old(values)
    {
      if succeeds {
        values := Deleted(values, keys);
      }
    }
  }
}
