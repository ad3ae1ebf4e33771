/** The application cache as the controller uses it: `remember(key, ttl,
    supplier)`, a compute-if-absent over a keyed store of user batches. The
    time-to-live is not modelled (no clock), so an entry, once stored, stays. */
module Cache {
  import opened Upstream

  type Store = map<string, seq<User>>

  /** What `remember` returns and what the store holds afterwards, given the
      outcome the supplier would have if it were called. */
  function Remembered(store: Store, key: string, fetch: Fetched): (r: (Fetched, Store))
    // a hit returns the stored batch, whatever the supplier would do
    ensures key in store ==> r.0 == Ok(store[key])
    // a miss returns the supplier's outcome
    ensures key !in store ==> r.0 == fetch
    // a returned batch is the one now stored under the key
    ensures r.0.Ok? ==> key in r.1 && r.1[key] == r.0.records
    // only a successful result adds a key; a failure stores nothing
    ensures r.1.Keys == if r.0.Ok? then store.Keys + {key} else store.Keys
    // existing entries are never replaced
    ensures forall k :: k in store ==> r.1[k] == store[k]
  {
    if key in store then (Ok(store[key]), store)
    else if fetch.Ok? then (fetch, store[key := fetch.records])
    else (Err, store)
  }

  /** Once a batch has been returned for a key, asking again returns the same
      batch and changes nothing, whatever a new supplier would do. */
  lemma RememberAgain(store: Store, key: string, first: Fetched, second: Fetched)
    requires Remembered(store, key, first).0.Ok?
    ensures Remembered(Remembered(store, key, first).1, key, second) == Remembered(store, key, first)
  {
  }

  /** A failed supplier leaves the store as it was, so the next call for the
      same key runs its supplier again. */
  lemma FailureIsNotCached(store: Store, key: string, retry: Fetched)
    requires key !in store
    ensures Remembered(store, key, Err) == (Err, store)
    ensures Remembered(Remembered(store, key, Err).1, key, retry).0 == retry
  {
  }

  class BatchCache {
    var entries: Store
    /** The keys whose supplier ran, in order: one upstream request each. */
    ghost var Calls: seq<string>

    /** Every stored batch was produced by a supplier call for its key. */
    ghost predicate Valid()
      reads this
    {
      forall k :: k in entries ==> k in Calls
    }

    constructor ()
      ensures Valid()
      ensures entries == map[] && Calls == []
    {
      entries := map[];
      Calls := [];
    }

    /** `remember(key, ttl, supplier)`: returns the stored batch on a hit
        without running the supplier; on a miss runs it once, stores and
        returns its batch, or stores nothing and passes its failure on. */
    method Remember(key: string, fetch: Fetched) returns (r: Fetched)
      requires Valid()
      modifies this
      ensures Valid()
      ensures (r, entries) == Remembered(old(entries), key, fetch)
      ensures Calls == if key in old(entries) then old(Calls) else old(Calls) + [key]
    {
      if key in entries {
        r := Ok(entries[key]);
      } else {
        Calls := Calls + [key];
        r := fetch;
        if fetch.Ok? {
          entries := entries[key := fetch.records];
        }
      }
    }
  }
}
