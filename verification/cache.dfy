/**
 * The background worker's expiring key/value cache (`getFromCache` and
 * `setToCache`). Each key maps to an entry holding the cached data and an
 * absolute expiration time in milliseconds. A read serves the data only while
 * the expiration is strictly later than the current time. Reading an expired
 * entry deletes it; nothing ever sweeps entries proactively.
 *
 * The storage map is modelled both as values (`Read`, `AfterRead`, `Write`,
 * about which the lemmas below speak) and as the mutable store of
 * `ExpiringCache`, whose methods are proved against those functions. The
 * current time, `Date.now()` in the source, is a parameter.
 */
module Cache {
  import opened Wrappers

  /** Milliseconds per minute: a time-to-live is given in minutes, times in milliseconds. */
  const MillisPerMinute: nat := 60 * 1000

  /** Time-to-live of cached reviewer suggestions, in minutes. */
  const SuggestionsTtlMinutes: nat := 15

  datatype Entry<D> = Entry(data: D, expiration: int)

  type Store<D> = map<string, Entry<D>>

  /** The entry under `key` exists and has not yet expired at time `now`. */
  predicate Live<D>(store: Store<D>, key: string, now: int) {
    key in store && store[key].expiration > now
  }

  /** The value `getFromCache(key)` returns at time `now`. */
  function Read<D>(store: Store<D>, key: string, now: int): Option<D> {
    if Live(store, key, now) then Some(store[key].data) else None
  }

  /** The store after `getFromCache(key)` at time `now`: an expired entry under `key` is removed. */
  function AfterRead<D>(store: Store<D>, key: string, now: int): Store<D> {
    if key in store && !Live(store, key, now) then store - {key} else store
  }

  /** The store after `setToCache(key, data, ttlMinutes)` at time `now`. */
  function Write<D>(store: Store<D>, key: string, data: D, ttlMinutes: nat, now: int): Store<D> {
    store[key := Entry(data, now + ttlMinutes * MillisPerMinute)]
  }

  /** The cache as the source keeps it: one mutable storage map. */
  class ExpiringCache<D> {
    var store: Store<D>

    constructor ()
      ensures store == map[]
    {
      store := map[];
    }

    /** `getFromCache`: the data while it is fresh, otherwise nothing, evicting an expired entry. */
    method Get(key: string, now: nat) returns (r: Option<D>)
      modifies this
      ensures r == Read(old(store), key, now)
      ensures store == AfterRead(old(store), key, now)
    {
      r := None;
      if key in store {
        var cachedItem := store[key];
        if cachedItem.expiration > now {
          r := Some(cachedItem.data);
        } else {
          store := store - {key};
        }
      }
    }

    /** `setToCache`: stores `data` under `key`, expiring `ttlMinutes` minutes after `now`. */
    method Set(key: string, data: D, ttlMinutes: nat, now: nat)
      modifies this
      ensures store == Write(old(store), key, data, ttlMinutes, now)
      ensures store[key].expiration == now + ttlMinutes * 60000
      ensures forall k :: k != key ==> Read(store, k, now) == Read(old(store), k, now)
    {
      var expiration := now + ttlMinutes * 60 * 1000;
      store := store[key := Entry(data, expiration)];
    }
  }

  /**
   * A read returns the stored data exactly when the key is present and its
   * expiration is strictly later than `now`, and nothing otherwise.
   */
  lemma ReadServesOnlyFresh<D>(store: Store<D>, key: string, now: int)
    ensures Read(store, key, now).Some? <==> key in store && store[key].expiration > now
    ensures Read(store, key, now).Some? ==> Read(store, key, now).value == store[key].data
  {
  }

  /**
   * Reading an entry whose expiration is at or before `now` removes exactly that
   * key; a read never changes any other entry and never adds one.
   */
  lemma ReadEvictsOnlyExpired<D>(store: Store<D>, key: string, now: int)
    ensures key in store && store[key].expiration <= now ==>
              AfterRead(store, key, now).Keys == store.Keys - {key}
    ensures !(key in store && store[key].expiration <= now) ==> AfterRead(store, key, now) == store
    ensures forall k :: k in AfterRead(store, key, now) ==> k in store && AfterRead(store, key, now)[k] == store[k]
  {
  }

  /**
   * Written at time `t` with a time-to-live of `ttl` minutes, the entry holds the
   * data and expires at `t + ttl * 60000`; a read at any time before that
   * returns the data and leaves the store as it was.
   */
  lemma ReadWithinTtl<D>(store: Store<D>, key: string, data: D, ttl: nat, t: int, later: int)
    requires later < t + ttl * 60000
    ensures Write(store, key, data, ttl, t)[key] == Entry(data, t + ttl * 60000)
    ensures Read(Write(store, key, data, ttl, t), key, later) == Some(data)
    ensures AfterRead(Write(store, key, data, ttl, t), key, later) == Write(store, key, data, ttl, t)
  {
  }

  /** Once the time-to-live has elapsed a read returns nothing and the entry is gone. */
  lemma ReadAfterTtl<D>(store: Store<D>, key: string, data: D, ttl: nat, t: int, later: int)
    requires later >= t + ttl * 60000
    ensures Read(Write(store, key, data, ttl, t), key, later) == None
    ensures AfterRead(Write(store, key, data, ttl, t), key, later) == store - {key}
  {
  }

  /** Writing under one key changes no read of another key, at any time. */
  lemma WriteFrame<D>(store: Store<D>, key: string, data: D, ttl: nat, t: int, other: string, now: int)
    requires other != key
    ensures Read(Write(store, key, data, ttl, t), other, now) == Read(store, other, now)
  {
  }

  /**
   * Lazy eviction cannot be observed: after a read at `now`, every read of any
   * key at `now` or later returns what it would have returned without the
   * eviction. An evicted entry had expired, and stays expired.
   */
  lemma EvictionUnobservable<D>(store: Store<D>, key: string, now: int, other: string, later: int)
    requires now <= later
    ensures Read(AfterRead(store, key, now), other, later) == Read(store, other, later)
  {
  }

  /** Repeating a read at the same time returns the same value and changes nothing more. */
  lemma ReadIdempotent<D>(store: Store<D>, key: string, now: int)
    ensures Read(AfterRead(store, key, now), key, now) == Read(store, key, now)
    ensures AfterRead(AfterRead(store, key, now), key, now) == AfterRead(store, key, now)
  {
  }
}
