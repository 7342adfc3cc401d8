/**
 * The in-memory cache of response bodies: a map from request URL to a
 * record, each stored with the time it was written, and a maximum age fixed
 * when the cache is built. Reading an expired entry evicts it. The current
 * time is an argument instead of a clock reading.
 */
module ExpiringCache {
  import opened Wrappers

  /** The field the cache adds to every stored record. */
  const CreatedAtKey: string := "createdAtInMilliseconds"

  /** A stored record: the caller's fields, kept apart from the time stamp. */
  datatype Entry<T> = Entry(fields: map<string, T>, createdAtInMilliseconds: int)

  /** `{ ...value, createdAtInMilliseconds: now }`: a field of that name in the value is overwritten. */
  function Stamp<T>(value: map<string, T>, now: int): (e: Entry<T>)
    ensures e.createdAtInMilliseconds == now
    ensures CreatedAtKey !in e.fields
    ensures forall k :: k in value && k != CreatedAtKey ==> k in e.fields && e.fields[k] == value[k]
    ensures forall k :: k in e.fields ==> k in value
  {
    Entry(value - {CreatedAtKey}, now)
  }

  /** The strict freshness test of `get`. */
  predicate IsFresh<T>(maxAge: int, e: Entry<T>, now: int) {
    maxAge > now - e.createdAtInMilliseconds
  }

  /** What `get` returns for a store. */
  function Lookup<T>(store: map<string, Entry<T>>, maxAge: int, key: string, now: int): Option<map<string, T>> {
    if key in store && IsFresh(maxAge, store[key], now) then Some(store[key].fields) else None
  }

  /** The store after `get`: an entry found expired is deleted, nothing else changes. */
  function AfterLookup<T>(store: map<string, Entry<T>>, maxAge: int, key: string, now: int): map<string, Entry<T>> {
    if key in store && !IsFresh(maxAge, store[key], now) then store - {key} else store
  }

  /** No stored record carries the stamp field among the caller's fields. */
  predicate StampsApart<T>(store: map<string, Entry<T>>) {
    forall k :: k in store ==> CreatedAtKey !in store[k].fields
  }

  class Cache<T> {
    var maxAge: int
    var store: map<string, Entry<T>>

    ghost predicate Valid()
      reads this
    {
      StampsApart(store)
    }

    constructor (maxAge: int)
      ensures this.maxAge == maxAge && store == map[] && Valid()
    {
      this.maxAge := maxAge;
      store := map[];
    }

    /** `get`: only `store` may change, so `maxAge` stays as constructed. */
    method Get(key: string, now: int) returns (r: Option<map<string, T>>)
      requires Valid()
      modifies this`store
      ensures Valid()
      ensures r == Lookup(old(store), maxAge, key, now)
      ensures store == AfterLookup(old(store), maxAge, key, now)
    {
      if key !in store {
        return None;
      }
      var entry := store[key];
      if maxAge > now - entry.createdAtInMilliseconds {
        return Some(entry.fields);
      } else {
        store := store - {key};
        return None;
      }
    }

    /** `set`: the entry for `key` is replaced by the value stamped with `now`. */
    method Set(key: string, value: map<string, T>, now: int)
      requires Valid()
      modifies this`store
      ensures Valid()
      ensures store == old(store)[key := Stamp(value, now)]
    {
      store := store[key := Stamp(value, now)];
    }
  }

  // ---------------------------------------------------------------- properties of get and set

  /** Absent key: `get` gives undefined and the store is left as it was. */
  lemma {:induction false} AbsentKey<T>(store: map<string, Entry<T>>, maxAge: int, key: string, now: int)
    requires key !in store
    ensures Lookup(store, maxAge, key, now).None?
    ensures AfterLookup(store, maxAge, key, now) == store
  {
  }

  /** A stored entry is returned (without its stamp) exactly when it is fresh; otherwise exactly its key is deleted. */
  lemma {:induction false} PresentKey<T>(store: map<string, Entry<T>>, maxAge: int, key: string, now: int)
    requires key in store && StampsApart(store)
    ensures Lookup(store, maxAge, key, now).Some? <==> maxAge > now - store[key].createdAtInMilliseconds
    ensures Lookup(store, maxAge, key, now).Some? ==>
              Lookup(store, maxAge, key, now).value == store[key].fields
              && CreatedAtKey !in Lookup(store, maxAge, key, now).value
              && AfterLookup(store, maxAge, key, now) == store
    ensures Lookup(store, maxAge, key, now).None? ==>
              key !in AfterLookup(store, maxAge, key, now)
              && AfterLookup(store, maxAge, key, now) == store - {key}
  {
  }

  /** An entry exactly `maxAge` old is already expired. */
  lemma {:induction false} BoundaryExpired<T>(store: map<string, Entry<T>>, key: string, now: int)
    requires key in store
    ensures Lookup(store, now - store[key].createdAtInMilliseconds, key, now).None?
  {
  }

  /** Neither `get` nor `set` touches another key. */
  lemma {:induction false} OtherKeysUntouched<T>(store: map<string, Entry<T>>, maxAge: int, key: string, other: string,
                              value: map<string, T>, now: int)
    requires other != key
    ensures other in AfterLookup(store, maxAge, key, now) <==> other in store
    ensures other in store ==> AfterLookup(store, maxAge, key, now)[other] == store[other]
    ensures other in store[key := Stamp(value, now)] <==> other in store
    ensures other in store ==> store[key := Stamp(value, now)][other] == store[other]
  {
  }

  /**
   * Reading right after writing: the value comes back, minus its own stamp
   * field, when the maximum age is positive, and the replaced entry's age is
   * reset to zero whatever it was.
   */
  lemma {:induction false} SetThenGet<T>(store: map<string, Entry<T>>, maxAge: int, key: string, value: map<string, T>, now: int)
    ensures Lookup(store[key := Stamp(value, now)], maxAge, key, now).Some? <==> maxAge > 0
    ensures maxAge > 0 ==> Lookup(store[key := Stamp(value, now)], maxAge, key, now) == Some(value - {CreatedAtKey})
    ensures StampsApart(store) ==> StampsApart(store[key := Stamp(value, now)])
  {
    var e := Stamp(value, now);
    assert now - e.createdAtInMilliseconds == 0;
  }

  /** A value read later than `set` comes back iff less than `maxAge` has passed since. */
  lemma {:induction false} SetThenGetLater<T>(store: map<string, Entry<T>>, maxAge: int, key: string, value: map<string, T>,
                           setAt: int, now: int)
    ensures Lookup(store[key := Stamp(value, setAt)], maxAge, key, now).Some? <==> now - setAt < maxAge
  {
    assert Stamp(value, setAt).createdAtInMilliseconds == setAt;
  }

  /** A second `get` right after the first one gives the same answer and leaves the store as the first left it. */
  lemma {:induction false} LookupStable<T>(store: map<string, Entry<T>>, maxAge: int, key: string, now: int)
    ensures Lookup(AfterLookup(store, maxAge, key, now), maxAge, key, now) == Lookup(store, maxAge, key, now)
    ensures AfterLookup(AfterLookup(store, maxAge, key, now), maxAge, key, now) == AfterLookup(store, maxAge, key, now)
  {
  }

  /** A scenario on one cache object: write, read while fresh, read once expired. */
  method ExpiryScenario() returns (first: Option<map<string, int>>, second: Option<map<string, int>>)
    ensures first == Some(map["n" := 1])
    ensures second == None
  {
    var c := new Cache<int>(1000);
    c.Set("https://rest.api.bible/v1/bibles", map["n" := 1, CreatedAtKey := 7], 5000);
    assert map["n" := 1, CreatedAtKey := 7] - {CreatedAtKey} == map["n" := 1];
    first := c.Get("https://rest.api.bible/v1/bibles", 5999);
    second := c.Get("https://rest.api.bible/v1/bibles", 6000);
  }
}
