/**
 The TTL cache: a map from string keys to items, a cache-wide default TTL
 used by `Set` and by every refreshing read, and a sweep that drops what has
 expired. Locking and the ticker that drives the sweep are not modelled;
 each method is one critical section, run with the instant `now` it is given.
 */
module TtlCache {
  import opened Items

  /** One second, in the nanosecond unit of all durations here. */
  const SECOND: int := 1_000_000_000

  /** The `found` flag of a lookup together with the value it carries. */
  datatype Option<T> = None | Some(value: T)

  /** What a lookup answers and the map it leaves behind. */
  datatype Outcome<T> = Outcome(data: Option<T>, items: map<string, Item<T>>)

  /** The map after `SetWithTTL(key, data, ttl)` at instant `now`. */
  function AfterSetWithTtl<T>(items: map<string, Item<T>>, key: string, data: T, ttl: int, now: int)
    : (stored: map<string, Item<T>>)
    ensures key in stored && stored[key].data == data && stored[key].expiresAt - now == ttl
    ensures stored.Keys == items.Keys + {key}
    ensures forall k :: k in items && k != key ==> stored[k] == items[k]
    ensures |items| <= |stored| <= |items| + 1
  {
    items[key := Item(data, now + ttl)]
  }

  /** The map after `Delete(key)`. */
  function AfterDelete<T>(items: map<string, Item<T>>, key: string): (kept: map<string, Item<T>>)
    ensures kept.Keys == items.Keys - {key}
    ensures forall k :: k in kept ==> kept[k] == items[k]
    ensures key !in items ==> kept == items
    ensures |kept| == if key in items then |items| - 1 else |items|
  {
    items - {key}
  }

  /**
   What `Get(key, shouldTouch)` at instant `now` answers, and the map it
   leaves, in a cache whose default TTL is `ttl`. A live item is only
   reported when the read touches it; a non-touching read of a live item
   reports nothing, exactly like an absent or expired key.
   */
  function Lookup<T>(items: map<string, Item<T>>, key: string, shouldTouch: bool, now: int, ttl: int)
    : (r: Outcome<T>)
    ensures r.data.Some? <==> key in items && !Expired(items[key], now) && shouldTouch
    ensures r.data.Some? ==> r.data.value == items[key].data
    ensures r.data.None? ==> r.items == items
    ensures r.data.Some? ==>
      && r.items.Keys == items.Keys
      && r.items[key] == Item(items[key].data, now + ttl)
      && forall k :: k in items && k != key ==> r.items[k] == items[k]
    ensures |r.items| == |items|
  {
    if key !in items || Expired(items[key], now) then
      Outcome(None, items)
    else if shouldTouch then
      Outcome(Some(items[key].data), items[key := items[key].Touched(now, ttl)])
    else
      Outcome(None, items)
  }

  /** The map after a sweep at instant `now`: exactly the unexpired items. */
  function Swept<T>(items: map<string, Item<T>>, now: int): (live: map<string, Item<T>>)
    ensures forall k :: k in live <==> k in items && !Expired(items[k], now)
    ensures forall k :: k in live ==> live[k] == items[k]
  {
    map k | k in items && !Expired(items[k], now) :: items[k]
  }

  /** How often the sweep runs: the default TTL, but never more often than once a second. */
  function CleanupInterval(ttl: int): (period: int)
    ensures period >= SECOND && period >= ttl
    ensures period == SECOND || period == ttl
  {
    if ttl < SECOND then SECOND else ttl
  }

  /** A cache of payloads of type `T` whose default TTL is `ttl`. */
  class Cache<T> {
    const ttl: int
    var items: map<string, Item<T>>

    /** `NewCache(duration)`: an empty cache with default TTL `duration`. */
    constructor (duration: int)
      ensures ttl == duration && items == map[]
    {
      ttl := duration;
      items := map[];
    }

    /** Stores `data` at `key` with the default TTL. */
    method Set(key: string, data: T, now: int)
      modifies this
      ensures items == AfterSetWithTtl(old(items), key, data, ttl, now)
    {
      SetWithTTL(key, data, ttl, now);
    }

    /** Stores `data` at `key`, to expire `ttl` after `now`, replacing any earlier item. */
    method SetWithTTL(key: string, data: T, ttl: int, now: int)
      modifies this
      ensures items == AfterSetWithTtl(old(items), key, data, ttl, now)
    {
      var item := Item(data, now).Touched(now, ttl);
      items := items[key := item];
    }

    /** Removes `key`, whatever its TTL; nothing happens when it is absent. */
    method Delete(key: string)
      modifies this
      ensures items == AfterDelete(old(items), key)
    {
      items := items - {key};
    }

    /** A lookup that always refreshes what it finds. */
    method Read(key: string, now: int) returns (data: Option<T>)
      modifies this
      ensures Outcome(data, items) == Lookup(old(items), key, true, now, ttl)
    {
      data := Get(key, true, now);
    }

    /**
     Looks `key` up at instant `now`. A live item is returned only when
     `shouldTouch` holds, and then its expiry is reset with the default TTL;
     every other case returns nothing and leaves the map alone.
     */
    method Get(key: string, shouldTouch: bool, now: int) returns (data: Option<T>)
      modifies this
      ensures Outcome(data, items) == Lookup(old(items), key, shouldTouch, now, ttl)
    {
      data := None;
      if key !in items || Expired(items[key], now) {
        data := None;
      } else if shouldTouch {
        items := items[key := items[key].Touched(now, ttl)];
        data := Some(items[key].data);
      }
    }

    /** The number of items held, expired ones not yet swept included. */
    method Count() returns (n: nat)
      ensures n == |items|
    {
      n := |items|;
    }

    /** One sweep at instant `now`: visits every key once and deletes the expired ones. */
    method Cleanup(now: int)
      modifies this
      ensures items == Swept(old(items), now)
    {
      var pending := items.Keys;
      while pending != {}
        invariant pending <= items.Keys <= old(items).Keys
        invariant forall k :: k in items ==> items[k] == old(items)[k]
        invariant forall k :: k in old(items) && k !in pending ==>
          (k in items <==> !Expired(old(items)[k], now))
        decreases pending
      {
        var key :| key in pending;
        if Expired(items[key], now) {
          items := items - {key};
        }
        pending := pending - {key};
      }
    }
  }
}
