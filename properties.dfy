/**
 Properties that relate several cache operations: what a read sees after a
 write or a delete, how the sweep relates to reads and to itself, and how
 repeated reads keep an item alive.
 */
module CacheProperties {
  import opened Items
  import opened TtlCache

  /**
   A read at `later` of a key just stored with TTL `d` at `now` finds the new
   value exactly while the stored item is unexpired at `later`, whatever was
   stored there before (Set-then-Read, TTL expiry and overwrite).
   */
  lemma ReadAfterSetWithTtl<T>(items: map<string, Item<T>>, key: string, data: T, d: int, now: int,
                               later: int, ttl: int)
    ensures Lookup(AfterSetWithTtl(items, key, data, d, now), key, true, later, ttl).data
         == if !Expired(Item(data, now + d), later) then Some(data) else None
  {
  }

  /** After `Delete(key)` no read finds `key`, whatever its TTL. */
  lemma ReadAfterDelete<T>(items: map<string, Item<T>>, key: string, shouldTouch: bool, now: int, ttl: int)
    ensures Lookup(AfterDelete(items, key), key, shouldTouch, now, ttl) == Outcome(None, AfterDelete(items, key))
  {
  }

  /** A non-touching `Get` never finds anything and never changes the map. */
  lemma GetWithoutTouchFindsNothing<T>(items: map<string, Item<T>>, key: string, now: int, ttl: int)
    ensures Lookup(items, key, false, now, ttl) == Outcome(None, items)
  {
  }

  /**
   A touching read that succeeds sets the expiry from the cache's default
   TTL, not from the TTL the item was stored with.
   */
  lemma RefreshUsesDefaultTtl<T>(items: map<string, Item<T>>, key: string, d: int, now: int,
                                 data: T, later: int, ttl: int)
    requires !Expired(Item(data, now + d), later)
    ensures Lookup(AfterSetWithTtl(items, key, data, d, now), key, true, later, ttl).items[key].expiresAt
         == later + ttl
  {
  }

  /** A sweep never adds items, so `Count` never grows across a sweep. */
  lemma {:induction false} SweepNeverGrows<T>(items: map<string, Item<T>>, now: int)
    ensures |Swept(items, now)| <= |items|
  {
    var live := Swept(items, now);
    assert items.Keys == live.Keys + (items.Keys - live.Keys);
  }

  /** A second sweep at the same instant changes nothing. */
  lemma SweepIdempotent<T>(items: map<string, Item<T>>, now: int)
    ensures Swept(Swept(items, now), now) == Swept(items, now)
  {
  }

  /**
   The sweep is invisible to readers: at any instant from the sweep's on, a
   read of the swept map answers what a read of the unswept map answers.
   */
  lemma SweepInvisibleToReads<T>(items: map<string, Item<T>>, now: int, key: string, shouldTouch: bool,
                                 later: int, ttl: int)
    requires now <= later
    ensures Lookup(Swept(items, now), key, shouldTouch, later, ttl).data
         == Lookup(items, key, shouldTouch, later, ttl).data
  {
  }

  /** The answers of successive `Read(key)` calls at the instants `times`. */
  function Reads<T>(items: map<string, Item<T>>, key: string, times: seq<int>, ttl: int): seq<Option<T>>
    decreases |times|
  {
    if times == [] then []
    else
      var first := Lookup(items, key, true, times[0], ttl);
      [first.data] + Reads(first.items, key, times[1..], ttl)
  }

  /**
   Touch extends life: if the item is unexpired at the first read and each
   later read comes before an item touched at the previous read would
   expire, every read finds the item's value.
   */
  lemma {:induction false} ReadsKeepItemAlive<T>(items: map<string, Item<T>>, key: string, times: seq<int>, ttl: int)
    requires key in items
    requires |times| > 0 ==> !Expired(items[key], times[0])
    requires forall i :: 0 < i < |times| ==> !Expired(Item(items[key].data, times[i - 1] + ttl), times[i])
    ensures |Reads(items, key, times, ttl)| == |times|
    ensures forall i :: 0 <= i < |times| ==> Reads(items, key, times, ttl)[i] == Some(items[key].data)
    decreases |times|
  {
    if times != [] {
      var first := Lookup(items, key, true, times[0], ttl);
      assert first.items[key] == Item(items[key].data, times[0] + ttl);
      var rest := times[1..];
      assert forall i :: 0 < i < |rest| ==> !Expired(Item(items[key].data, rest[i - 1] + ttl), rest[i]) by {
        forall i | 0 < i < |rest| ensures !Expired(Item(items[key].data, rest[i - 1] + ttl), rest[i]) {
          assert rest[i] == times[i + 1] && rest[i - 1] == times[i];
        }
      }
      ReadsKeepItemAlive(first.items, key, rest, ttl);
    }
  }
}
