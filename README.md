# TTL cache model

A Dafny model of `ttlcache`, an in-memory map from string keys to items that
expire. Each item holds an opaque payload and an absolute expiry instant. The
cache has a default TTL. `Set` uses the default TTL and `SetWithTTL` takes one
explicitly. `Delete` removes a key. `Get(key, shouldTouch)` and `Read(key)`
(which is `Get(key, true)`) look a key up and may refresh it. `Count` reports
the map's size. A periodic sweep, `cleanup`, deletes every expired item.

The clock is an explicit parameter: every operation that reads the time takes
`now: int`. Instants and durations are integers counted in nanoseconds, the
unit of Go's `time.Duration`.

- `item.dfy`, module `Items`: the `Item<T>` datatype (payload type `T`
  replaces `interface{}`), `Item.Touched` (the item's `touch`), and the
  predicate `Expired`. `cache.go` does not show `expired`, so the expiry
  boundary is the model's assumption: an item is stale from its expiry
  instant onwards (`expiresAt <= now`). It is kept in `Expired` alone, and
  every lemma states expiry through `Expired`, so none of them depends on
  which side of the boundary the instant itself falls.
- `cache.dfy`, module `TtlCache`: one function per operation, giving the new
  map and the answer as a function of the old map (`AfterSetWithTtl`,
  `AfterDelete`, `Lookup`, `Swept`), plus the sweep-interval rule
  `CleanupInterval`. It also holds the class `Cache<T>`, with fields `ttl`
  and `items`, whose methods update `items` in place and are proved against
  those functions. `Cleanup` keeps the source's loop: it visits every key
  once, in an unspecified order, and deletes the expired ones.
- `properties.dfy`, module `CacheProperties`: lemmas that relate several
  operations.

`Get(key, false)` on a present, unexpired item falls through both branches of
the source's `if` and returns "not found" without touching the item. The model
keeps this behaviour exactly. `Lookup` states it, and
`GetWithoutTouchFindsNothing` proves that a non-touching `Get` never finds
anything.

## Model

| member | source | states |
|---|---|---|
| Items.Expired | cache.go:49 | an item is stale at `now` exactly when its expiry instant is not after `now` (the boundary the model assumes for `item.expired()`, also called at cache.go:75) |
| Items.Item.Touched | cache.go:53 | touching keeps the payload and makes the item expire exactly `ttl` after `now` |
| TtlCache.AfterSetWithTtl | cache.go:21-28 | the key now holds the new payload expiring at `now + ttl`, overwriting any earlier item; every other key keeps its item; the size grows by at most one |
| TtlCache.AfterDelete | cache.go:31-35 | the key is gone, every other item is unchanged, the map is unchanged when the key was absent, and the size drops by one exactly when the key was present |
| TtlCache.Lookup | cache.go:44-59 | a value is found iff the key is present, unexpired and the read touches; the value found is the stored payload; when nothing is found the map is unchanged; a found item's expiry becomes `now` plus the default TTL and no other key changes; the size never changes |
| TtlCache.Swept | cache.go:70-79 | the swept map keeps exactly the keys whose items are unexpired at `now`, each with its item unchanged |
| TtlCache.CleanupInterval | cache.go:83-86 | the sweep period is at least one second and at least the default TTL, and is one of the two |
| TtlCache.Cache.constructor | cache.go:99-106 | a new cache has the given default TTL and no items |
| TtlCache.Cache.Set | cache.go:16-18 | the new map is what `SetWithTTL` produces with the cache's default TTL |
| TtlCache.Cache.SetWithTTL | cache.go:21-28 | the new map is `AfterSetWithTtl` of the old one |
| TtlCache.Cache.Delete | cache.go:31-35 | the new map is `AfterDelete` of the old one |
| TtlCache.Cache.Read | cache.go:39-41 | the answer and the new map are those of a touching `Lookup` |
| TtlCache.Cache.Get | cache.go:44-59 | the answer and the new map are those of `Lookup` with the same `shouldTouch`, refreshing with the default TTL |
| TtlCache.Cache.Count | cache.go:63-68 | the count is the number of items held, expired but unswept ones included |
| TtlCache.Cache.Cleanup | cache.go:70-79 | after the loop over all keys the map is `Swept` of the old one |
| CacheProperties.ReadAfterSetWithTtl | cache.go:21-28 | a read at `later` of a key just stored at `now` with TTL `d` finds the new value iff `later < now + d`, whatever was stored before |
| CacheProperties.ReadAfterDelete | cache.go:31-35 | after a delete, no read of that key finds anything or changes the map |
| CacheProperties.GetWithoutTouchFindsNothing | cache.go:49-56 | a non-touching `Get` returns not-found and leaves the map unchanged, for every key, including present and unexpired ones |
| CacheProperties.RefreshUsesDefaultTtl | cache.go:52-53 | a successful touching read of an item stored with TTL `d` resets its expiry to the read instant plus the cache's default TTL, not plus `d` |
| CacheProperties.SweepNeverGrows | cache.go:74-78 | a sweep never increases the number of items, so `Count` never grows across it |
| CacheProperties.SweepIdempotent | cache.go:74-78 | a second sweep at the same instant changes nothing |
| CacheProperties.SweepInvisibleToReads | cache.go:48-49 | at any instant from a sweep's on, reads of the swept map answer exactly as reads of the unswept map |
| CacheProperties.ReadsKeepItemAlive | cache.go:52-55 | if the first read comes before expiry and each next read comes less than the default TTL after the previous one, every read finds the stored value |

## Left out

- The `sync.RWMutex` and its locking (cache.go:22-23 and the other lock calls). Each method is modelled as one atomic step, and concurrency is not modelled.
- The ticker goroutine in `startCleanupTimer` (cache.go:87-95), and the call to it from `NewCache`. Only the period it uses is modelled, as `CleanupInterval`. The sweep itself is the `Cleanup` method.
- The wall clock. The current instant is the parameter `now` and durations are plain integers.
- Overflow of instants and durations. `time.Time.Add` and `time.Duration` are 64-bit in the source; here they are unbounded integers.
- The `""` that `Get` assigns to `data` on a miss (cache.go:50) and the untyped `nil` it returns otherwise. A miss is `None` in the model, and the payload type is the parameter `T`.
- The `Item` type's own file, with its `touch` and `expired`, is not part of this model. `Touched` and `Expired` stand in for them as described above.
- Items are held by pointer in the source. No pointer to an item ever leaves the cache, so the model stores items by value, and the touch at cache.go:53 replaces the item in the map.
