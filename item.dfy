/**
 An entry of the TTL cache: an opaque payload and the instant at which it
 stops being visible. Time is an integer count of nanoseconds (the unit of
 Go's time.Duration); the clock is not modelled, every operation that needs
 the current instant receives it as `now`.
 */
module Items {

  /** One cached value and its absolute expiry instant. */
  datatype Item<T> = Item(data: T, expiresAt: int) {

    /** `touch(ttl)`: the same payload, now living until `now + ttl`. */
    function Touched(now: int, ttl: int): (touched: Item<T>)
      ensures touched.data == data
      ensures touched.expiresAt - now == ttl
    {
      this.(expiresAt := now + ttl)
    }
  }

  /**
   `expired()`: whether the item is stale at instant `now`. The boundary
   (an item is already stale AT its expiry instant) is decided here and
   nowhere else.
   */
  predicate Expired<T>(item: Item<T>, now: int)
  {
    item.expiresAt <= now
  }
}
