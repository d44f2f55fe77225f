/** The in-memory TTL cache: a map from string keys to a value and its absolute
    expiration instant. The clock reading `time.Now().UnixNano()` is the
    parameter `now`; each operation is one atomic step on an immutable state. */
module TtlCache {
  import opened Wrappers
  import opened Time

  /** `cacheItem`: a value and its expiration instant in nanoseconds. An
      expiration of zero (or below) never expires. */
  datatype Item<V> = Item(value: V, expiration: Int64)

  /** `Cache`: the store behind the lock. */
  datatype Cache<V> = Cache(items: map<string, Item<V>>)

  /** The expiry test that both `Get` and the sweep apply. The comparison with
      `now` is strict. */
  predicate Expired<V>(item: Item<V>, now: Int64) {
    item.expiration > 0 && item.expiration < now
  }

  /** `NewCache`: an empty store; every lookup misses. */
  function NewCache<V>(): (c: Cache<V>)
    ensures forall key, now :: Get(c, key, now) == None
  {
    Cache(map[])
  }

  /** `Set`: stores `value` under `key`, replacing any earlier entry as a whole.
      A positive `duration` expires at `now + duration` (as an `int64`); any
      other duration never expires. */
  function Set<V>(c: Cache<V>, key: string, value: V, duration: Int64, now: Int64): (r: Cache<V>)
    ensures key in r.items && r.items[key].value == value
    ensures duration > 0 ==> r.items[key].expiration == Wrap64(now + duration)
    ensures duration <= 0 ==> r.items[key].expiration == 0
    ensures forall k :: k != key ==> (k in r.items <==> k in c.items)
    ensures forall k :: k != key && k in c.items ==> r.items[k] == c.items[k]
    ensures Get(r, key, now) == Some(value)
  {
    var expiration := if duration > 0 then Wrap64(now + duration) else 0;
    assert expiration <= 0 || now <= expiration by {
      if duration > 0 && now + duration > MaxInt64 {
        assert now > 0;
      }
    }
    Cache(c.items[key := Item(value, expiration)])
  }

  /** `Get`: the value stored under `key`, unless there is none or it has
      expired. An entry whose expiration equals `now` is still returned. */
  function Get<V>(c: Cache<V>, key: string, now: Int64): (r: Option<V>)
    ensures r.Some? <==>
      key in c.items && (c.items[key].expiration <= 0 || now <= c.items[key].expiration)
    ensures r.Some? ==> r.value == c.items[key].value
  {
    if key !in c.items then None
    else if Expired(c.items[key], now) then None
    else Some(c.items[key].value)
  }

  /** `Delete`: removes the entry for `key`, if any. */
  function Delete<V>(c: Cache<V>, key: string): (r: Cache<V>)
    ensures key !in r.items
    ensures forall k :: k != key ==> (k in r.items <==> k in c.items)
    ensures forall k :: k in r.items ==> r.items[k] == c.items[k]
    ensures key !in c.items ==> r == c
  {
    Cache(c.items - {key})
  }

  /** `Clear`: drops every entry. */
  function Clear<V>(c: Cache<V>): (r: Cache<V>)
    ensures forall key, now :: Get(r, key, now) == None
  {
    Cache(map[])
  }

  /** One pass of `cleanupExpiredItems` at instant `now`: exactly the entries
      with a positive expiration before `now` are removed. */
  function Sweep<V>(c: Cache<V>, now: Int64): (r: Cache<V>)
    ensures forall k :: k in r.items <==> k in c.items && !(0 < c.items[k].expiration < now)
    ensures forall k :: k in r.items ==> r.items[k] == c.items[k]
  {
    Cache(map k | k in c.items && !Expired(c.items[k], now) :: c.items[k])
  }

  /** The sweep as the source writes it: a loop over the keys that deletes
      each expired entry in place. */
  method SweepExpired<V>(c: Cache<V>, now: Int64) returns (r: Cache<V>)
    ensures r == Sweep(c, now)
  {
    var items := c.items;
    var pending := c.items.Keys;
    while pending != {}
      invariant pending <= c.items.Keys
      invariant forall k :: k in items <==> k in c.items && (k in pending || !Expired(c.items[k], now))
      invariant forall k :: k in items ==> items[k] == c.items[k]
      decreases pending
    {
      var key :| key in pending;
      if Expired(items[key], now) {
        items := items - {key};
      }
      pending := pending - {key};
    }
    r := Cache(items);
  }

  /** What a `Get` at instant `t` observes, as a map. */
  ghost function View<V>(c: Cache<V>, t: Int64): map<string, V> {
    map k | k in c.items && Get(c, k, t).Some? :: c.items[k].value
  }

  /** When `now + duration` is positive and stays within `int64`, the entry is
      visible up to and including that instant and no longer; when the stored
      expiration is not positive (a duration of zero or below, a clock before
      1970, or a sum that wraps around) it is visible at every instant. */
  lemma SetExpiry<V>(c: Cache<V>, key: string, value: V, duration: Int64, now: Int64, t: Int64)
    ensures duration <= 0 ==> Get(Set(c, key, value, duration, now), key, t) == Some(value)
    ensures 0 < now + duration <= MaxInt64 && duration > 0 ==>
      (Get(Set(c, key, value, duration, now), key, t) == Some(value) <==> t <= now + duration)
    ensures duration > 0 && now + duration > MaxInt64 ==>
      Get(Set(c, key, value, duration, now), key, t) == Some(value)
    ensures duration > 0 && now + duration <= 0 ==>
      Get(Set(c, key, value, duration, now), key, t) == Some(value)
  {
  }

  /** `Set` does not disturb what any other key observes. */
  lemma SetOtherKey<V>(c: Cache<V>, key: string, value: V, duration: Int64, now: Int64, other: string, t: Int64)
    requires other != key
    ensures Get(Set(c, key, value, duration, now), other, t) == Get(c, other, t)
  {
  }

  /** A second `Set` on the same key replaces the first one entirely: nothing
      of the earlier value or expiration survives. */
  lemma SetOverwrites<V>(c: Cache<V>, key: string, v1: V, d1: Int64, n1: Int64, v2: V, d2: Int64, n2: Int64)
    ensures Set(Set(c, key, v1, d1, n1), key, v2, d2, n2) == Set(c, key, v2, d2, n2)
  {
  }

  /** After `Delete`, the key misses at every instant and other keys observe
      what they did before. */
  lemma DeleteThenGet<V>(c: Cache<V>, key: string, other: string, t: Int64)
    ensures Get(Delete(c, key), key, t) == None
    ensures other != key ==> Get(Delete(c, key), other, t) == Get(c, other, t)
  {
  }

  /** Once a `Get` misses an entry because it expired, it misses it at every
      later instant: expiry never reverses. */
  lemma ExpiredStaysExpired<V>(c: Cache<V>, key: string, t: Int64, t': Int64)
    requires t <= t'
    requires Get(c, key, t) == None
    ensures Get(c, key, t') == None
  {
  }

  /** A sweep at instant `s` changes nothing that a `Get` at `s` or later
      observes: it only reclaims entries that are already invisible. */
  lemma SweepPreservesGet<V>(c: Cache<V>, s: Int64, key: string, t: Int64)
    requires s <= t
    ensures Get(Sweep(c, s), key, t) == Get(c, key, t)
  {
  }

  /** The same fact on whole observations. */
  lemma SweepPreservesView<V>(c: Cache<V>, s: Int64, t: Int64)
    requires s <= t
    ensures View(Sweep(c, s), t) == View(c, t)
  {
    forall k | k in c.items
      ensures k in View(Sweep(c, s), t) <==> k in View(c, t)
    {
      SweepPreservesGet(c, s, k, t);
    }
  }

  /** Every entry a sweep removes is one a `Get` at that instant already missed. */
  lemma SweepRemovesOnlyMisses<V>(c: Cache<V>, s: Int64, key: string)
    requires key in c.items && key !in Sweep(c, s).items
    ensures Get(c, key, s) == None
  {
  }

  /** A sweep is idempotent, and a later sweep subsumes an earlier one. */
  lemma SweepSubsumes<V>(c: Cache<V>, s1: Int64, s2: Int64)
    requires s1 <= s2
    ensures Sweep(Sweep(c, s1), s2) == Sweep(c, s2)
    ensures Sweep(Sweep(c, s2), s2) == Sweep(c, s2)
  {
  }

  /** The bound `s <= t` matters: an entry expiring between `t` and `s` is
      visible at `t` before the sweep and gone after it. */
  lemma SweepChangesEarlierReads()
    ensures var c := Set(NewCache<int>(), "k", 7, 5, 0);
            Get(c, "k", 5) == Some(7) && Get(Sweep(c, 10), "k", 5) == None
  {
  }

  /** Storing an answer for a day, as both cached handlers do: an immediate
      read hits, a read 25 hours later misses even though no sweep ran. */
  lemma DayLongEntry<V>(c: Cache<V>, key: string, value: V, now: Int64)
    requires 0 <= now <= MaxInt64 - 25 * Hour
    ensures Get(Set(c, key, value, 24 * Hour, now), key, now) == Some(value)
    ensures Get(Set(c, key, value, 24 * Hour, now), key, now + 25 * Hour) == None
  {
  }
}
