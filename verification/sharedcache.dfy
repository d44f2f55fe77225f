/** The one process-wide cache that both cached handlers use: their key
    spaces are disjoint, and each key space only ever holds its own response
    shape, so the type assertion on a cache hit cannot fail. */
module SharedCache {
  import opened Time
  import opened Api
  import TtlCache
  import Geocoding = GoogleGeocoding
  import Autocomplete = AddressAutocomplete

  predicate HasPrefix(k: string, prefix: string) {
    |prefix| <= |k| && k[..|prefix|] == prefix
  }

  /** A geocoding key and an autocomplete key never collide: they differ in
      their first character. */
  lemma KeySpacesDisjoint(address: string, query: string)
    ensures Geocoding.CacheKey(address) != Autocomplete.CacheKey(query)
    ensures !HasPrefix(Geocoding.CacheKey(address), Autocomplete.KeyPrefix)
    ensures !HasPrefix(Autocomplete.CacheKey(query), Geocoding.KeyPrefix)
  {
    assert Geocoding.CacheKey(address)[0] == 'g';
    assert Autocomplete.CacheKey(query)[0] == 'a';
  }

  /** Every geocoding key holds a geocoding response and every autocomplete
      key an autocomplete response. */
  ghost predicate WellTyped(c: TtlCache.Cache<Payload>) {
    forall k :: k in c.items ==>
      && (HasPrefix(k, Geocoding.KeyPrefix) ==> c.items[k].value.GeocodingPayload?)
      && (HasPrefix(k, Autocomplete.KeyPrefix) ==> c.items[k].value.AutocompletePayload?)
  }

  lemma NewCacheWellTyped()
    ensures WellTyped(TtlCache.NewCache<Payload>())
  {
  }

  /** A geocoding request keeps the cache well typed and never panics on it. */
  lemma GeocodingKeepsWellTyped(c: TtlCache.Cache<Payload>, address: string, apiKey: string,
                                call: Geocoding.GeocodingCall, now: Int64, storedAt: Int64)
    requires WellTyped(c)
    ensures WellTyped(Geocoding.Handle(c, address, apiKey, call, now, storedAt).cache)
    ensures !Geocoding.Handle(c, address, apiKey, call, now, storedAt).reply.Panic?
  {
    if address != "" {
      var key := Geocoding.CacheKey(address);
      KeySpacesDisjoint(address, "");
      assert HasPrefix(key, Geocoding.KeyPrefix);
    }
  }

  /** An autocomplete request keeps the cache well typed and never panics on it. */
  lemma AutocompleteKeepsWellTyped(c: TtlCache.Cache<Payload>, query: string, sessionToken: string,
                                   generatedToken: string, apiKey: string, call: Autocomplete.AutocompleteCall,
                                   orders: Autocomplete.Orders, now: Int64, storedAt: Int64)
    requires Autocomplete.ValidOrders(orders)
    requires WellTyped(c)
    ensures WellTyped(Autocomplete.Handle(c, query, sessionToken, generatedToken, apiKey, call, orders, now, storedAt).cache)
    ensures !Autocomplete.Handle(c, query, sessionToken, generatedToken, apiKey, call, orders, now, storedAt).reply.Panic?
  {
    if query != "" {
      var key := Autocomplete.CacheKey(query);
      KeySpacesDisjoint("", query);
      assert HasPrefix(key, Autocomplete.KeyPrefix);
    }
  }

  /** The sweep, `Delete` and `Clear` only remove entries, so they keep the
      cache well typed. */
  lemma RemovalsKeepWellTyped(c: TtlCache.Cache<Payload>, key: string, now: Int64)
    requires WellTyped(c)
    ensures WellTyped(TtlCache.Sweep(c, now))
    ensures WellTyped(TtlCache.Delete(c, key))
    ensures WellTyped(TtlCache.Clear(c))
  {
  }
}
