/** The cache of internal/adapters/redis/cache.go: a map from keys to values with an expiry. */
module RedisCache {

  /** `storedAt` is the time of the write that made the entry; the code never reads it. */
  datatype Entry = Entry(value: string, expiresAt: int, storedAt: int)

  type Store = map<string, Entry>

  /** A missing or expired key reads as the empty string. */
  function Read(store: Store, key: string, now: int): string {
    if key in store && now < store[key].expiresAt then store[key].value else ""
  }

  function Written(store: Store, key: string, value: string, ttl: int, now: int): Store {
    store[key := Entry(value, now + ttl, now)]
  }

  class Cache {
    const defaultTtl: int
    var store: Store

    constructor (defaultTtl: int)
      ensures store == map[]
      ensures this.defaultTtl == if defaultTtl <= 0 then 900000 else defaultTtl
    {
      this.defaultTtl := if defaultTtl <= 0 then 900000 else defaultTtl;
      store := map[];
    }

    /** A failing server reads as an error, which the caller takes for a miss. */
    method Get(key: string, now: int, works: bool) returns (value: string, ok: bool)
      ensures ok == works && value == if works then Read(store, key, now) else ""
    {
      if !works {
        return "", false;
      }
      if key in store && now < store[key].expiresAt {
        return store[key].value, true;
      }
      return "", true;
    }

    method Set(key: string, value: string, ttl: int, now: int, works: bool) returns (ok: bool)
      modifies this
      ensures ok == works
      ensures store == if works then Written(old(store), key, value, if ttl <= 0 then defaultTtl else ttl, now)
                       else old(store)
    {
      var effective := ttl;
      if effective <= 0 {
        effective := defaultTtl;
      }
      if works {
        store := store[key := Entry(value, now + effective, now)];
      }
      ok := works;
    }

    method Delete(key: string, works: bool) returns (ok: bool)
      modifies this
      ensures ok == works && store == if works then old(store) - {key} else old(store)
    {
      if works {
        store := store - {key};
      }
      ok := works;
    }
  }

  /** What is written is read back, under its key only, until it expires. */
  lemma ReadAfterWrite(store: Store, key: string, value: string, ttl: int, now: int, other: string, later: int)
    ensures Read(Written(store, key, value, ttl, now), other, later) ==
            if other == key then (if later < now + ttl then value else "") else Read(store, other, later)
  {
  }
}
