/**
 * The expiring byte cache (internal/pokecache/pokecache.go): a map from string
 * keys to time-stamped byte payloads, and a reap pass that deletes the entries
 * whose age at the tick time exceeds the cache's interval.
 *
 * Time is explicit: the caller supplies the current time to `Add` and the tick
 * time to `ReapPass`. Times and durations are integers counting nanoseconds.
 */
module PokeCache {

  newtype Byte = x: int | 0 <= x < 256
  type Bytes = seq<Byte>

  type Time = int
  type Duration = int

  const Second: Duration := 1_000_000_000

  /** A cached payload and the time it was added. */
  datatype Entry = Entry(createdAt: Time, val: Bytes)

  /** An entry is expired at tick `t` when its age is strictly greater than `interval`. */
  predicate Expired(e: Entry, t: Time, interval: Duration) {
    t - e.createdAt > interval
  }

  /** The map a reap pass at tick `t` leaves behind: the entries that have not expired. */
  function Reaped(m: map<string, Entry>, t: Time, interval: Duration): map<string, Entry> {
    map k | k in m && !Expired(m[k], t, interval) :: m[k]
  }

  class Cache {
    var cache: map<string, Entry>
    /** The reaper's period and maximum age, fixed at construction. */
    const interval: Duration

    /** NewCache: an empty map. A non-positive interval makes the reaper's ticker panic, so it is excluded. */
    constructor (interval: Duration)
      requires interval > 0
      ensures this.interval == interval
      ensures cache == map[]
    {
      this.interval := interval;
      cache := map[];
    }

    /** Inserts or overwrites the entry for `key`, stamped with `now`; every other key is untouched. */
    method Add(key: string, val: Bytes, now: Time)
      modifies this
      ensures cache == old(cache)[key := Entry(now, val)]
      ensures key in cache && cache[key].val == val && cache[key].createdAt == now
      ensures forall k :: k != key ==> (k in cache <==> k in old(cache))
      ensures forall k :: k != key && k in cache ==> cache[k] == old(cache)[k]
    {
      var ce := Entry(now, val);
      cache := cache[key := ce];
    }

    /** Looks `key` up without changing anything: its payload and true on a hit, an empty payload and false on a miss. */
    method Get(key: string) returns (val: Bytes, ok: bool)
      ensures ok <==> key in cache
      ensures ok ==> val == cache[key].val
      ensures !ok ==> val == []
    {
      if key !in cache {
        return [], false;
      }
      var ce := cache[key];
      return ce.val, true;
    }

    /** One tick of the reaper: scans every key and deletes the entries whose age at `t` exceeds `interval`. */
    method ReapPass(t: Time)
      modifies this
      ensures cache == Reaped(old(cache), t, interval)
      ensures cache.Keys <= old(cache).Keys
      ensures forall k :: k in cache ==> !Expired(cache[k], t, interval)
      ensures forall k :: k in old(cache) && !Expired(old(cache)[k], t, interval) ==>
                k in cache && cache[k] == old(cache)[k]
    {
      var pending := cache.Keys;
      while pending != {}
        invariant pending <= old(cache).Keys
        invariant cache == map k | k in old(cache) && (k in pending || !Expired(old(cache)[k], t, interval)) :: old(cache)[k]
        decreases pending
      {
        var key :| key in pending;
        var ce := cache[key];
        var age := t - ce.createdAt;
        if age > interval {
          cache := cache - {key};
        }
        pending := pending - {key};
      }
    }
  }

  /** Reaping twice at the same tick removes nothing more than reaping once. */
  lemma ReapedIdempotent(m: map<string, Entry>, t: Time, interval: Duration)
    ensures Reaped(Reaped(m, t, interval), t, interval) == Reaped(m, t, interval)
  {
    var once := Reaped(m, t, interval);
    assert forall k :: k in once ==> !Expired(once[k], t, interval);
  }

  /** A reap at a later tick subsumes an earlier one: reaping at t1 and then at t2 equals reaping at t2 alone. */
  lemma ReapedLaterSubsumes(m: map<string, Entry>, t1: Time, t2: Time, interval: Duration)
    requires t1 <= t2
    ensures Reaped(Reaped(m, t1, interval), t2, interval) == Reaped(m, t2, interval)
    ensures Reaped(m, t2, interval).Keys <= Reaped(m, t1, interval).Keys
  {
    var early := Reaped(m, t1, interval);
    assert forall k :: k in m && !Expired(m[k], t2, interval) ==> k in early && early[k] == m[k];
  }

  /** An entry added no longer than `interval` before the tick survives the reap, and the rest is reaped as before. */
  lemma ReapedKeepsFreshAdd(m: map<string, Entry>, key: string, e: Entry, t: Time, interval: Duration)
    requires t - e.createdAt <= interval
    ensures Reaped(m[key := e], t, interval) == Reaped(m, t, interval)[key := e]
  {
    var lhs := Reaped(m[key := e], t, interval);
    var rhs := Reaped(m, t, interval)[key := e];
    assert lhs.Keys == rhs.Keys;
    assert forall k :: k in lhs ==> lhs[k] == rhs[k];
  }

  /** A fresh cache misses on every key. */
  method NewCacheMisses(interval: Duration, key: string) returns (val: Bytes, ok: bool)
    requires interval > 0
    ensures val == [] && !ok
  {
    var c := new Cache(interval);
    val, ok := c.Get(key);
  }

  /** On any cache, Get immediately after Add returns the added payload. */
  method GetAfterAdd(c: Cache, key: string, val: Bytes, now: Time) returns (got: Bytes, ok: bool)
    modifies c
    ensures ok && got == val
  {
    c.Add(key, val, now);
    got, ok := c.Get(key);
  }

  /** On any cache, of two Adds on the same key the second one wins; a different key keeps its own payload. */
  method LastWriteWins(c: Cache, key: string, other: string, v0: Bytes, v1: Bytes, v2: Bytes, t0: Time, t1: Time, t2: Time)
    returns (got: Bytes, ok: bool, gotOther: Bytes, okOther: bool)
    modifies c
    requires other != key
    ensures ok && got == v2
    ensures okOther && gotOther == v0
  {
    c.Add(other, v0, t0);
    c.Add(key, v1, t1);
    c.Add(key, v2, t2);
    got, ok := c.Get(key);
    gotOther, okOther := c.Get(other);
  }

  /**
   * The expiry scenario: an entry added at `added` is found at once, survives a tick
   * at which its age is at most the interval (exactly the interval included), and is
   * gone after a tick at which its age exceeds the interval.
   */
  method ReapLoopScenario(interval: Duration, key: string, val: Bytes, added: Time, tick1: Time, tick2: Time)
    returns (okBefore: bool, okBetween: bool, okAfter: bool)
    requires interval > 0
    requires tick1 - added <= interval < tick2 - added
    ensures okBefore && okBetween && !okAfter
  {
    var c := new Cache(interval);
    c.Add(key, val, added);
    var got;
    got, okBefore := c.Get(key);
    c.ReapPass(tick1);
    got, okBetween := c.Get(key);
    c.ReapPass(tick2);
    got, okAfter := c.Get(key);
  }
}
