/** The cache's records: a timestamped entry with its expiry test, and the update sent between nodes. */
module CacheModel {
  import opened VectorClocks

  /**
   * A value with its insertion time in milliseconds and the clock it was written under.
   * The record is immutable: nothing here changes a component.
   */
  datatype CacheEntry = CacheEntry(value: string, timestamp: int, vectorClock: VectorClock?)
  {
    /** Whether the entry is older than the TTL at time `now`, which stands for the wall clock. */
    predicate IsExpired(now: int, ttlMillis: int) {
      now - timestamp > ttlMillis
    }
  }

  /**
   * The update a node sends to its peers. Its clock is ignored by the JSON mapping and never
   * set by the cache, so every update the cache builds or receives has a null clock.
   */
  datatype CacheUpdate = CacheUpdate(key: string, value: string, vectorClock: VectorClock?)

  /** Expired exactly when the current time is past the insertion time plus the TTL. */
  lemma ExpiredIffPastDeadline(entry: CacheEntry, now: int, ttlMillis: int)
    ensures entry.IsExpired(now, ttlMillis) <==> now > entry.timestamp + ttlMillis
  {
  }

  /** The comparison is strict: at exactly the deadline the entry is still live. */
  lemma NotExpiredAtDeadline(entry: CacheEntry, ttlMillis: int)
    ensures !entry.IsExpired(entry.timestamp + ttlMillis, ttlMillis)
  {
  }

  /** Once expired, an entry stays expired as time goes on. */
  lemma ExpiryMonotoneInTime(entry: CacheEntry, now: int, later: int, ttlMillis: int)
    requires now <= later
    requires entry.IsExpired(now, ttlMillis)
    ensures entry.IsExpired(later, ttlMillis)
  {
  }

  /** An entry expired under some TTL is expired under every shorter TTL. */
  lemma ExpiryAntitoneInTtl(entry: CacheEntry, now: int, ttlMillis: int, shorter: int)
    requires shorter <= ttlMillis
    requires entry.IsExpired(now, ttlMillis)
    ensures entry.IsExpired(now, shorter)
  {
  }

  /** With a non-negative TTL, an entry checked no later than its insertion time is live. */
  lemma NotExpiredBeforeInsertion(entry: CacheEntry, now: int, ttlMillis: int)
    requires 0 <= ttlMillis
    requires now <= entry.timestamp
    ensures !entry.IsExpired(now, ttlMillis)
  {
  }
}
