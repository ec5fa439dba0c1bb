/** The records shared by the cache backend, its eviction policy and its manager (cache/interface.go). */
module CacheTypes {

  /** One cache entry's bookkeeping record. Times and durations are integers in one fixed unit. */
  datatype CacheMetadata = CacheMetadata(key: string, size: int, createdAt: int, accessedAt: int, ttl: int)

  /** Something with a positive lifetime has outlived it. */
  predicate Outlived(createdAt: int, ttl: int, now: int) {
    ttl > 0 && now - createdAt > ttl
  }

  predicate Expired(m: CacheMetadata, now: int) {
    Outlived(m.createdAt, m.ttl, now)
  }
}
