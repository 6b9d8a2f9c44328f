/**
 * The full-hash cache gsb_fullhash: confirmed full hashes per list with the
 * time they were stored, fresh for 45 minutes.
 */
module Fullhash {

  /** 60 * 45 seconds, the age past which a cached full hash no longer counts. */
  const Ttl: int := 60 * 45

  /**
   * The key on which `REPLACE INTO gsb_fullhash` replaces a row. The table's
   * schema is not part of this model; (list_id, fullhash) is the assumed key.
   */
  datatype HashKey = HashKey(listId: int, hash: string)

  /** The rest of a gsb_fullhash row. */
  datatype HashRecord = HashRecord(addChunkNum: int, createTs: int)

  type Cache = map<HashKey, HashRecord>

  /**
   * fullhash_exists: `COUNT(*) ... WHERE list_id = id AND fullhash = hash
   * AND create_ts > now - 2700` is positive.
   */
  function Exists(cache: Cache, id: int, hash: string, now: int): (b: bool)
    ensures b ==> HashKey(id, hash) in cache
    ensures b <==> HashKey(id, hash) in cache && now - cache[HashKey(id, hash)].createTs < Ttl
  {
    var k := HashKey(id, hash);
    k in cache && cache[k].createTs > now - Ttl
  }

  /** fullhash_insert: `REPLACE INTO gsb_fullhash VALUES (id, chunk, hash, now)`. */
  function Replace(cache: Cache, id: int, addChunkNum: int, hash: string, now: int): (r: Cache)
    ensures r.Keys == cache.Keys + {HashKey(id, hash)}
    ensures r[HashKey(id, hash)] == HashRecord(addChunkNum, now)
    ensures forall k :: k in cache && k != HashKey(id, hash) ==> r[k] == cache[k]
  {
    cache[HashKey(id, hash) := HashRecord(addChunkNum, now)]
  }

  /** fullhash_delete_old: `DELETE FROM gsb_fullhash WHERE create_ts < now - 2700`. */
  function DeleteOld(cache: Cache, now: int): (r: Cache)
    ensures forall k :: k in r <==> k in cache && cache[k].createTs >= now - Ttl
    ensures forall k :: k in r ==> r[k] == cache[k]
  {
    map k | k in cache && cache[k].createTs >= now - Ttl :: cache[k]
  }

  /** add_delete's statement on gsb_fullhash: the rows of list `id` whose add chunk is in [min, max] go. */
  function DeleteAddRange(cache: Cache, id: int, min: int, max: int): (r: Cache)
    ensures forall k :: k in r <==> k in cache && !(k.listId == id && min <= cache[k].addChunkNum <= max)
    ensures forall k :: k in r ==> r[k] == cache[k]
  {
    map k | k in cache && !(k.listId == id && min <= cache[k].addChunkNum <= max) :: cache[k]
  }

  /** A hash stored at `now` is reported present at that same `now`. */
  lemma ExistsAfterReplace(cache: Cache, id: int, addChunkNum: int, hash: string, now: int)
    ensures Exists(Replace(cache, id, addChunkNum, hash, now), id, hash, now)
  {
  }

  /**
   * A hash stored at t0 is fresh through t0 + 2699 and stale from t0 + 2700 on;
   * a purge at t0 + 2700 still keeps it and a purge at t0 + 2701 removes it.
   */
  lemma FreshnessWindow(cache: Cache, id: int, addChunkNum: int, hash: string, t0: int, now: int)
    ensures var c := Replace(cache, id, addChunkNum, hash, t0);
            && (Exists(c, id, hash, now) <==> now <= t0 + 2699)
            && HashKey(id, hash) in DeleteOld(c, t0 + 2700)
            && HashKey(id, hash) !in DeleteOld(c, t0 + 2701)
  {
  }

  /**
   * The boundary record, stored exactly 2700 seconds before `now`, is neither
   * reported present nor deleted by a purge at `now`.
   */
  lemma BoundaryRecord(cache: Cache, id: int, hash: string, now: int)
    requires HashKey(id, hash) in cache && cache[HashKey(id, hash)].createTs == now - Ttl
    ensures !Exists(cache, id, hash, now)
    ensures HashKey(id, hash) in DeleteOld(cache, now)
  {
  }

  /**
   * Purging never changes what an existence check at the same or any later time
   * reports: the check already ignores every record the purge removes.
   */
  lemma DeleteOldUnobservable(cache: Cache, purgeTime: int, id: int, hash: string, now: int)
    requires purgeTime <= now
    ensures Exists(DeleteOld(cache, purgeTime), id, hash, now) == Exists(cache, id, hash, now)
  {
  }

  /** A purge is idempotent. */
  lemma DeleteOldIdempotent(cache: Cache, now: int)
    ensures DeleteOld(DeleteOld(cache, now), now) == DeleteOld(cache, now)
  {
  }
}
