/** Blobs on disk with a metadata cache in front of them
    (crates/quill-storage/src/local.rs, crates/quill-storage/src/cache.rs).

    SHA-256 is a parameter: any function from bytes to digests. */
module BlobStore {

  import opened Base
  import opened Digests

  type Hash = Bytes -> Digest

  type BlobKey = (Repo, Digest)

  /** The cached path is the one the key determines, so it is not repeated. */
  datatype BlobMeta = BlobMeta(size: nat, cachedAt: nat)

  datatype Store = Store(blobs: map<BlobKey, Bytes>, meta: map<BlobKey, BlobMeta>)

  datatype StoreError = NotFound | DigestMismatch | Io

  function Elapsed(now: nat, since: nat): nat {
    if since <= now then now - since else 0
  }

  /** `BlobMetaCache::get` */
  function CacheGet(meta: map<BlobKey, BlobMeta>, k: BlobKey, now: nat, ttl: nat): Option<BlobMeta> {
    if k in meta && Elapsed(now, meta[k].cachedAt) < ttl then Some(meta[k]) else None
  }

  /** An uncached `stat`. */
  function Stat(blobs: map<BlobKey, Bytes>, k: BlobKey): Option<nat> {
    if k in blobs then Some(|blobs[k]|) else None
  }

  /** `LocalStorage::blob_meta` */
  function Lookup(s: Store, k: BlobKey, now: nat, ttl: nat): (Store, Option<BlobMeta>) {
    var hit := CacheGet(s.meta, k, now, ttl);
    if hit.Some? then (s, hit)
    else if k in s.blobs then
      var m := BlobMeta(|s.blobs[k]|, now);
      (s.(meta := s.meta[k := m]), Some(m))
    else (s, None)
  }

  /** `LocalStorage::put_blob_buffered`; `ioOk` says whether the writes and the
      rename went through. */
  function Put(hash: Hash, s: Store, k: BlobKey, bytes: Bytes, now: nat, ioOk: bool): (Store, Option<StoreError>) {
    if hash(bytes) != k.1 then (s, Some(DigestMismatch))
    else if !ioOk then (s, Some(Io))
    else (Store(s.blobs[k := bytes], s.meta[k := BlobMeta(|bytes|, now)]), None)
  }

  /** `LocalStorage::delete_blob` */
  function Delete(s: Store, k: BlobKey, ioOk: bool): (Store, Option<StoreError>) {
    if k !in s.blobs then (s.(meta := s.meta - {k}), Some(NotFound))
    else if !ioOk then (s, Some(Io))
    else (Store(s.blobs - {k}, s.meta - {k}), None)
  }

  /** Every blob hashes to the digest in its path. */
  ghost predicate Intact(hash: Hash, blobs: map<BlobKey, Bytes>) {
    forall k :: k in blobs ==> hash(blobs[k]) == k.1
  }

  class LocalStorage {
    const hash: Hash
    const ttl: nat
    var store: Store

    constructor (hash: Hash, ttl: nat, blobs: map<BlobKey, Bytes>)
      ensures this.hash == hash && this.ttl == ttl && store == Store(blobs, map[])
    {
      this.hash := hash;
      this.ttl := ttl;
      store := Store(blobs, map[]);
    }

    method GetMeta(k: BlobKey, now: nat) returns (m: Option<BlobMeta>)
      modifies this
      ensures (store, m) == Lookup(old(store), k, now, ttl)
      ensures store.blobs == old(store.blobs)
    {
      var hit := CacheGet(store.meta, k, now, ttl);
      if hit.Some? {
        return hit;
      }
      var size := Stat(store.blobs, k);
      if size.None? {
        return None;
      }
      var stat := BlobMeta(size.value, now);
      store := store.(meta := store.meta[k := stat]);
      m := Some(stat);
    }

    /** Publishes nothing unless the bytes hash to the expected digest. */
    method PutBlobBuffered(k: BlobKey, bytes: Bytes, now: nat, ioOk: bool) returns (e: Option<StoreError>)
      modifies this
      ensures (store, e) == Put(hash, old(store), k, bytes, now, ioOk)
      ensures Intact(hash, old(store.blobs)) ==> Intact(hash, store.blobs)
    {
      if hash(bytes) != k.1 {
        return Some(DigestMismatch);
      }
      if !ioOk {
        return Some(Io);
      }
      store := store.(blobs := store.blobs[k := bytes]);
      store := store.(meta := store.meta[k := BlobMeta(|bytes|, now)]);
      e := None;
    }

    method DeleteBlob(k: BlobKey, ioOk: bool) returns (e: Option<StoreError>)
      modifies this
      ensures (store, e) == Delete(old(store), k, ioOk)
    {
      if k !in store.blobs {
        store := store.(meta := store.meta - {k});
        return Some(NotFound);
      }
      if !ioOk {
        return Some(Io);
      }
      store := store.(blobs := store.blobs - {k});
      store := store.(meta := store.meta - {k});
      e := None;
    }

    /** `read_blob_to_bytes`: reads the whole file, whatever size was cached. */
    method ReadBlob(k: BlobKey) returns (bytes: Option<Bytes>)
      ensures bytes.Some? <==> k in store.blobs
      ensures bytes.Some? ==> bytes.value == store.blobs[k]
    {
      bytes := if k in store.blobs then Some(store.blobs[k]) else None;
    }
  }

}
