/**
 * The cache engine, `AmazonS3Cache`: every public operation turns a cache
 * key into an object name, talks to the bucket, and swallows the store's
 * failures, except the entry count that `_cull` reads before it decides
 * whether to cull.
 *
 * The bucket is the one piece of state the operations change, so it is a
 * field of the class; the clock and the outcome of each store call are
 * parameters (`now`, `Faults`).  What each operation leaves behind is
 * stated by a function of the old bucket (`AfterRead`, `AfterSet`,
 * `AfterCull`, `AfterDelete`), and the properties of the cache are lemmas
 * about those functions.
 */
module S3Cache {
  import opened Wrappers
  import opened KeyCodec
  import opened EntryCodec
  import opened ObjectStore
  import opened Culling
  import opened Options

  /**
   * Which store calls fail during one cache operation.  No operation makes
   * the same kind of call twice, so this fixes the outcome of every call:
   * `open`, `save` and `delete` are the storage's file calls, `count` and
   * `list` the two `get_all_keys` listings of `_cull`, `deleteKeys` its
   * batch delete.
   */
  datatype Faults = Faults(open: bool, save: bool, delete: bool, count: bool, list: bool, deleteKeys: bool)

  /** Every store call fails. */
  const Outage := Faults(true, true, true, true, true, true)

  /** Errors that leave a method of the cache; only `_cull`'s count reaches a public caller. */
  datatype CacheError = StoreFailed(error: StoreError) | DecodeFailed(reason: DecodeError)

  /**
   * The settings fixed at construction: `_max_entries` after the clamp,
   * `_cull_frequency`, `default_timeout`, `_location` as given (the listing
   * prefix), the storage's own location (the prefix it writes names under)
   * and the digest behind `_key_to_file`.
   */
  datatype Config = Config(
    maxEntries: int,
    cullFrequency: int,
    defaultTimeout: int,
    location: string,
    storageLocation: string,
    digest: string -> seq<byte>)

  /** `__init__`: a maximum above the 1000-key listing cap is lowered to the cap. */
  function ClampMaxEntries(maxEntries: int): (r: int)
    ensures r <= ListingCap
    ensures r == maxEntries <==> maxEntries <= ListingCap
    ensures maxEntries > ListingCap ==> r == ListingCap
  {
    if maxEntries > ListingCap then ListingCap else maxEntries
  }

  /** The location the storage places names under: the options' `location` entry. */
  function StorageLocation(options: Dict): string {
    match Get(options, "location")
    case Some(PyStr(s)) => s
    case _ => ""
  }

  /** The bucket key of a cache key: `_key_to_file`, placed under the storage's location. */
  function ObjectKey(c: Config, key: string): string {
    StorageKey(c.storageLocation, KeyToFile(c.digest, key))
  }

  /** The blob's expiry decodes and has not passed. */
  predicate Live<V>(blob: Blob<V>, now: int) {
    LoadExpiry(blob).Ok? && !Expired(LoadExpiry(blob).value, now)
  }

  /** The blob's expiry decodes and has passed. */
  predicate Stale<V>(blob: Blob<V>, now: int) {
    LoadExpiry(blob).Ok? && Expired(LoadExpiry(blob).value, now)
  }

  /** What `has_key` answers for the object `k`. */
  predicate Present<V>(b: Bucket<V>, k: string, now: int, f: Faults) {
    !f.open && k in b.objects && Live(b.objects[k], now)
  }

  /** What `get` answers for the object `k`. */
  function Lookup<V>(b: Bucket<V>, k: string, now: int, f: Faults, default: V): V {
    if Present(b, k, now, f) && LoadValue(b.objects[k]).Ok? then LoadValue(b.objects[k]).value else default
  }

  /** The bucket after `get` or `has_key` read `k`: an expired entry is deleted, unless that delete fails. */
  function AfterRead<V>(b: Bucket<V>, k: string, now: int, f: Faults): Bucket<V>
    requires ValidBucket(b)
  {
    if !f.open && k in b.objects && Stale(b.objects[k], now) && !f.delete then RemoveObjects(b, {k}) else b
  }

  /** `_num_entries`: the length of one listing under `_location`. */
  function EntryCount<V>(b: Bucket<V>, prefix: string): nat
    requires ValidBucket(b)
  {
    |Listing(b, prefix)|
  }

  /** `_cull` raises when it reads the entry count and that listing fails. */
  predicate CullRaises(c: Config, f: Faults) {
    c.maxEntries != 0 && f.count
  }

  /** `_cull` goes past its two early returns and lists the keys to delete. */
  predicate CullFires<V>(c: Config, b: Bucket<V>, f: Faults)
    requires ValidBucket(b)
  {
    c.maxEntries != 0 && !f.count && EntryCount(b, c.location) >= c.maxEntries
  }

  /** The bucket after `_cull(frequency)`. */
  function AfterCull<V>(c: Config, b: Bucket<V>, frequency: int, f: Faults): Bucket<V>
    requires ValidBucket(b)
  {
    if CullFires(c, b, f) && !f.list && !f.deleteKeys
    then RemoveObjects(b, ToSet(Doomed(Listing(b, c.location), frequency)))
    else b
  }

  /** The bucket after `set` writes `blob` under `k`: cull first, then save. */
  function AfterSet<V>(c: Config, b: Bucket<V>, k: string, blob: Blob<V>, f: Faults): Bucket<V>
    requires ValidBucket(b)
  {
    if CullRaises(c, f) then b
    else
      var culled := AfterCull(c, b, c.cullFrequency, f);
      if f.save then culled else PutObject(culled, k, blob)
  }

  /** The bucket after `delete` of the object `k`. */
  function AfterDelete<V>(b: Bucket<V>, k: string, f: Faults): Bucket<V>
    requires ValidBucket(b)
  {
    if f.delete then b else RemoveObjects(b, {k})
  }

  class AmazonS3Cache<V> {
    const config: Config
    /** `_options` after normalisation: what the storage is built from. */
    const options: Dict
    var bucket: Bucket<V>

    ghost predicate Valid()
      reads this
    {
      && ValidBucket(bucket)
      && config.maxEntries <= ListingCap
      && (config.storageLocation == "" || config.storageLocation[0] != '/')
    }

    /**
     * `__init__`: clamps the maximum, normalises the options and takes the
     * listing prefix from them.  A location that is not a string makes the
     * source raise; `NormalizedOptions` returns that error.
     */
    constructor (maxEntries: int, cullFrequency: int, defaultTimeout: int, opts: Dict,
                 digest: string -> seq<byte>, store: Bucket<V>)
      requires ValidBucket(store)
      requires GivenLocation(opts).PyStr?
      ensures Valid()
      ensures config.maxEntries == ClampMaxEntries(maxEntries)
      ensures config.cullFrequency == cullFrequency && config.defaultTimeout == defaultTimeout
      ensures forall k :: config.digest(k) == digest(k)
      ensures NormalizedOptions(opts) == Ok(Normalized(options, config.location))
      ensures config.location == GivenLocation(opts).s
      ensures config.storageLocation == Strip(StorageLocation(options), '/')
      ensures bucket == store
    {
      var m := maxEntries;
      if m > ListingCap {
        m := ListingCap;
      }
      NormalizedConfiguration(opts);
      var normalized := NormalizeOptions(opts);
      var n := normalized.value;
      config := Config(m, cullFrequency, defaultTimeout, n.location, Strip(StorageLocation(n.options), '/'), digest);
      options := n.options;
      bucket := store;
    }

    /** `_delete(fname)`: deletes the named object; a failure propagates. */
    method DeleteFile(fname: string, fail: bool) returns (r: Result<(), StoreError>)
      requires Valid()
      modifies this`bucket
      ensures Valid()
      ensures r == if fail then Err(Unavailable) else Ok(())
      ensures bucket == if fail then old(bucket) else RemoveObjects(old(bucket), {StorageKey(config.storageLocation, fname)})
    {
      var deleted := StorageDelete(bucket, StorageKey(config.storageLocation, fname), fail);
      if deleted.Err? {
        return Err(deleted.error);
      }
      bucket := deleted.value;
      return Ok(());
    }

    /**
     * `_is_expired(fobj, fname)`: reads only the expiry, and deletes the
     * object when that time has passed.  Decode and delete errors propagate.
     */
    method IsExpired(blob: Blob<V>, fname: string, now: int, f: Faults) returns (r: Result<bool, CacheError>)
      requires Valid()
      modifies this`bucket
      ensures Valid()
      ensures LoadExpiry(blob).Err? ==> r == Err(DecodeFailed(LoadExpiry(blob).error)) && bucket == old(bucket)
      ensures Live(blob, now) ==> r == Ok(false) && bucket == old(bucket)
      ensures Stale(blob, now) && f.delete ==> r == Err(StoreFailed(Unavailable)) && bucket == old(bucket)
      ensures Stale(blob, now) && !f.delete ==>
                r == Ok(true) && bucket == RemoveObjects(old(bucket), {StorageKey(config.storageLocation, fname)})
    {
      var expiry := LoadExpiry(blob);
      if expiry.Err? {
        return Err(DecodeFailed(expiry.error));
      }
      if Expired(expiry.value, now) {
        var deleted := DeleteFile(fname, f.delete);
        if deleted.Err? {
          return Err(StoreFailed(deleted.error));
        }
        return Ok(true);
      }
      return Ok(false);
    }

    /** `get`: the stored value while it is live, `default` on any miss or error. */
    method Get(key: string, default: V, now: int, f: Faults) returns (r: V)
      requires Valid()
      modifies this`bucket
      ensures Valid()
      ensures r == Lookup(old(bucket), ObjectKey(config, key), now, f, default)
      ensures bucket == AfterRead(old(bucket), ObjectKey(config, key), now, f)
    {
      var fname := KeyToFile(config.digest, key);
      var file := StorageOpen(bucket, StorageKey(config.storageLocation, fname), f.open);
      if file.Err? {
        return default;
      }
      var expired := IsExpired(file.value, fname, now, f);
      if expired.Err? || expired.value {
        return default;
      }
      var value := LoadValue(file.value);
      if value.Err? {
        return default;
      }
      return value.value;
    }

    /** `has_key`: whether a live entry is stored; false on any error. */
    method HasKey(key: string, now: int, f: Faults) returns (r: bool)
      requires Valid()
      modifies this`bucket
      ensures Valid()
      ensures r == Present(old(bucket), ObjectKey(config, key), now, f)
      ensures bucket == AfterRead(old(bucket), ObjectKey(config, key), now, f)
    {
      var fname := KeyToFile(config.digest, key);
      var file := StorageOpen(bucket, StorageKey(config.storageLocation, fname), f.open);
      if file.Err? {
        return false;
      }
      var expired := IsExpired(file.value, fname, now, f);
      if expired.Err? {
        return false;
      }
      return !expired.value;
    }

    /** `_num_entries`: the number of keys one listing under `_location` returns. */
    method NumEntries(fail: bool) returns (r: Result<nat, StoreError>)
      requires Valid()
      ensures r.Ok? <==> !fail
      ensures r.Ok? ==> r.value == if |Matching(bucket.order, config.location)| <= ListingCap
                                   then |Matching(bucket.order, config.location)| else ListingCap
      ensures r.Ok? && |Matching(bucket.order, config.location)| <= ListingCap ==>
                r.value == |set k | k in bucket.objects && config.location <= k|
    {
      var keys := GetAllKeys(bucket, config.location, fail);
      if keys.Err? {
        return Err(keys.error);
      }
      ghost var l := keys.value;
      assert |Matching(bucket.order, config.location)| <= ListingCap ==>
               (set k | k in bucket.objects && config.location <= k) == ToSet(l);
      DistinctCard(l);
      return Ok(|keys.value|);
    }

    /**
     * `_cull(frequency)`: with a nonzero maximum, reads the entry count (an
     * error here propagates) and, once the count reaches the maximum, lists
     * the keys again and batch-deletes the doomed ones; failures of the
     * second listing and of the delete are swallowed.
     */
    method Cull(frequency: Option<int>, f: Faults) returns (r: Result<(), CacheError>)
      requires Valid()
      modifies this`bucket
      ensures Valid()
      ensures r.Err? <==> CullRaises(config, f)
      ensures bucket == AfterCull(config, old(bucket), if frequency.Some? then frequency.value else config.cullFrequency, f)
    {
      var freq := if frequency.Some? then frequency.value else config.cullFrequency;
      if config.maxEntries == 0 {
        return Ok(());
      }
      var count := NumEntries(f.count);
      if count.Err? {
        return Err(StoreFailed(count.error));
      }
      if count.value < config.maxEntries {
        return Ok(());
      }
      var keylist := GetAllKeys(bucket, config.location, f.list);
      if keylist.Err? {
        return Ok(());
      }
      var doomed := Doomed(keylist.value, freq);
      var deleted := DeleteKeys(bucket, doomed, f.deleteKeys);
      if deleted.Ok? {
        bucket := deleted.value;
      }
      return Ok(());
    }

    /** `set`: culls, then saves the dumped entry; a failed save is swallowed. */
    method Set(key: string, value: V, timeout: Option<int>, now: int, f: Faults) returns (r: Result<(), CacheError>)
      requires Valid()
      modifies this`bucket
      ensures Valid()
      ensures r.Err? <==> CullRaises(config, f)
      ensures bucket == AfterSet(config, old(bucket), ObjectKey(config, key),
                                 DumpObject(value, timeout, config.defaultTimeout, now), f)
    {
      var fname := KeyToFile(config.digest, key);
      var culled := Cull(None, f);
      if culled.Err? {
        return culled;
      }
      var content := DumpObject(value, timeout, config.defaultTimeout, now);
      var saved := StorageSave(bucket, StorageKey(config.storageLocation, fname), content, f.save);
      if saved.Ok? {
        bucket := saved.value;
      }
      return Ok(());
    }

    /** `add`: false when `has_key` finds a live entry, otherwise `set` and true. */
    method Add(key: string, value: V, timeout: Option<int>, now: int, f: Faults) returns (r: Result<bool, CacheError>)
      requires Valid()
      modifies this`bucket
      ensures Valid()
      ensures Present(old(bucket), ObjectKey(config, key), now, f) ==> r == Ok(false) && bucket == old(bucket)
      ensures !Present(old(bucket), ObjectKey(config, key), now, f) ==>
                (r.Err? <==> CullRaises(config, f)) && (r.Ok? ==> r.value) &&
                bucket == AfterSet(config, AfterRead(old(bucket), ObjectKey(config, key), now, f), ObjectKey(config, key),
                                   DumpObject(value, timeout, config.defaultTimeout, now), f)
    {
      var present := HasKey(key, now, f);
      if present {
        return Ok(false);
      }
      var stored := Set(key, value, timeout, now, f);
      if stored.Err? {
        return Err(stored.error);
      }
      return Ok(true);
    }

    /** `delete`: deletes the entry's object; a failure is swallowed. */
    method Delete(key: string, f: Faults)
      requires Valid()
      modifies this`bucket
      ensures Valid()
      ensures bucket == AfterDelete(old(bucket), ObjectKey(config, key), f)
    {
      var deleted := DeleteFile(KeyToFile(config.digest, key), f.delete);
    }

    /** `clear`: `_cull(0)`. */
    method Clear(f: Faults) returns (r: Result<(), CacheError>)
      requires Valid()
      modifies this`bucket
      ensures Valid()
      ensures r.Err? <==> CullRaises(config, f)
      ensures bucket == AfterCull(config, old(bucket), 0, f)
    {
      r := Cull(Some(0), f);
    }
  }
}
