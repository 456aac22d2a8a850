/**
 * What the cache promises, stated over the functions that describe the
 * bucket after each operation of `AmazonS3Cache`.
 */
module CacheProperties {
  import opened Wrappers
  import opened KeyCodec
  import opened EntryCodec
  import opened ObjectStore
  import opened Culling
  import opened Options
  import opened S3Cache

  /** Two cache keys share a bucket key exactly when their digests collide. */
  lemma {:induction false} ObjectKeyCollision(c: Config, k1: string, k2: string)
    ensures ObjectKey(c, k1) == ObjectKey(c, k2) <==> c.digest(k1) == c.digest(k2)
  {
    StorageKeyInjective(c.storageLocation, KeyToFile(c.digest, k1), KeyToFile(c.digest, k2));
    KeyToFileCollision(c.digest, k1, k2);
  }

  /**
   * Why the maximum is clamped: a listing never returns more than 1000
   * keys, so a larger maximum could never be reached, while the clamped
   * one is reached as soon as the prefix holds that many objects.
   */
  lemma {:induction false} ClampMakesCullReachable<V>(b: Bucket<V>, prefix: string, maxEntries: int)
    requires ValidBucket(b)
    ensures maxEntries > ListingCap ==> EntryCount(b, prefix) < maxEntries
    ensures |Matching(b.order, prefix)| >= ClampMaxEntries(maxEntries) ==>
              EntryCount(b, prefix) >= ClampMaxEntries(maxEntries)
  {
  }

  /**
   * The cull changes nothing with a zero maximum, below the maximum, or
   * when the second listing or the batch delete fails; a failing count
   * raises instead.
   */
  lemma {:induction false} CullNoOp<V>(c: Config, b: Bucket<V>, frequency: int, f: Faults)
    requires ValidBucket(b)
    requires c.maxEntries == 0 || f.count || f.list || f.deleteKeys || EntryCount(b, c.location) < c.maxEntries
    ensures AfterCull(c, b, frequency, f) == b
  {
  }

  /** Only a zero maximum switches culling off: a negative one culls on every write. */
  lemma {:induction false} NegativeMaximumAlwaysCulls<V>(c: Config, b: Bucket<V>, f: Faults)
    requires ValidBucket(b) && c.maxEntries < 0 && !f.count
    ensures CullFires(c, b, f)
  {
  }

  /**
   * A cull that reaches its batch delete removes the listed key at
   * position `i` exactly when `i` is a multiple of the frequency (every
   * listed key for frequency 0), and touches nothing else.
   */
  lemma {:induction false} CullRemovesDoomed<V>(c: Config, b: Bucket<V>, frequency: int, f: Faults)
    requires ValidBucket(b) && CullFires(c, b, f) && !f.list && !f.deleteKeys
    ensures ValidBucket(AfterCull(c, b, frequency, f))
    ensures forall i :: 0 <= i < |Listing(b, c.location)| ==>
              (Listing(b, c.location)[i] !in AfterCull(c, b, frequency, f).objects <==> frequency == 0 || i % frequency == 0)
    ensures forall k :: k in AfterCull(c, b, frequency, f).objects ==>
              k in b.objects && AfterCull(c, b, frequency, f).objects[k] == b.objects[k]
    ensures forall k :: k in b.objects && k !in Listing(b, c.location) ==> k in AfterCull(c, b, frequency, f).objects
  {
    var l := Listing(b, c.location);
    var a := AfterCull(c, b, frequency, f);
    assert a.objects == b.objects - ToSet(Doomed(l, frequency));
    forall i | 0 <= i < |l|
      ensures l[i] !in a.objects <==> frequency == 0 || i % frequency == 0
    {
      DoomedAt(l, frequency, i);
    }
    if frequency != 0 {
      EveryNthMembers(l, frequency);
    }
  }

  /**
   * How many objects a cull that reaches its batch delete leaves: one per
   * doomed key fewer, which is every listed key for frequency 0 and one
   * key in `frequency` (rounded up) otherwise; ten listed keys and
   * frequency 3 leave six.
   */
  lemma {:induction false} CullSurvivorCount<V>(c: Config, b: Bucket<V>, frequency: int, f: Faults)
    requires ValidBucket(b) && CullFires(c, b, f) && !f.list && !f.deleteKeys
    ensures |AfterCull(c, b, frequency, f).objects| == |b.objects| - |Doomed(Listing(b, c.location), frequency)|
    ensures frequency > 0 ==>
              |Doomed(Listing(b, c.location), frequency)| == (|Listing(b, c.location)| + frequency - 1) / frequency
    ensures frequency == 0 ==> |Doomed(Listing(b, c.location), frequency)| == |Listing(b, c.location)|
  {
    var l := Listing(b, c.location);
    var d := Doomed(l, frequency);
    DoomedSet(l, frequency);
    RemoveCount(b, ToSet(d));
    if frequency > 0 {
      EveryNthPositions(l, frequency);
    }
  }

  /** The doomed keys are listed keys, none of them twice. */
  lemma {:induction false} DoomedSet(l: seq<string>, frequency: int)
    requires Distinct(l)
    ensures |ToSet(Doomed(l, frequency))| == |Doomed(l, frequency)|
    ensures ToSet(Doomed(l, frequency)) <= ToSet(l)
  {
    if frequency != 0 {
      EveryNthDistinct(l, frequency);
      EveryNthMembers(l, frequency);
    }
    DistinctCard(Doomed(l, frequency));
  }

  /** Removing stored keys shrinks the bucket by exactly their number. */
  lemma {:induction false} RemoveCount<V>(b: Bucket<V>, s: set<string>)
    requires ValidBucket(b) && s <= b.objects.Keys
    ensures |RemoveObjects(b, s).objects| == |b.objects| - |s|
  {
    var keys := b.objects.Keys;
    assert keys == (keys - s) + s;
    assert RemoveObjects(b, s).objects.Keys == keys - s;
  }

  /**
   * `clear` at or above the maximum deletes every listed key, which is
   * every object under the prefix when there are at most 1000 of them.
   */
  lemma {:induction false} ClearRemovesListing<V>(c: Config, b: Bucket<V>, f: Faults)
    requires ValidBucket(b) && CullFires(c, b, f) && !f.list && !f.deleteKeys
    ensures AfterCull(c, b, 0, f).objects == b.objects - ToSet(Listing(b, c.location))
    ensures |Matching(b.order, c.location)| <= ListingCap ==>
              forall k :: k in AfterCull(c, b, 0, f).objects ==> !(c.location <= k)
  {
  }

  /** `clear` below the maximum returns early and deletes nothing. */
  lemma {:induction false} ClearBelowMaximumKeepsEverything<V>(c: Config, b: Bucket<V>, f: Faults)
    requires ValidBucket(b) && c.maxEntries > EntryCount(b, c.location)
    ensures AfterCull(c, b, 0, f) == b
  {
  }

  /**
   * `get` and `has_key` agree: `get` returns the stored value exactly when
   * `has_key` is true and the value decodes, and the default otherwise.
   */
  lemma {:induction false} ReadsAgree<V>(b: Bucket<V>, k: string, now: int, f: Faults, default: V)
    ensures Present(b, k, now, f) && LoadValue(b.objects[k]).Ok? ==>
              Lookup(b, k, now, f, default) == LoadValue(b.objects[k]).value
    ensures !Present(b, k, now, f) ==> Lookup(b, k, now, f, default) == default
    ensures Present(b, k, now, f) && LoadValue(b.objects[k]).Err? ==> Lookup(b, k, now, f, default) == default
  {
  }

  /**
   * A read deletes the object it read when, and only when, its expiry
   * decodes and lies in the past (`exp < now`), and that delete succeeds;
   * no other object is touched.
   */
  lemma {:induction false} ReadDeletesOnlyExpired<V>(b: Bucket<V>, k: string, now: int, f: Faults)
    requires ValidBucket(b)
    ensures !f.open && k in b.objects && Stale(b.objects[k], now) && !f.delete ==>
              AfterRead(b, k, now, f).objects == b.objects - {k}
    ensures !(!f.open && k in b.objects && Stale(b.objects[k], now) && !f.delete) ==> AfterRead(b, k, now, f) == b
    ensures k in b.objects && Live(b.objects[k], now) ==> AfterRead(b, k, now, f) == b
  {
  }

  /** An entry stamped exactly `now` is still live at `now`: expiry needs a strictly earlier stamp. */
  lemma {:induction false} ExpiryIsStrict<V>(value: V, now: int)
    ensures Live(DumpObject(value, Some(0), 0, now), now)
    ensures Stale(DumpObject(value, Some(0), 0, now), now + 1)
  {
  }

  /**
   * Round trip: after a `set` whose save succeeds, `get` returns the value
   * and `has_key` is true until the timeout has passed, and reading it
   * changes nothing.
   */
  lemma {:induction false} SetThenGet<V>(c: Config, b: Bucket<V>, key: string, value: V, timeout: Option<int>,
                      now: int, later: int, f: Faults, g: Faults, default: V)
    requires ValidBucket(b)
    requires !CullRaises(c, f) && !f.save && !g.open
    requires later <= now + EffectiveTimeout(timeout, c.defaultTimeout)
    ensures Present(AfterSet(c, b, ObjectKey(c, key), DumpObject(value, timeout, c.defaultTimeout, now), f),
                    ObjectKey(c, key), later, g)
    ensures Lookup(AfterSet(c, b, ObjectKey(c, key), DumpObject(value, timeout, c.defaultTimeout, now), f),
                   ObjectKey(c, key), later, g, default) == value
    ensures AfterRead(AfterSet(c, b, ObjectKey(c, key), DumpObject(value, timeout, c.defaultTimeout, now), f),
                      ObjectKey(c, key), later, g)
            == AfterSet(c, b, ObjectKey(c, key), DumpObject(value, timeout, c.defaultTimeout, now), f)
  {
    var k := ObjectKey(c, key);
    var blob := DumpObject(value, timeout, c.defaultTimeout, now);
    var s := AfterSet(c, b, k, blob, f);
    assert s.objects == AfterCull(c, b, c.cullFrequency, f).objects[k := blob];
    assert s.objects[k] == blob;
  }

  /**
   * After the timeout has passed, the same entry is a miss, and the read
   * deletes it unless that delete fails.
   */
  lemma {:induction false} SetThenGetExpired<V>(c: Config, b: Bucket<V>, key: string, value: V, timeout: Option<int>,
                             now: int, later: int, f: Faults, g: Faults, default: V)
    requires ValidBucket(b)
    requires !CullRaises(c, f) && !f.save && !g.open
    requires later > now + EffectiveTimeout(timeout, c.defaultTimeout)
    ensures !Present(AfterSet(c, b, ObjectKey(c, key), DumpObject(value, timeout, c.defaultTimeout, now), f),
                     ObjectKey(c, key), later, g)
    ensures Lookup(AfterSet(c, b, ObjectKey(c, key), DumpObject(value, timeout, c.defaultTimeout, now), f),
                   ObjectKey(c, key), later, g, default) == default
    ensures !g.delete ==>
              ObjectKey(c, key) !in AfterRead(AfterSet(c, b, ObjectKey(c, key), DumpObject(value, timeout, c.defaultTimeout, now), f),
                                              ObjectKey(c, key), later, g).objects
  {
    var k := ObjectKey(c, key);
    var blob := DumpObject(value, timeout, c.defaultTimeout, now);
    var s := AfterSet(c, b, k, blob, f);
    assert s.objects == AfterCull(c, b, c.cullFrequency, f).objects[k := blob];
    assert s.objects[k] == blob;
  }

  /**
   * `add` on a key `has_key` reports leaves the bucket exactly as it was;
   * on an expired entry not yet deleted, `has_key` is false, so `add`
   * writes.
   */
  lemma {:induction false} AddKeepsLiveEntry<V>(b: Bucket<V>, k: string, now: int, f: Faults)
    requires ValidBucket(b)
    ensures Present(b, k, now, f) ==> AfterRead(b, k, now, f) == b
    ensures k in b.objects && Stale(b.objects[k], now) ==> !Present(b, k, now, f)
  {
  }

  /**
   * `delete` removes the one object and nothing else; on a missing object,
   * or a second time, it changes nothing.
   */
  lemma {:induction false} DeleteIdempotent<V>(b: Bucket<V>, k: string, f: Faults, g: Faults)
    requires ValidBucket(b)
    ensures !f.delete ==> AfterDelete(b, k, f).objects == b.objects - {k}
    ensures k !in b.objects ==> AfterDelete(b, k, f) == b
    ensures !f.delete ==> AfterDelete(AfterDelete(b, k, f), k, g) == AfterDelete(b, k, f)
  {
    if !f.delete {
      RemoveAbsent(AfterDelete(b, k, f), k);
    }
  }

  /**
   * When every store call fails: `get` returns the default, `has_key` is
   * false, nothing in the bucket changes, and only the cull's entry count
   * raises, which happens whenever the maximum is nonzero.
   */
  lemma {:induction false} StoreOutage<V>(c: Config, b: Bucket<V>, k: string, blob: Blob<V>, now: int, frequency: int, default: V)
    requires ValidBucket(b)
    ensures !Present(b, k, now, Outage) && Lookup(b, k, now, Outage, default) == default
    ensures AfterRead(b, k, now, Outage) == b && AfterDelete(b, k, Outage) == b
    ensures AfterCull(c, b, frequency, Outage) == b && AfterSet(c, b, k, blob, Outage) == b
    ensures CullRaises(c, Outage) <==> c.maxEntries != 0
  {
  }

  /**
   * The listing prefix is the location as given, while the storage writes
   * under the stripped one.  With a leading '/', no object of the cache
   * starts with the prefix, so the cull neither counts nor deletes any.
   */
  lemma {:induction false} LeadingSlashHidesEntries<V>(c: Config, b: Bucket<V>, key: string)
    requires ValidBucket(b)
    requires |c.location| > 0 && c.location[0] == '/'
    requires c.storageLocation == "" || c.storageLocation[0] != '/'
    ensures ObjectKey(c, key) !in Listing(b, c.location)
  {
    var name := KeyToFile(c.digest, key);
    var k := ObjectKey(c, key);
    if |k| > 0 {
      if c.storageLocation == "" {
        assert k[0] == name[0];
        assert IsHexDigit(name[0]);
      } else {
        assert k[..|c.storageLocation|] == c.storageLocation;
        assert k[0] == c.storageLocation[0];
      }
      assert k[0] != '/';
    }
    assert !(c.location <= k);
  }
}
