/**
 * The object store behind the cache: the S3 bucket reached through
 * `S3BotoStorage`.  Only what the cache relies on is modelled: a map from
 * object key to blob, the order in which the bucket lists its keys, and
 * fallible open / save / delete / list / batch-delete calls.  Whether a
 * call fails is an input (`fail`), so every outcome of the network is
 * covered.
 */
module ObjectStore {
  import opened Wrappers
  import opened EntryCodec

  /** The listing cap of `bucket.get_all_keys()`: one page of at most 1000 keys. */
  const ListingCap: nat := 1000

  /** Errors the store raises; both are IOError/OSError to the cache. */
  datatype StoreError = NotFound | Unavailable

  /** The bucket's contents and the order in which it lists them. */
  datatype Bucket<V> = Bucket(objects: map<string, Blob<V>>, order: seq<string>)

  predicate Distinct<T(==)>(s: seq<T>) {
    forall i, j :: 0 <= i < j < |s| ==> s[i] != s[j]
  }

  /** The listing order holds every key of the bucket exactly once. */
  ghost predicate ValidBucket<V>(b: Bucket<V>) {
    Distinct(b.order) && (forall k :: k in b.order <==> k in b.objects)
  }

  function ToSet(s: seq<string>): (r: set<string>)
    ensures forall x :: x in r <==> x in s
  {
    set x | x in s
  }

  /** `s` without the elements of `drop`, order kept. */
  function Without(s: seq<string>, drop: set<string>): (r: seq<string>)
    ensures forall x :: x in r <==> x in s && x !in drop
    ensures Distinct(s) ==> Distinct(r)
    ensures (forall x :: x in s ==> x !in drop) ==> r == s
  {
    if s == [] then []
    else if s[0] in drop then Without(s[1..], drop)
    else [s[0]] + Without(s[1..], drop)
  }

  /** A sequence without repeats has as many elements as its set. */
  lemma {:induction false} DistinctCard(s: seq<string>)
    requires Distinct(s)
    ensures |ToSet(s)| == |s|
  {
    if s != [] {
      assert Distinct(s[1..]);
      DistinctCard(s[1..]);
      assert ToSet(s) == ToSet(s[1..]) + {s[0]};
    }
  }

  /** The keys that start with `prefix`, in listing order. */
  function Matching(order: seq<string>, prefix: string): (r: seq<string>)
    ensures forall k :: k in r <==> k in order && prefix <= k
    ensures Distinct(order) ==> Distinct(r)
    ensures |r| <= |order|
  {
    if order == [] then []
    else
      var rest := Matching(order[1..], prefix);
      assert Distinct(order) ==> Distinct(order[1..]) && order[0] !in order[1..];
      if prefix <= order[0] then [order[0]] + rest else rest
  }

  /**
   * `bucket.get_all_keys(prefix=...)` when it succeeds: the first page of
   * the keys under the prefix, each once, every one stored under a key that
   * starts with the prefix; the whole set of such keys when there are at
   * most 1000 of them.
   */
  function Listing<V>(b: Bucket<V>, prefix: string): (r: seq<string>)
    requires ValidBucket(b)
    ensures |r| == if |Matching(b.order, prefix)| <= ListingCap then |Matching(b.order, prefix)| else ListingCap
    ensures Distinct(r)
    ensures forall k :: k in r ==> k in b.objects && prefix <= k
    ensures |Matching(b.order, prefix)| <= ListingCap ==>
              forall k :: k in b.objects && prefix <= k ==> k in r
  {
    var m := Matching(b.order, prefix);
    if |m| <= ListingCap then m else m[..ListingCap]
  }

  /**
   * Where the storage keeps a name: under its location, joined with '/'.
   * This is how `S3BotoStorage` places names; that class is not part of
   * this model, so the join is an assumption about it.
   */
  function StorageKey(location: string, name: string): (key: string)
    ensures location == "" ==> key == name
    ensures location != "" ==> |key| == |location| + 1 + |name|
    ensures location != "" ==> key[..|location|] == location && key[|location|] == '/' && key[|location| + 1..] == name
  {
    if location == "" then name else location + "/" + name
  }

  /** For a fixed location, different names are kept under different keys. */
  lemma {:induction false} StorageKeyInjective(location: string, n1: string, n2: string)
    ensures StorageKey(location, n1) == StorageKey(location, n2) <==> n1 == n2
  {
  }

  /** `storage.open(name)`: the stored blob; NotFound for a missing key. */
  function StorageOpen<V>(b: Bucket<V>, key: string, fail: bool): (r: Result<Blob<V>, StoreError>)
    ensures r.Ok? <==> !fail && key in b.objects
    ensures r.Ok? ==> r.value == b.objects[key]
  {
    if fail then Err(Unavailable)
    else if key in b.objects then Ok(b.objects[key])
    else Err(NotFound)
  }

  /** The bucket with `key` holding `blob`; a new key is listed last. */
  function PutObject<V>(b: Bucket<V>, key: string, blob: Blob<V>): (r: Bucket<V>)
    requires ValidBucket(b)
    ensures ValidBucket(r)
    ensures r.objects == b.objects[key := blob]
  {
    Bucket(b.objects[key := blob], if key in b.objects then b.order else b.order + [key])
  }

  /** The bucket without the keys in `keys`; every other key keeps its blob. */
  function RemoveObjects<V>(b: Bucket<V>, keys: set<string>): (r: Bucket<V>)
    requires ValidBucket(b)
    ensures ValidBucket(r)
    ensures r.objects == b.objects - keys
    ensures (forall k :: k in keys ==> k !in b.objects) ==> r == b
  {
    Bucket(b.objects - keys, Without(b.order, keys))
  }

  /** `storage.save(name, content)`: overwrites whatever was stored under the key. */
  function StorageSave<V>(b: Bucket<V>, key: string, blob: Blob<V>, fail: bool): (r: Result<Bucket<V>, StoreError>)
    requires ValidBucket(b)
    ensures r.Ok? <==> !fail
    ensures r.Ok? ==> r.value == PutObject(b, key, blob)
  {
    if fail then Err(Unavailable) else Ok(PutObject(b, key, blob))
  }

  /** `storage.delete(name)`: deleting a missing key succeeds and changes nothing. */
  function StorageDelete<V>(b: Bucket<V>, key: string, fail: bool): (r: Result<Bucket<V>, StoreError>)
    requires ValidBucket(b)
    ensures r.Ok? <==> !fail
    ensures r.Ok? ==> r.value == RemoveObjects(b, {key})
  {
    if fail then Err(Unavailable) else Ok(RemoveObjects(b, {key}))
  }

  /** `bucket.get_all_keys(prefix=prefix)`. */
  function GetAllKeys<V>(b: Bucket<V>, prefix: string, fail: bool): (r: Result<seq<string>, StoreError>)
    requires ValidBucket(b)
    ensures r.Ok? <==> !fail
    ensures r.Ok? ==> r.value == Listing(b, prefix)
  {
    if fail then Err(Unavailable) else Ok(Listing(b, prefix))
  }

  /** `bucket.delete_keys(keys, quiet=True)`: missing keys are skipped silently. */
  function DeleteKeys<V>(b: Bucket<V>, keys: seq<string>, fail: bool): (r: Result<Bucket<V>, StoreError>)
    requires ValidBucket(b)
    ensures r.Ok? <==> !fail
    ensures r.Ok? ==> r.value == RemoveObjects(b, ToSet(keys))
  {
    if fail then Err(Unavailable) else Ok(RemoveObjects(b, ToSet(keys)))
  }

  /** Removing a key that is not stored leaves the bucket exactly as it was. */
  lemma {:induction false} RemoveAbsent<V>(b: Bucket<V>, key: string)
    requires ValidBucket(b) && key !in b.objects
    ensures RemoveObjects(b, {key}) == b
  {
  }
}
