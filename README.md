# s3cache in Dafny

A model of `AmazonS3Cache`, the Django cache backend that keeps its entries
as objects in an Amazon S3 bucket, and proofs of what it promises.

The cache turns a key into an object name (the hex SHA-1 digest of the key,
`_key_to_file`) and stores under that name a blob made of two pickled
objects: the expiry time, then the value. `get` and `has_key` read the
expiry first and delete an entry whose expiry has passed (lazy deletion).
`set` first culls, then saves. `add` is `has_key` followed by `set`. `delete`
removes one object. `clear` is a cull with frequency 0. The cull works like
this:

- It does nothing when `max_entries` is 0.
- Otherwise it counts the keys under the location prefix. That count listing
  is read outside any `try`, so its failure raises.
- Below the maximum it stops.
- Otherwise it lists the keys again and batch-deletes every
  `cull_frequency`-th one, or all of them for frequency 0.
- Failures of the second listing and of the batch delete are swallowed.

The construction clamps `max_entries` to the 1000-key listing cap. It also
normalises the `OPTIONS` dictionary:

- old-style credential and bucket names fill in missing new-style ones;
- `BUCKET_ACL` defaults through `DEFAULT_ACL` to `private`;
- `LOCATION` is stripped of '/';
- every option with a truthy value is copied under its lower-cased name.

Files and modules:

- `wrappers.dfy` (`Wrappers`): `Option` and `Result`.
- `key_codec.dfy` (`KeyCodec`): the hex rendering of a digest, its inverse,
  and `KeyToFile`.
- `entry_codec.dfy` (`EntryCodec`): the two-frame blob, `DumpObject` and
  the two reads.
- `object_store.dfy` (`ObjectStore`): the bucket (objects and listing
  order), the storage's key join, and the fallible store calls
  (open, save, delete, `get_all_keys`, `delete_keys`).
- `culling.dfy` (`Culling`): the `doomed` selection and its properties.
- `options.dfy` (`Options`): the options dictionary as an insertion-ordered
  list of pairs, and the normalisation of `__init__`. The function
  `NormalizedOptions` specifies it; the method `NormalizeOptions` runs the
  source's two loops.
- `s3cache.dfy` (`S3Cache`): the class `AmazonS3Cache` and the functions
  that describe the bucket after each operation.
- `cache_properties.dfy` (`CacheProperties`): the cache's properties as
  lemmas over those functions.

The class holds the bucket in a field that its methods update. The clock
(`now`) is a parameter of each operation. So is the outcome of each store
call: a `Faults` record says which kinds of store call fail during that
operation. No operation makes the same kind of call twice, so every
pattern of network failure is covered.

Where the surrounding documentation and the code differ, the model follows
the code:

- Store errors are not always swallowed. `_num_entries` is read outside
  any `try` (s3cache/__init__.py:183), so a failing count listing raises
  out of `_cull`, `set`, `add` and `clear`. `Cull`, `Set`, `Add` and `Clear`
  return that error (`CullRaises`).
- `clear` does not always empty the cache. It returns early when fewer
  than `max_entries` keys are listed (`ClearBelowMaximumKeepsEverything`).
- Only a zero maximum turns culling off. A negative one makes every `set`
  cull (`NegativeMaximumAlwaysCulls`).
- The listing prefix is `_location` as given (lines 187 and 206), while
  objects are written under the stripped location. With a leading '/',
  the cull never sees the cache's own objects
  (`LeadingSlashHidesEntries`).
- `has_key` and `get` do not always agree. `has_key` reads only the
  expiry (lines 157-158), so it answers true for a live entry whose value
  frame does not decode, while `get` returns the default (`ReadsAgree`).
- `add` does not refuse an entry that is expired but not yet deleted.
  `has_key` deletes it lazily and answers false, so `add` writes the new
  value (`AddKeepsLiveEntry`).

## Model

| member | source | states |
|---|---|---|
| `KeyCodec.KeyToFile` | s3cache/__init__.py:20-33 | the object name has two hex digits per digest byte and never contains '/' |
| `KeyCodec.HexDigest` | s3cache/__init__.py:33 | the rendering has two lower-case hex digits per digest byte; `FromHexDigest` and `HexDigestInjective` state that it loses nothing |
| `KeyCodec.FromHexDigest` | s3cache/__init__.py:33 | the hex rendering of a digest reads back to that digest |
| `KeyCodec.HexDigestInjective` | s3cache/__init__.py:33 | two digests render to the same text exactly when they are equal |
| `KeyCodec.KeyToFileCollision` | s3cache/__init__.py:20-33 | two keys share an object name exactly when their digests are equal |
| `CacheProperties.ObjectKeyCollision` | s3cache/__init__.py:106 | two keys share a bucket key exactly when their digests are equal |
| `EntryCodec.LoadExpiry` | s3cache/__init__.py:169 | reading the expiry looks at the first frame only; an empty blob is an EOF error |
| `EntryCodec.LoadValue` | s3cache/__init__.py:111 | reading the value looks at the second frame; a short blob is an EOF error |
| `EntryCodec.ExpiryReadFirst` | s3cache/__init__.py:169 | the expiry read looks only at the first frame: whatever follows it in the blob does not change what it reads |
| `EntryCodec.DumpedEntryLiveness` | s3cache/__init__.py:132-137 | a freshly written entry counts as expired at a later time exactly when that time is past now plus the effective timeout |
| `EntryCodec.DumpObject` | s3cache/__init__.py:132-138 | the blob's expiry reads back as now plus the effective timeout, and its value reads back as the value stored |
| `ObjectStore.Listing` | s3cache/__init__.py:46-49 | a listing has at most 1000 distinct keys, all stored and all under the prefix, and holds every such key when there are at most 1000 |
| `Culling.EveryNth` | s3cache/__init__.py:194 | the selection is no longer than the listing; `EveryNthPositions`, `DoomedAt`, `EveryNthMembers` and `EveryNthDistinct` state which keys it holds |
| `Culling.Doomed` | s3cache/__init__.py:191-194 | the doomed list is no longer than the listing; `DoomedAt` states that a key is doomed exactly when the frequency is 0 or divides its position |
| `Culling.EveryNthPositions` | s3cache/__init__.py:194 | for frequency n > 0 the selection has ceil(len/n) keys, and its j-th key is the listing's key at position j*n |
| `Culling.DoomedAt` | s3cache/__init__.py:191-194 | a listed key is doomed exactly when the frequency is 0 or divides its position |
| `Culling.EveryNthMembers` | s3cache/__init__.py:194 | only listed keys are selected |
| `Culling.EveryNthDistinct` | s3cache/__init__.py:194 | a listing without repeats gives a selection without repeats |
| `Culling.DoomedExamples` | tests/tests.py:253-282 | frequency 3 selects [1, 4, 7, 0] from [1..9, 0], and frequency 0 selects the whole listing |
| `Options.Put` | s3cache/__init__.py:60 | assigning a name sets its value, keeps every other name's value and keeps names unique |
| `Options.Strip` | s3cache/__init__.py:76 | the stripped location neither starts nor ends with '/', and a location without '/' at its ends is kept as is |
| `Options.StripMiddle` | s3cache/__init__.py:76 | the stripped location is the slice of the location that starts after its leading '/'s |
| `Options.StripCut` | s3cache/__init__.py:76 | everything cut away from either end of the location is '/' |
| `Options.StripIdempotent` | s3cache/__init__.py:76 | stripping an already stripped location changes nothing |
| `Options.NormalizeOptions` | s3cache/__init__.py:54-86 | the method's loops compute exactly `NormalizedOptions` |
| `Options.CollectLowerCopies` | s3cache/__init__.py:79-82 | the loop collects the lower-cased copy of every truthy option, in order |
| `Options.AssignAll` | s3cache/__init__.py:85-86 | the loop assigns every collected pair in order |
| `Options.NormalizedLookup` | s3cache/__init__.py:78-86 | after normalisation a name holds the last truthy option whose lower-cased name it is, else its value before the copy |
| `Options.UpperCaseNamesKept` | s3cache/__init__.py:78-86 | a name that is not lower case keeps its value through the copy |
| `Options.MissingNameFilledFromOldName` | s3cache/__init__.py:59-64 | a missing ACCESS_KEY / SECRET_KEY / BUCKET_NAME ends up holding its old-style value (None when that is missing too), and the lower-cased name gets that value when it is truthy |
| `Options.FallbacksFillName` | s3cache/__init__.py:59-64 | the backward-compatible step assigns a missing new-style name the old-style value, or None |
| `Options.PresentNameKept` | s3cache/__init__.py:59-64 | a new-style name that is given keeps its value, not overwritten by the old-style one, and its lower-cased name receives that value when it is truthy |
| `Options.FallbacksKeepGivenName` | s3cache/__init__.py:59-64 | the backward-compatible step leaves a given new-style name as it is |
| `Options.NormalizedConfiguration` | s3cache/__init__.py:67-76 | construction fails exactly when the location is not a string; `_location` is the location as given, LOCATION holds it stripped of '/', and BUCKET_ACL falls back to DEFAULT_ACL and then to 'private' |
| `S3Cache.ClampMaxEntries` | s3cache/__init__.py:51-52 | the effective maximum is at most 1000, a maximum above 1000 becomes exactly 1000, and any other maximum is kept as given |
| `S3Cache.AmazonS3Cache.constructor` | s3cache/__init__.py:39-92 | the maximum is clamped, the options are normalised, the listing prefix is the given location, and the storage writes under the stripped one |
| `S3Cache.AmazonS3Cache.DeleteFile` | s3cache/__init__.py:148-149 | deletes exactly the named object, or fails and changes nothing |
| `S3Cache.AmazonS3Cache.IsExpired` | s3cache/__init__.py:164-174 | an undecodable expiry is an error; an expiry not before now answers false; an earlier one deletes exactly that object and answers true, unless the delete fails, which is an error |
| `S3Cache.AmazonS3Cache.Get` | s3cache/__init__.py:102-116 | returns the stored value while it is live and decodes, the default otherwise, and leaves the bucket as `AfterRead` says |
| `S3Cache.AmazonS3Cache.HasKey` | s3cache/__init__.py:151-162 | answers whether a live entry is stored, false on any error, and leaves the bucket as `AfterRead` says |
| `S3Cache.AmazonS3Cache.NumEntries` | s3cache/__init__.py:202-207 | fails exactly when the listing fails; otherwise counts the keys under the prefix, capped at 1000, which is the number of such objects when there are at most 1000 |
| `S3Cache.AmazonS3Cache.Cull` | s3cache/__init__.py:176-199 | raises exactly when the maximum is nonzero and the count fails; leaves the bucket as `AfterCull` says |
| `S3Cache.AmazonS3Cache.Set` | s3cache/__init__.py:118-130 | raises exactly when the cull does; otherwise culls, then stores the dumped entry unless the save fails |
| `S3Cache.AmazonS3Cache.Add` | s3cache/__init__.py:95-100 | answers false and changes nothing when a live entry is there; otherwise performs `set` and answers true, or raises when the cull does |
| `S3Cache.AmazonS3Cache.Delete` | s3cache/__init__.py:140-146 | removes the key's object, or changes nothing when the delete fails; never raises |
| `S3Cache.AmazonS3Cache.Clear` | s3cache/__init__.py:209-211 | is exactly a cull with frequency 0 |
| `CacheProperties.ClampMakesCullReachable` | s3cache/__init__.py:46-52 | an unclamped maximum above 1000 is never reached by the count, while the clamped one is reached once the prefix holds that many objects |
| `CacheProperties.CullNoOp` | s3cache/__init__.py:180-199 | a zero maximum, a count below the maximum, or a failed listing or batch delete leave the bucket unchanged |
| `CacheProperties.NegativeMaximumAlwaysCulls` | s3cache/__init__.py:180-184 | with a negative maximum every successful count leads to a cull |
| `CacheProperties.CullRemovesDoomed` | s3cache/__init__.py:186-199 | the listed key at position i is removed exactly when the frequency is 0 or divides i; nothing else is removed or changed |
| `CacheProperties.CullSurvivorCount` | s3cache/__init__.py:191-197 | the cull removes one object per doomed key: all listed keys for frequency 0, ceil(len/n) of them for n > 0 |
| `CacheProperties.ClearRemovesListing` | s3cache/__init__.py:209-211 | at or above the maximum, `clear` removes every listed key, and so every object under the prefix when there are at most 1000 |
| `CacheProperties.ClearBelowMaximumKeepsEverything` | s3cache/__init__.py:183-184 | below the maximum, `clear` removes nothing |
| `CacheProperties.ReadsAgree` | s3cache/__init__.py:102-162 | `get` returns the stored value exactly when `has_key` is true and the value decodes, and the default otherwise |
| `CacheProperties.ReadDeletesOnlyExpired` | s3cache/__init__.py:169-172 | a read deletes the object it read exactly when its expiry lies strictly in the past and the delete succeeds, and touches nothing else |
| `CacheProperties.ExpiryIsStrict` | s3cache/__init__.py:170 | an entry whose expiry equals now is still live, and it is stale one tick later |
| `CacheProperties.SetThenGet` | s3cache/__init__.py:118-138 | after a successful `set`, `get` returns the value and `has_key` is true up to the expiry, and reading it changes nothing |
| `CacheProperties.SetThenGetExpired` | s3cache/__init__.py:164-174 | after the expiry, the entry is a miss and the read deletes it unless that delete fails |
| `CacheProperties.AddKeepsLiveEntry` | s3cache/__init__.py:95-97 | `add` on a live entry leaves the bucket as it was; an expired entry that is not yet deleted counts as absent |
| `CacheProperties.DeleteIdempotent` | s3cache/__init__.py:140-149 | `delete` removes just that object; on a missing object, or a second time, it changes nothing |
| `CacheProperties.StoreOutage` | s3cache/__init__.py:102-199 | when every store call fails, `get` returns the default, `has_key` is false, nothing changes, and only the cull's count raises, exactly when the maximum is nonzero |
| `CacheProperties.LeadingSlashHidesEntries` | s3cache/__init__.py:187 | with a location starting with '/', no object of the cache is listed under the prefix |

## Left out

- The S3 bucket, boto and `S3BotoStorage` are not part of this model. The bucket is a map with a listing order, and each call either succeeds as specified or fails with an I/O error.
- How `S3BotoStorage` places a name under its location is an assumption: the stripped location, '/', then the name.
- The storage's location is taken from the normalised options' `location` entry, else "". A default from other settings is not modelled.
- S3 lists keys in its own order. The model appends new keys at the end of the listing order. Every cull property holds for any listing order.
- `delete_keys` can report per-key errors without raising. The model's batch delete either removes every listed key or fails as a whole.
- SHA-1 and the UTF-8 encoding of the key are a parameter, `digest`. Only the hex rendering is modelled.
- The pickle byte format is not modelled. A blob is a sequence of frames: a timestamp, a value, or bytes that do not unpickle.
- A frame of the wrong kind is treated as a decode error. In the source, a timestamp in the value position is returned as the value.
- Get, HasKey: a blob that does not decode is modelled as a caught `EOFError` or `UnpicklingError`, so both return a miss and never raise on it. In the source, `get` and `has_key` catch only `IOError`, `OSError`, `EOFError` and `PickleError` (lines 114 and 161). Errors outside those escape: `pickle.load` raises `AttributeError` or `ImportError` when a stored value's class no longer exists, and some corrupt streams raise `ValueError`, `IndexError` or `KeyError`. Under Python 3, `exp < time.time()` (line 170) also raises an uncaught `TypeError` when the first frame is not a number. The model assumes the expiry frame is numeric and every unpickling failure is one of the caught kinds. So `ReadsAgree`, which has a read of an undecodable value end in a miss rather than an error, holds for the source only under that assumption.
- Time is an integer parameter `now`. `time.time()` returns a float; only the comparison `exp < now` and the sum `now + timeout` are modelled.
- Django's `make_key`, `validate_key` and key versioning are not modelled. The model starts from the finished key.
- The parsing of `MAX_ENTRIES`, `CULL_FREQUENCY` and `TIMEOUT` by Django's `BaseCache` is not modelled; they are constructor parameters.
- A timeout of `None` meaning "never expire" in newer Django versions is not modelled.
- `lower()` is modelled for ASCII letters only.
- The options dictionary iterates in insertion order, as Python 3.7 and later guarantee. Under Python 2 the order of `items()` is undefined. The model fixes insertion order. Three results depend on it: which of two names that lower to the same string wins, which of the stripped `LOCATION` and a caller's `location` ends up under `location`, and hence `StorageLocation`.
- Set: every value is assumed to pickle. In the source, `pickle.dumps` may reject a value with `PickleError`. `set`'s try swallows that error, and nothing is saved. The model has no such failure apart from a failed save (`f.save`). So `SetThenGet` holds for the source only for values that pickle.
- The constructor requires a string location. A non-string location makes `__init__` raise; `NormalizedOptions` returns that error.
- `__init__` writes the normalised options back into the caller's `OPTIONS` dictionary. The model returns a new dictionary, so this aliasing is not captured.
- Concurrency is not modelled: the race between `has_key` and `set` in `add`, and between the listing and the delete in `_cull`. Each operation runs alone against the bucket.
- Closing the file object (`fobj.close()`) has no effect on the model.
- `CacheClass`, the backward-compatible alias, adds no behaviour.
