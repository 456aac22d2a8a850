/**
 * The stored blob (`_dump_object`, and the reads in `_is_expired` and
 * `get`): an expiry frame followed by a value frame.  Each frame stands for
 * one pickled object; the pickle byte format is not modelled.  The expiry
 * is read first and on its own, so an expired entry is discarded without
 * reading its value.
 */
module EntryCodec {
  import opened Wrappers

  /** One pickled object: a timestamp, an application value, or bytes that do not unpickle. */
  datatype Frame<V> = Stamp(expiresAt: int) | Payload(value: V) | Garbage

  type Blob<V> = seq<Frame<V>>

  /** EOFError (the blob ends before the frame) and UnpicklingError. */
  datatype DecodeError = Eof | Unpicklable

  /** The timeout `_dump_object` uses: the given one, or the default when None. */
  function EffectiveTimeout(timeout: Option<int>, defaultTimeout: int): (t: int)
    ensures timeout.Some? ==> t == timeout.value
    ensures timeout.None? ==> t == defaultTimeout
  {
    match timeout
    case Some(t) => t
    case None => defaultTimeout
  }

  /** Reads the first frame, which must be the expiry timestamp. */
  function LoadExpiry<V>(b: Blob<V>): (r: Result<int, DecodeError>)
    ensures r.Ok? <==> |b| > 0 && b[0].Stamp?
    ensures r.Ok? ==> r.value == b[0].expiresAt
    ensures |b| == 0 ==> r == Err(Eof)
  {
    if |b| == 0 then Err(Eof)
    else match b[0]
      case Stamp(t) => Ok(t)
      case _ => Err(Unpicklable)
  }

  /** Reads the second frame, which must be the value. */
  function LoadValue<V>(b: Blob<V>): (r: Result<V, DecodeError>)
    ensures r.Ok? <==> |b| > 1 && b[1].Payload?
    ensures r.Ok? ==> r.value == b[1].value
    ensures |b| < 2 ==> r == Err(Eof)
  {
    if |b| < 2 then Err(Eof)
    else match b[1]
      case Payload(v) => Ok(v)
      case _ => Err(Unpicklable)
  }

  /** An entry is expired once the current time is strictly past its stored timestamp. */
  predicate Expired(expiresAt: int, now: int) {
    expiresAt < now
  }

  /**
   * `_dump_object(value, timeout)` at time `now`: the blob reads back as the
   * expiry `now + timeout` (default timeout when None) and then the value.
   */
  function DumpObject<V>(value: V, timeout: Option<int>, defaultTimeout: int, now: int): (b: Blob<V>)
    ensures LoadExpiry(b) == Ok(now + EffectiveTimeout(timeout, defaultTimeout))
    ensures LoadValue(b) == Ok(value)
  {
    [Stamp(now + EffectiveTimeout(timeout, defaultTimeout)), Payload(value)]
  }

  /** The expiry read looks at the first frame only: whatever follows it does not change the result. */
  lemma {:induction false} ExpiryReadFirst<V>(b: Blob<V>, rest: Blob<V>)
    requires |b| > 0
    ensures LoadExpiry(b + rest) == LoadExpiry(b)
  {
    assert (b + rest)[0] == b[0];
  }

  /** A freshly dumped entry is live exactly until its timeout has passed. */
  lemma {:induction false} DumpedEntryLiveness<V>(value: V, timeout: Option<int>, defaultTimeout: int, now: int, later: int)
    ensures Expired(LoadExpiry(DumpObject(value, timeout, defaultTimeout, now)).value, later)
        <==> later > now + EffectiveTimeout(timeout, defaultTimeout)
  {
  }
}
