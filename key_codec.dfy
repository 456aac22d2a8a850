/**
 * Object names for cache keys (`_key_to_file`): the lower-case hexadecimal
 * rendering of a digest of the key.  The digest itself (SHA-1 over the UTF-8
 * bytes of the key) is a parameter: any deterministic function will do, and
 * every property below holds for all of them.
 */
module KeyCodec {
  import opened Wrappers

  newtype byte = x: int | 0 <= x < 256

  const HexDigits: string := "0123456789abcdef"

  predicate IsHexDigit(c: char) {
    '0' <= c <= '9' || 'a' <= c <= 'f'
  }

  /** The value of a lower-case hex digit; None for any other character. */
  function DigitValue(c: char): (r: Option<int>)
    ensures r.Some? <==> IsHexDigit(c)
    ensures r.Some? ==> 0 <= r.value < 16 && HexDigits[r.value] == c
  {
    if '0' <= c <= '9' then Some(c as int - '0' as int)
    else if 'a' <= c <= 'f' then Some(c as int - 'a' as int + 10)
    else None
  }

  /** `hexdigest()`: two lower-case digits per byte, high nibble first. */
  function HexDigest(d: seq<byte>): (s: string)
    ensures |s| == 2 * |d|
    ensures forall i :: 0 <= i < |s| ==> IsHexDigit(s[i])
  {
    if d == [] then ""
    else [HexDigits[d[0] as int / 16], HexDigits[d[0] as int % 16]] + HexDigest(d[1..])
  }

  /** Reads a hex rendering back; None when the text is not one. */
  function FromHex(s: string): (r: Option<seq<byte>>)
    ensures r.Some? ==> 2 * |r.value| == |s|
  {
    if s == [] then Some([])
    else if |s| == 1 then None
    else
      match (DigitValue(s[0]), DigitValue(s[1]), FromHex(s[2..]))
      case (Some(hi), Some(lo), Some(rest)) => Some([(hi * 16 + lo) as byte] + rest)
      case _ => None
  }

  lemma DigitOf(i: int)
    requires 0 <= i < 16
    ensures DigitValue(HexDigits[i]) == Some(i)
  {
  }

  /** The hex rendering loses nothing: reading it back gives the digest. */
  lemma {:induction false} FromHexDigest(d: seq<byte>)
    ensures FromHex(HexDigest(d)) == Some(d)
  {
    if d != [] {
      var b := d[0] as int;
      var hi, lo := b / 16, b % 16;
      assert hi * 16 + lo == b;
      DigitOf(hi);
      DigitOf(lo);
      FromHexDigest(d[1..]);
      var s := HexDigest(d);
      assert s[0] == HexDigits[hi] && s[1] == HexDigits[lo];
      assert s[2..] == HexDigest(d[1..]);
      assert FromHex(s) == Some([(hi * 16 + lo) as byte] + d[1..]);
      assert [d[0]] + d[1..] == d;
    }
  }

  /** Two digests render to the same text exactly when they are equal. */
  lemma {:induction false} HexDigestInjective(a: seq<byte>, b: seq<byte>)
    ensures HexDigest(a) == HexDigest(b) <==> a == b
  {
    FromHexDigest(a);
    FromHexDigest(b);
  }

  /**
   * `_key_to_file`: a flat object name made only of lower-case hex digits
   * (so no path separator), twice as long as the digest (40 characters for
   * SHA-1).
   */
  function KeyToFile(digest: string -> seq<byte>, key: string): (name: string)
    ensures |name| == 2 * |digest(key)|
    ensures forall i :: 0 <= i < |name| ==> IsHexDigit(name[i])
    ensures '/' !in name
  {
    HexDigest(digest(key))
  }

  /** Two keys share an object name exactly when their digests collide. */
  lemma {:induction false} KeyToFileCollision(digest: string -> seq<byte>, k1: string, k2: string)
    ensures KeyToFile(digest, k1) == KeyToFile(digest, k2) <==> digest(k1) == digest(k2)
  {
    HexDigestInjective(digest(k1), digest(k2));
  }
}
