/**
 * Construction-time option handling of `AmazonS3Cache.__init__`: the
 * OPTIONS dict is completed with new-style names taken from their old-style
 * spellings, gets a default BUCKET_ACL and a LOCATION without surrounding
 * '/', and then receives a lower-cased copy of every entry with a truthy
 * value, because the storage class reads lower-case names.
 */
module Options {
  import opened Wrappers

  /** The option values the configuration uses: None, strings and integers. */
  datatype PyValue = PyNone | PyStr(s: string) | PyInt(i: int)

  /** A Python dict: its entries in insertion order. */
  type Dict = seq<(string, PyValue)>

  predicate KeysDistinct(d: Dict) {
    forall i, j :: 0 <= i < j < |d| ==> d[i].0 != d[j].0
  }

  /** The names of the entries, in order. */
  function Keys(d: Dict): (r: seq<string>)
    ensures |r| == |d| && forall i :: 0 <= i < |d| ==> r[i] == d[i].0
  {
    seq(|d|, i requires 0 <= i < |d| => d[i].0)
  }

  /** `d.get(k)`: the value stored under `k`, if any. */
  function Get(d: Dict, k: string): (r: Option<PyValue>)
    ensures r.Some? ==> k in Keys(d)
    ensures k in Keys(d) ==> r.Some?
  {
    if d == [] then None
    else if d[0].0 == k then Some(d[0].1)
    else Get(d[1..], k)
  }

  /** `d.get(k, default)`. */
  function GetOr(d: Dict, k: string, default: PyValue): PyValue {
    match Get(d, k)
    case Some(v) => v
    case None => default
  }

  /** `d[k] = v`: an existing key keeps its place, a new one goes last. */
  function Put(d: Dict, k: string, v: PyValue): (r: Dict)
    ensures Get(r, k) == Some(v)
    ensures forall k' :: k' != k ==> Get(r, k') == Get(d, k')
    ensures KeysDistinct(d) ==> KeysDistinct(r)
  {
    if d == [] then [(k, v)]
    else if d[0].0 == k then [(k, v)] + d[1..]
    else
      var rest := Put(d[1..], k, v);
      assert KeysDistinct(d) ==> KeysDistinct(d[1..]) && Get(d[1..], d[0].0).None?;
      [d[0]] + rest
  }

  /** Python truthiness: None, '' and 0 are false. */
  predicate Truthy(v: PyValue) {
    match v
    case PyNone => false
    case PyStr(s) => s != ""
    case PyInt(i) => i != 0
  }

  function LowerChar(c: char): char {
    if 'A' <= c <= 'Z' then (c as int - 'A' as int + 'a' as int) as char else c
  }

  /** `str.lower()` on ASCII letters. */
  function Lower(s: string): (r: string)
    ensures |r| == |s| && forall i :: 0 <= i < |s| ==> r[i] == LowerChar(s[i])
  {
    seq(|s|, i requires 0 <= i < |s| => LowerChar(s[i]))
  }

  lemma {:induction false} LowerIdempotent(s: string)
    ensures Lower(Lower(s)) == Lower(s)
  {
  }

  /** Drops the leading run of `c`. */
  function StripLeft(s: string, c: char): (r: string)
    ensures |r| <= |s| && r == s[|s| - |r|..]
    ensures forall i :: 0 <= i < |s| - |r| ==> s[i] == c
    ensures r == [] || r[0] != c
  {
    if s != [] && s[0] == c then StripLeft(s[1..], c) else s
  }

  /** Drops the trailing run of `c`. */
  function StripRight(s: string, c: char): (r: string)
    ensures |r| <= |s| && r == s[..|r|]
    ensures forall i :: |r| <= i < |s| ==> s[i] == c
    ensures r == [] || r[|r| - 1] != c
  {
    if s != [] && s[|s| - 1] == c then StripRight(s[..|s| - 1], c) else s
  }

  /**
   * `s.strip(c)`: the middle of `s` once the runs of `c` at both ends are
   * removed; it neither starts nor ends with `c`.
   */
  function Strip(s: string, c: char): (r: string)
    ensures r == [] || (r[0] != c && r[|r| - 1] != c)
    ensures (s == [] || (s[0] != c && s[|s| - 1] != c)) ==> r == s
  {
    StripRight(StripLeft(s, c), c)
  }

  /** `s.strip(c)` is a slice of `s`, starting after the leading run of `c`. */
  lemma {:induction false} StripMiddle(s: string, c: char)
    ensures var a := |s| - |StripLeft(s, c)|;
      a + |Strip(s, c)| <= |s| && Strip(s, c) == s[a..a + |Strip(s, c)|]
  {
    var l := StripLeft(s, c);
    var r := StripRight(l, c);
    SliceOfSuffix(s, l, r, c);
  }

  /** Everything `s.strip(c)` cuts away from either end is `c`. */
  lemma {:induction false} StripCut(s: string, c: char)
    ensures var a := |s| - |StripLeft(s, c)|;
      && (forall i :: 0 <= i < a ==> s[i] == c)
      && (forall i :: a + |Strip(s, c)| <= i < |s| ==> s[i] == c)
  {
    var l := StripLeft(s, c);
    var r := StripRight(l, c);
    SliceOfSuffix(s, l, r, c);
  }

  /** A prefix `r` of a suffix `l` of `s` is a slice of `s`; what `l` has past `r` is `c`. */
  lemma {:induction false} SliceOfSuffix(s: string, l: string, r: string, c: char)
    requires |l| <= |s| && l == s[|s| - |l|..]
    requires |r| <= |l| && r == l[..|r|]
    requires forall i :: 0 <= i < |s| - |l| ==> s[i] == c
    requires forall i :: |r| <= i < |l| ==> l[i] == c
    ensures var a := |s| - |l|;
      && a + |r| <= |s|
      && r == s[a..a + |r|]
      && (forall i :: 0 <= i < a ==> s[i] == c)
      && (forall i :: a + |r| <= i < |s| ==> s[i] == c)
  {
    var a := |s| - |l|;
    forall i | a + |r| <= i < |s|
      ensures s[i] == c
    {
      assert s[i] == l[i - a];
    }
  }

  /** Stripping twice removes nothing more. */
  lemma {:induction false} StripIdempotent(s: string, c: char)
    ensures Strip(Strip(s, c), c) == Strip(s, c)
  {
  }

  /** The options after construction, and `_location` (the LOCATION as given, before stripping). */
  datatype Normalized = Normalized(options: Dict, location: string)

  /** `.strip('/')` on a location that is not a string raises AttributeError. */
  datatype ConfigError = LocationNotAString

  /** Lines 59-64: a new-style option that is missing takes its old-style value (or None). */
  function Fallback(d: Dict, name: string, oldName: string): Dict {
    if Get(d, name).Some? then d else Put(d, name, GetOr(d, oldName, PyNone))
  }

  /** Lines 59-64: the three backward-compatible names. */
  function Fallbacks(raw: Dict): Dict {
    var d1 := Fallback(raw, "ACCESS_KEY", "ACCESS_KEY_ID");
    var d2 := Fallback(d1, "SECRET_KEY", "SECRET_ACCESS_KEY");
    Fallback(d2, "BUCKET_NAME", "STORAGE_BUCKET_NAME")
  }

  /** The location as the caller gave it: LOCATION, else `location`, else ''. */
  function GivenLocation(raw: Dict): PyValue {
    GetOr(raw, "LOCATION", GetOr(raw, "location", PyStr("")))
  }

  /** Lines 68-69: BUCKET_ACL if given, else DEFAULT_ACL, else 'private'. */
  function AclFor(d: Dict): PyValue {
    GetOr(d, "BUCKET_ACL", GetOr(d, "DEFAULT_ACL", PyStr("private")))
  }

  /** Line 71: BUCKET_ACL is always set. */
  function WithAcl(d: Dict): Dict {
    Put(d, "BUCKET_ACL", AclFor(d))
  }

  /** Lines 59-76: the backward-compatible names, BUCKET_ACL and LOCATION. */
  function Translated(raw: Dict): Result<Normalized, ConfigError> {
    var d4 := WithAcl(Fallbacks(raw));
    match GivenLocation(d4)
    case PyStr(location) => Ok(Normalized(Put(d4, "LOCATION", PyStr(Strip(location, '/'))), location))
    case _ => Err(LocationNotAString)
  }

  /** Lines 79-82: the lower-cased name and value of every entry with a truthy value, in order. */
  function LowerCopies(d: Dict): seq<(string, PyValue)> {
    if d == [] then []
    else
      var last := d[|d| - 1];
      LowerCopies(d[..|d| - 1]) + if Truthy(last.1) then [(Lower(last.0), last.1)] else []
  }

  /** Lines 85-86: the assignments `d[n] = v`, one after the other. */
  function PutAll(d: Dict, pairs: seq<(string, PyValue)>): Dict {
    if pairs == [] then d
    else
      var last := pairs[|pairs| - 1];
      Put(PutAll(d, pairs[..|pairs| - 1]), last.0, last.1)
  }

  /** The `_options` dict and `_location` that `__init__` leaves behind. */
  function NormalizedOptions(raw: Dict): Result<Normalized, ConfigError> {
    match Translated(raw)
    case Ok(t) => Ok(Normalized(PutAll(t.options, LowerCopies(t.options)), t.location))
    case Err(e) => Err(e)
  }

  /**
   * Lines 54-86 as the constructor runs them, updating the dict in place.
   * Fails only when the location option is not a string.
   */
  method NormalizeOptions(raw: Dict) returns (r: Result<Normalized, ConfigError>)
    ensures r == NormalizedOptions(raw)
  {
    var options := FillMissing(raw, "ACCESS_KEY", "ACCESS_KEY_ID");
    options := FillMissing(options, "SECRET_KEY", "SECRET_ACCESS_KEY");
    options := FillMissing(options, "BUCKET_NAME", "STORAGE_BUCKET_NAME");
    assert options == Fallbacks(raw);
    var defaultAcl := GetOr(options, "DEFAULT_ACL", PyStr("private"));
    var bucketAcl := GetOr(options, "BUCKET_ACL", defaultAcl);
    options := Put(options, "BUCKET_ACL", bucketAcl);
    assert options == WithAcl(Fallbacks(raw));
    var location := GetOr(options, "LOCATION", GetOr(options, "location", PyStr("")));
    if !location.PyStr? {
      return Err(LocationNotAString);
    }
    options := Put(options, "LOCATION", PyStr(Strip(location.s, '/')));
    var lowercase := CollectLowerCopies(options);
    options := AssignAll(options, lowercase);
    r := Ok(Normalized(options, location.s));
  }

  /** Lines 59-64, one name: `if name not in d: d[name] = d.get(oldName, None)`. */
  method FillMissing(options: Dict, name: string, oldName: string) returns (result: Dict)
    ensures result == Fallback(options, name, oldName)
  {
    result := options;
    if Get(options, name).None? {
      result := Put(options, name, GetOr(options, oldName, PyNone));
    }
  }

  /** Lines 79-82: the loop that collects lower-cased copies of the truthy entries. */
  method CollectLowerCopies(options: Dict) returns (lowercase: seq<(string, PyValue)>)
    ensures lowercase == LowerCopies(options)
  {
    lowercase := [];
    var i := 0;
    while i < |options|
      invariant 0 <= i <= |options|
      invariant lowercase == LowerCopies(options[..i])
    {
      var (name, value) := options[i];
      assert options[..i + 1][..i] == options[..i];
      if Truthy(value) {
        lowercase := lowercase + [(Lower(name), value)];
      }
      i := i + 1;
    }
    assert options[..i] == options;
  }

  /** Lines 85-86: the loop that writes the collected copies into the dict. */
  method AssignAll(options: Dict, pairs: seq<(string, PyValue)>) returns (result: Dict)
    ensures result == PutAll(options, pairs)
  {
    result := options;
    var j := 0;
    while j < |pairs|
      invariant 0 <= j <= |pairs|
      invariant result == PutAll(options, pairs[..j])
    {
      assert pairs[..j + 1][..j] == pairs[..j];
      result := Put(result, pairs[j].0, pairs[j].1);
      j := j + 1;
    }
    assert pairs[..j] == pairs;
  }

  function Or(a: Option<PyValue>, b: Option<PyValue>): Option<PyValue> {
    if a.Some? then a else b
  }

  /** The value of a truthy option; None for a falsy one. */
  function IfTruthy(v: PyValue): Option<PyValue> {
    if Truthy(v) then Some(v) else None
  }

  /** The value of the last pair named `k`: the one a run of `d[n] = v` leaves in place. */
  function LastFor(pairs: seq<(string, PyValue)>, k: string): Option<PyValue> {
    if pairs == [] then None
    else Or(LastFor(pairs[1..], k), if pairs[0].0 == k then Some(pairs[0].1) else None)
  }

  /**
   * Reference meaning of the lower-casing step: the value of the last entry
   * of `d` whose value is truthy and whose lower-cased name is `k`.
   */
  function LastLowered(d: Dict, k: string): Option<PyValue> {
    if d == [] then None
    else Or(LastLowered(d[1..], k), if Lower(d[0].0) == k then IfTruthy(d[0].1) else None)
  }

  lemma {:induction false} LastForAppend(a: seq<(string, PyValue)>, b: seq<(string, PyValue)>, k: string)
    ensures LastFor(a + b, k) == Or(LastFor(b, k), LastFor(a, k))
  {
    if a == [] {
      assert a + b == b;
    } else {
      LastForAppend(a[1..], b, k);
      assert (a + b)[1..] == a[1..] + b;
    }
  }

  lemma {:induction false} LastLoweredAppend(a: Dict, b: Dict, k: string)
    ensures LastLowered(a + b, k) == Or(LastLowered(b, k), LastLowered(a, k))
  {
    if a == [] {
      assert a + b == b;
    } else {
      LastLoweredAppend(a[1..], b, k);
      assert (a + b)[1..] == a[1..] + b;
    }
  }

  /** After the assignments, a name holds the last value assigned to it, or its old value. */
  lemma {:induction false} PutAllLookup(d: Dict, pairs: seq<(string, PyValue)>, k: string)
    ensures Get(PutAll(d, pairs), k) == Or(LastFor(pairs, k), Get(d, k))
  {
    if pairs != [] {
      var n := |pairs| - 1;
      var front := pairs[..n];
      var (name, v) := pairs[n];
      PutAllLookup(d, front, k);
      LastForAppend(front, [(name, v)], k);
      assert front + [(name, v)] == pairs;
      assert LastFor([(name, v)], k) == if name == k then Some(v) else None;
      assert PutAll(d, pairs) == Put(PutAll(d, front), name, v);
    }
  }

  /** The collected copies assign to `k` exactly the value `LastLowered` names. */
  lemma {:induction false} LowerCopiesLast(d: Dict, k: string)
    ensures LastFor(LowerCopies(d), k) == LastLowered(d, k)
  {
    if d != [] {
      var n := |d| - 1;
      LowerCopiesLast(d[..n], k);
      var last := d[n];
      LastForAppend(LowerCopies(d[..n]), if Truthy(last.1) then [(Lower(last.0), last.1)] else [], k);
      LastLoweredAppend(d[..n], [last], k);
      assert d[..n] + [last] == d;
    }
  }

  /**
   * After construction an option name `k` holds the value of the last
   * truthy entry whose lower-cased name is `k`, and otherwise what it held
   * once the backward-compatible names, BUCKET_ACL and LOCATION were filled in.
   */
  lemma {:induction false} NormalizedLookup(raw: Dict, k: string)
    requires Translated(raw).Ok?
    ensures var t := Translated(raw).value.options;
      Get(NormalizedOptions(raw).value.options, k) == Or(LastLowered(t, k), Get(t, k))
  {
    var t := Translated(raw).value.options;
    PutAllLookup(t, LowerCopies(t), k);
    LowerCopiesLast(t, k);
  }

  /** No truthy entry lowers to `k` when `k` is not itself lower-case. */
  lemma {:induction false} LastLoweredOfUpper(d: Dict, k: string)
    requires Lower(k) != k
    ensures LastLowered(d, k) == None
  {
    if d != [] {
      LastLoweredOfUpper(d[1..], k);
      LowerIdempotent(d[0].0);
    }
  }

  /** Names that are not lower-case (ACCESS_KEY, LOCATION, ...) are never overwritten by the copies. */
  lemma {:induction false} UpperCaseNamesKept(raw: Dict, k: string)
    requires Translated(raw).Ok? && Lower(k) != k
    ensures Get(NormalizedOptions(raw).value.options, k) == Get(Translated(raw).value.options, k)
  {
    NormalizedLookup(raw, k);
    LastLoweredOfUpper(Translated(raw).value.options, k);
  }

  /** Assigning a name that does not lower to `k` does not change the last lowered value. */
  lemma {:induction false} LastLoweredPutOther(d: Dict, name: string, v: PyValue, k: string)
    requires Lower(name) != k
    ensures LastLowered(Put(d, name, v), k) == LastLowered(d, k)
  {
    if d != [] && d[0].0 != name {
      LastLoweredPutOther(d[1..], name, v, k);
    }
  }

  /** Assigning a name absent from the dict appends it. */
  lemma {:induction false} PutAbsent(d: Dict, name: string, v: PyValue)
    requires Get(d, name).None?
    ensures Put(d, name, v) == d + [(name, v)]
  {
    if d != [] {
      PutAbsent(d[1..], name, v);
    }
  }

  /** One step of lines 59-64, seen from the lower-cased name `k` of `name`. */
  lemma {:induction false} FallbackStep(d: Dict, step: string, oldName: string, name: string, k: string)
    requires step == name || Lower(step) != k
    requires Lower(name) == k
    ensures LastLowered(Fallback(d, step, oldName), k) ==
      if step == name && Get(d, name).None? then Or(IfTruthy(GetOr(d, oldName, PyNone)), LastLowered(d, k))
      else LastLowered(d, k)
  {
    if Get(d, step).None? {
      var v := GetOr(d, oldName, PyNone);
      if step == name {
        PutAbsent(d, step, v);
        LastLoweredAppend(d, [(step, v)], k);
      } else {
        LastLoweredPutOther(d, step, v, k);
      }
    }
  }

  /** Of the names `__init__` assigns, only `name` itself lowers to `k`. */
  predicate IsCompatName(name: string, oldName: string) {
    (name == "ACCESS_KEY" && oldName == "ACCESS_KEY_ID") ||
    (name == "SECRET_KEY" && oldName == "SECRET_ACCESS_KEY") ||
    (name == "BUCKET_NAME" && oldName == "STORAGE_BUCKET_NAME")
  }

  lemma LowerLiterals()
    ensures Lower("ACCESS_KEY") == "access_key"
    ensures Lower("SECRET_KEY") == "secret_key"
    ensures Lower("BUCKET_NAME") == "bucket_name"
    ensures Lower("BUCKET_ACL") == "bucket_acl"
    ensures Lower("LOCATION") == "location"
  {
  }

  /** Lines 65-76 assign only names that do not lower to one of the three compatible names. */
  lemma {:induction false} TranslatedTail(raw: Dict, k: string)
    requires Translated(raw).Ok?
    requires k == "access_key" || k == "secret_key" || k == "bucket_name"
    ensures LastLowered(Translated(raw).value.options, k) == LastLowered(Fallbacks(raw), k)
    ensures Get(Translated(raw).value.options, k) == Get(Fallbacks(raw), k)
  {
    LowerLiterals();
    var d3 := Fallbacks(raw);
    var d4 := WithAcl(d3);
    var location := GivenLocation(d4);
    var t := Put(d4, "LOCATION", PyStr(Strip(location.s, '/')));
    assert Translated(raw).value.options == t;
    LastLoweredPutOther(d3, "BUCKET_ACL", AclFor(d3), k);
    LastLoweredPutOther(d4, "LOCATION", PyStr(Strip(location.s, '/')), k);
  }

  /** What the backward-compatible step leaves for the lower-cased `name`. */
  predicate FallbackOutcome(raw: Dict, name: string, oldName: string) {
    var k := Lower(name);
    && LastLowered(Fallbacks(raw), k) ==
         (if Get(raw, name).None? then Or(IfTruthy(GetOr(raw, oldName, PyNone)), LastLowered(raw, k))
          else LastLowered(raw, k))
    && Get(Fallbacks(raw), k) == Get(raw, k)
  }

  /** Lines 59-64 seen from the lower-case name of one of the three compatible names. */
  lemma {:induction false} FallbacksLastLowered(raw: Dict, name: string, oldName: string)
    requires IsCompatName(name, oldName)
    ensures var k := Lower(name);
      LastLowered(Fallbacks(raw), k) ==
        if Get(raw, name).None? then Or(IfTruthy(GetOr(raw, oldName, PyNone)), LastLowered(raw, k))
        else LastLowered(raw, k)
    ensures Get(Fallbacks(raw), Lower(name)) == Get(raw, Lower(name))
  {
    if name == "ACCESS_KEY" {
      AccessKeyFallback(raw);
    } else if name == "SECRET_KEY" {
      SecretKeyFallback(raw);
    } else {
      BucketNameFallback(raw);
    }
  }

  lemma {:induction false} AccessKeyFallback(raw: Dict)
    ensures FallbackOutcome(raw, "ACCESS_KEY", "ACCESS_KEY_ID")
  {
    LowerLiterals();
    var k := "access_key";
    var d1 := Fallback(raw, "ACCESS_KEY", "ACCESS_KEY_ID");
    var d2 := Fallback(d1, "SECRET_KEY", "SECRET_ACCESS_KEY");
    FallbackStep(raw, "ACCESS_KEY", "ACCESS_KEY_ID", "ACCESS_KEY", k);
    FallbackStep(d1, "SECRET_KEY", "SECRET_ACCESS_KEY", "ACCESS_KEY", k);
    FallbackStep(d2, "BUCKET_NAME", "STORAGE_BUCKET_NAME", "ACCESS_KEY", k);
    FallbacksKeep(raw, k);
  }

  lemma {:induction false} SecretKeyFallback(raw: Dict)
    ensures FallbackOutcome(raw, "SECRET_KEY", "SECRET_ACCESS_KEY")
  {
    LowerLiterals();
    var k := "secret_key";
    var d1 := Fallback(raw, "ACCESS_KEY", "ACCESS_KEY_ID");
    var d2 := Fallback(d1, "SECRET_KEY", "SECRET_ACCESS_KEY");
    FallbackStep(raw, "ACCESS_KEY", "ACCESS_KEY_ID", "SECRET_KEY", k);
    FallbackStep(d1, "SECRET_KEY", "SECRET_ACCESS_KEY", "SECRET_KEY", k);
    FallbackStep(d2, "BUCKET_NAME", "STORAGE_BUCKET_NAME", "SECRET_KEY", k);
    FallbackOther(raw, "ACCESS_KEY", "ACCESS_KEY_ID", "SECRET_KEY");
    FallbackOther(raw, "ACCESS_KEY", "ACCESS_KEY_ID", "SECRET_ACCESS_KEY");
    FallbacksKeep(raw, k);
  }

  lemma {:induction false} BucketNameFallback(raw: Dict)
    ensures FallbackOutcome(raw, "BUCKET_NAME", "STORAGE_BUCKET_NAME")
  {
    LowerLiterals();
    var k := "bucket_name";
    var d1 := Fallback(raw, "ACCESS_KEY", "ACCESS_KEY_ID");
    var d2 := Fallback(d1, "SECRET_KEY", "SECRET_ACCESS_KEY");
    FallbackStep(raw, "ACCESS_KEY", "ACCESS_KEY_ID", "BUCKET_NAME", k);
    FallbackStep(d1, "SECRET_KEY", "SECRET_ACCESS_KEY", "BUCKET_NAME", k);
    FallbackStep(d2, "BUCKET_NAME", "STORAGE_BUCKET_NAME", "BUCKET_NAME", k);
    FallbackOther(raw, "ACCESS_KEY", "ACCESS_KEY_ID", "BUCKET_NAME");
    FallbackOther(d1, "SECRET_KEY", "SECRET_ACCESS_KEY", "BUCKET_NAME");
    FallbackOther(raw, "ACCESS_KEY", "ACCESS_KEY_ID", "STORAGE_BUCKET_NAME");
    FallbackOther(d1, "SECRET_KEY", "SECRET_ACCESS_KEY", "STORAGE_BUCKET_NAME");
    FallbacksKeep(raw, k);
  }


  /**
   * A missing new-style name (ACCESS_KEY, SECRET_KEY, BUCKET_NAME) reaches
   * the storage under its lower-case name with the old-style value when that
   * value is truthy; otherwise the lower-case name keeps what the caller gave
   * under it (tests/tests.py:17-36, 58-106).
   */
  lemma {:induction false} MissingNameFilledFromOldName(raw: Dict, name: string, oldName: string)
    requires IsCompatName(name, oldName)
    requires Translated(raw).Ok? && Get(raw, name).None?
    ensures Get(NormalizedOptions(raw).value.options, name) == Some(GetOr(raw, oldName, PyNone))
    ensures Get(NormalizedOptions(raw).value.options, Lower(name)) ==
      Or(IfTruthy(GetOr(raw, oldName, PyNone)), Or(LastLowered(raw, Lower(name)), Get(raw, Lower(name))))
  {
    LowerLiterals();
    FallbacksFillName(raw, name, oldName);
    TranslatedKeepsCompatName(raw, name);
    UpperCaseNamesKept(raw, name);
    FallbacksLastLowered(raw, name, oldName);
    TranslatedTail(raw, Lower(name));
    NormalizedLookup(raw, Lower(name));
  }

  /** Lines 59-64: a missing compatible name is assigned the old-style value, or None. */
  lemma {:induction false} FallbacksFillName(raw: Dict, name: string, oldName: string)
    requires IsCompatName(name, oldName) && Get(raw, name).None?
    ensures Get(Fallbacks(raw), name) == Some(GetOr(raw, oldName, PyNone))
  {
    var d1 := Fallback(raw, "ACCESS_KEY", "ACCESS_KEY_ID");
    var d2 := Fallback(d1, "SECRET_KEY", "SECRET_ACCESS_KEY");
    if name == "ACCESS_KEY" {
      FallbackOther(d1, "SECRET_KEY", "SECRET_ACCESS_KEY", name);
      FallbackOther(d2, "BUCKET_NAME", "STORAGE_BUCKET_NAME", name);
    } else if name == "SECRET_KEY" {
      FallbackOther(raw, "ACCESS_KEY", "ACCESS_KEY_ID", name);
      FallbackOther(raw, "ACCESS_KEY", "ACCESS_KEY_ID", oldName);
      FallbackOther(d2, "BUCKET_NAME", "STORAGE_BUCKET_NAME", name);
    } else {
      FallbackOther(raw, "ACCESS_KEY", "ACCESS_KEY_ID", name);
      FallbackOther(raw, "ACCESS_KEY", "ACCESS_KEY_ID", oldName);
      FallbackOther(d1, "SECRET_KEY", "SECRET_ACCESS_KEY", name);
      FallbackOther(d1, "SECRET_KEY", "SECRET_ACCESS_KEY", oldName);
    }
  }

  /** Lines 59-64: a compatible name the caller gave is never overwritten by its old-style value. */
  lemma {:induction false} FallbacksKeepGivenName(raw: Dict, name: string, oldName: string)
    requires IsCompatName(name, oldName) && Get(raw, name).Some?
    ensures Get(Fallbacks(raw), name) == Get(raw, name)
  {
    var d1 := Fallback(raw, "ACCESS_KEY", "ACCESS_KEY_ID");
    var d2 := Fallback(d1, "SECRET_KEY", "SECRET_ACCESS_KEY");
    if name == "ACCESS_KEY" {
      FallbackOther(d1, "SECRET_KEY", "SECRET_ACCESS_KEY", name);
      FallbackOther(d2, "BUCKET_NAME", "STORAGE_BUCKET_NAME", name);
    } else if name == "SECRET_KEY" {
      FallbackOther(raw, "ACCESS_KEY", "ACCESS_KEY_ID", name);
      FallbackOther(d2, "BUCKET_NAME", "STORAGE_BUCKET_NAME", name);
    } else {
      FallbackOther(raw, "ACCESS_KEY", "ACCESS_KEY_ID", name);
      FallbackOther(d1, "SECRET_KEY", "SECRET_ACCESS_KEY", name);
    }
  }

  /** Lines 65-76 assign BUCKET_ACL and LOCATION only, so the compatible names keep their values. */
  lemma {:induction false} TranslatedKeepsCompatName(raw: Dict, name: string)
    requires Translated(raw).Ok?
    requires name == "ACCESS_KEY" || name == "SECRET_KEY" || name == "BUCKET_NAME"
    ensures Get(Translated(raw).value.options, name) == Get(Fallbacks(raw), name)
  {
    var d4 := WithAcl(Fallbacks(raw));
    var location := GivenLocation(d4);
    assert Translated(raw).value.options == Put(d4, "LOCATION", PyStr(Strip(location.s, '/')));
  }

  /** With no other entry lowering to `k`, the last lowered value is that of `name`, if truthy. */
  lemma {:induction false} LastLoweredSole(d: Dict, name: string, k: string)
    requires KeysDistinct(d) && Lower(name) == k && Get(d, name).Some?
    requires forall x :: Get(d, x).Some? && x != name ==> Lower(x) != k
    ensures LastLowered(d, k) == IfTruthy(Get(d, name).value)
  {
    if d[0].0 == name {
      NoneLowered(d[1..], k);
    } else {
      assert KeysDistinct(d[1..]);
      LastLoweredSole(d[1..], name, k);
    }
  }

  lemma {:induction false} NoneLowered(d: Dict, k: string)
    requires forall x :: Get(d, x).Some? ==> Lower(x) != k
    ensures LastLowered(d, k) == None
  {
    if d != [] {
      NoneLowered(d[1..], k);
    }
  }

  /**
   * A new-style name given by the caller keeps its value, and, with no
   * other entry lowering to its lower-case name, reaches the storage under
   * that name when its value is truthy (tests/tests.py:38-56).
   */
  lemma {:induction false} PresentNameKept(raw: Dict, name: string, oldName: string)
    requires IsCompatName(name, oldName) && KeysDistinct(raw)
    requires Translated(raw).Ok? && Get(raw, name).Some?
    requires forall x :: Get(raw, x).Some? && x != name ==> Lower(x) != Lower(name)
    ensures Get(NormalizedOptions(raw).value.options, name) == Get(raw, name)
    ensures Get(NormalizedOptions(raw).value.options, Lower(name)) == IfTruthy(Get(raw, name).value)
  {
    var k := Lower(name);
    LowerIdempotent(name);
    LowerLiterals();
    FallbacksKeepGivenName(raw, name, oldName);
    TranslatedKeepsCompatName(raw, name);
    UpperCaseNamesKept(raw, name);
    assert Get(raw, k).None?;
    LastLoweredSole(raw, name, k);
    FallbacksLastLowered(raw, name, oldName);
    TranslatedTail(raw, k);
    NormalizedLookup(raw, k);
  }

  /**
   * Construction fails exactly when the given location is not a string;
   * otherwise `_location` is that string as given, LOCATION holds it without
   * leading and trailing '/', and BUCKET_ACL holds the caller's BUCKET_ACL,
   * else DEFAULT_ACL, else 'private' (lines 67-76).
   */
  lemma {:induction false} NormalizedConfiguration(raw: Dict)
    ensures NormalizedOptions(raw).Err? <==> !GivenLocation(raw).PyStr?
    ensures NormalizedOptions(raw).Ok? ==>
      var n := NormalizedOptions(raw).value;
      n.location == GivenLocation(raw).s &&
      Get(n.options, "LOCATION") == Some(PyStr(Strip(n.location, '/'))) &&
      Get(n.options, "BUCKET_ACL") == Some(GetOr(raw, "BUCKET_ACL", GetOr(raw, "DEFAULT_ACL", PyStr("private"))))
  {
    TranslatedConfiguration(raw);
    LowerLiterals();
    if Translated(raw).Ok? {
      UpperCaseNamesKept(raw, "LOCATION");
      UpperCaseNamesKept(raw, "BUCKET_ACL");
    }
  }

  lemma {:induction false} TranslatedConfiguration(raw: Dict)
    ensures Translated(raw).Err? <==> !GivenLocation(raw).PyStr?
    ensures Translated(raw).Ok? ==>
      var t := Translated(raw).value;
      t.location == GivenLocation(raw).s &&
      Get(t.options, "LOCATION") == Some(PyStr(Strip(t.location, '/'))) &&
      Get(t.options, "BUCKET_ACL") == Some(GetOr(raw, "BUCKET_ACL", GetOr(raw, "DEFAULT_ACL", PyStr("private"))))
  {
    FallbacksKeepConfiguration(raw);
    var d4 := WithAcl(Fallbacks(raw));
    if GivenLocation(raw).PyStr? {
      var location := GivenLocation(raw).s;
      var t := Put(d4, "LOCATION", PyStr(Strip(location, '/')));
      assert Translated(raw) == Ok(Normalized(t, location));
    }
  }

  /** Neither the backward-compatible names nor BUCKET_ACL touch the location, and the ACL is the caller's. */
  lemma {:induction false} FallbacksKeepConfiguration(raw: Dict)
    ensures GivenLocation(WithAcl(Fallbacks(raw))) == GivenLocation(raw)
    ensures AclFor(Fallbacks(raw)) == AclFor(raw)
    ensures Get(WithAcl(Fallbacks(raw)), "BUCKET_ACL") == Some(AclFor(raw))
  {
    FallbacksKeep(raw, "LOCATION");
    FallbacksKeep(raw, "location");
    FallbacksKeep(raw, "BUCKET_ACL");
    FallbacksKeep(raw, "DEFAULT_ACL");
  }


  /** Lines 59-64 assign only the three new-style names. */
  /** One backward-compatible step changes no other name. */
  lemma {:induction false} FallbackOther(d: Dict, name: string, oldName: string, x: string)
    requires x != name
    ensures Get(Fallback(d, name, oldName), x) == Get(d, x)
  {
  }

  lemma {:induction false} FallbacksKeep(raw: Dict, x: string)
    requires x != "ACCESS_KEY" && x != "SECRET_KEY" && x != "BUCKET_NAME"
    ensures Get(Fallbacks(raw), x) == Get(raw, x)
  {
  }
}
