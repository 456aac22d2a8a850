/**
 * The culling selection of `_cull` (the `doomed` list): which of the
 * listed keys are batch-deleted when the cache is at its maximum size.
 */
module Culling {
  import opened ObjectStore

  /**
   * The listed keys whose position is a multiple of the frequency, in
   * listing order.  A remainder of zero means the same for Python's floored
   * `%` as for Dafny's Euclidean one, so a negative frequency selects the
   * same positions as its absolute value.
   */
  function EveryNth<T>(keylist: seq<T>, frequency: int): (r: seq<T>)
    requires frequency != 0
    ensures |r| <= |keylist|
    decreases |keylist|
  {
    if keylist == [] then []
    else
      var last := |keylist| - 1;
      EveryNth(keylist[..last], frequency) + (if last % frequency == 0 then [keylist[last]] else [])
  }

  /** `doomed`: the whole listing for frequency 0, otherwise every `frequency`-th listed key. */
  function Doomed<T>(keylist: seq<T>, frequency: int): (r: seq<T>)
    ensures |r| <= |keylist|
  {
    if frequency == 0 then keylist else EveryNth(keylist, frequency)
  }

  lemma MulAtLeast(a: int, n: int)
    requires a >= 1 && n > 0
    ensures a * n >= n
  {
  }

  /** Euclidean division is unique: a quotient and remainder in range are the ones `/` and `%` give. */
  lemma DivModUnique(x: int, q: int, r: int, n: int)
    requires n > 0 && 0 <= r < n && x == q * n + r
    ensures x / n == q && x % n == r
  {
    var q', r' := x / n, x % n;
    assert x == q' * n + r';
    assert (q' - q) * n == r - r';
    if q' > q {
      MulAtLeast(q' - q, n);
    } else if q' < q {
      MulAtLeast(q - q', n);
    }
  }

  /** How the count ceil(m / n) of multiples of n below m grows when m grows by one. */
  lemma DivisionStep(m: nat, n: int)
    requires n > 0
    ensures m % n == 0 ==> (m + n - 1) / n + 1 == (m + n) / n && ((m + n - 1) / n) * n == m
    ensures m % n != 0 ==> (m + n - 1) / n == (m + n) / n
  {
    var q, r := m / n, m % n;
    assert m == q * n + r;
    if r == 0 {
      DivModUnique(m + n - 1, q, n - 1, n);
      DivModUnique(m + n, q + 1, 0, n);
    } else {
      DivModUnique(m + n - 1, q + 1, r - 1, n);
      DivModUnique(m + n, q + 1, r, n);
    }
  }

  /**
   * With frequency N > 0 the selection is the listed keys at positions
   * 0, N, 2N, ... in listing order: ceil(|keylist| / N) of them, the j-th
   * being the key at position j * N.
   */
  lemma {:induction false} EveryNthPositions<T>(keylist: seq<T>, n: int)
    requires n > 0
    ensures |EveryNth(keylist, n)| == (|keylist| + n - 1) / n
    ensures forall j :: 0 <= j < |EveryNth(keylist, n)| ==>
              0 <= j * n < |keylist| && EveryNth(keylist, n)[j] == keylist[j * n]
  {
    if keylist != [] {
      var last := |keylist| - 1;
      var front := keylist[..last];
      EveryNthPositions(front, n);
      DivisionStep(last, n);
      var e := EveryNth(front, n);
      var r := EveryNth(keylist, n);
      var c := |e|;
      assert c == (last + n - 1) / n;
      if last % n == 0 {
        assert r == e + [keylist[last]];
        assert c * n == last;
      } else {
        assert r == e;
      }
      forall j | 0 <= j < |r| ensures 0 <= j * n < |keylist| && r[j] == keylist[j * n] {
        var k := j * n;
        if j < c {
          assert 0 <= k < |front| && e[j] == front[k];
          assert r[j] == e[j];
        } else {
          assert j == c && k == last && r[j] == keylist[last];
        }
      }
    }
  }

  /**
   * For a listing without repeats (as a bucket listing is), the key at
   * position i is doomed exactly when the frequency is 0 or divides i; every
   * other listed key survives the cull.
   */
  lemma {:induction false} DoomedAt<T>(keylist: seq<T>, frequency: int, i: int)
    requires Distinct(keylist) && 0 <= i < |keylist|
    ensures keylist[i] in Doomed(keylist, frequency) <==> frequency == 0 || i % frequency == 0
  {
    if frequency != 0 {
      var last := |keylist| - 1;
      var front := keylist[..last];
      assert Distinct(front);
      EveryNthMembers(front, frequency);
      if i < last {
        DoomedAt(front, frequency, i);
        assert keylist[i] != keylist[last];
      } else {
        assert keylist[last] !in front;
      }
    }
  }

  /** Only listed keys are selected. */
  lemma {:induction false} EveryNthMembers<T>(keylist: seq<T>, frequency: int)
    requires frequency != 0
    ensures forall x :: x in EveryNth(keylist, frequency) ==> x in keylist
  {
    if keylist != [] {
      var last := |keylist| - 1;
      EveryNthMembers(keylist[..last], frequency);
      assert keylist == keylist[..last] + [keylist[last]];
    }
  }

  /** A listing without repeats yields a selection without repeats. */
  lemma {:induction false} EveryNthDistinct<T>(keylist: seq<T>, frequency: int)
    requires frequency != 0 && Distinct(keylist)
    ensures Distinct(EveryNth(keylist, frequency))
  {
    if keylist != [] {
      var last := |keylist| - 1;
      var front := keylist[..last];
      assert Distinct(front);
      EveryNthDistinct(front, frequency);
      EveryNthMembers(front, frequency);
      assert keylist[last] !in front;
    }
  }

  /** The two selections the test suite pins down (tests/tests.py:253-282). */
  lemma DoomedExamples()
    ensures Doomed([1, 2, 3, 4, 5, 6, 7, 8, 9, 0], 3) == [1, 4, 7, 0]
    ensures Doomed([1, 2, 3, 5, 6, 7, 8, 9, 0], 0) == [1, 2, 3, 5, 6, 7, 8, 9, 0]
  {
    var keylist := [1, 2, 3, 4, 5, 6, 7, 8, 9, 0];
    EveryNthPositions(keylist, 3);
    var r := Doomed(keylist, 3);
    assert |r| == 4;
    assert r[0] == keylist[0] && r[1] == keylist[3] && r[2] == keylist[6] && r[3] == keylist[9];
  }
}
