/** Shared vocabulary: optional values, results, the rounding the database and
    Python apply, sums and means of real sequences, and the largest / smallest
    element of a finite set of integers (MAX(date), ORDER BY date DESC LIMIT 1). */
module Common {

  datatype Option<+T> = None | Some(value: T)

  datatype Result<+R, +E> = Ok(value: R) | Err(error: E)

  // ---------------------------------------------------------------------------
  // Rounding

  /** 10^p as a real. */
  function Pow10(p: nat): (r: real)
    ensures r >= 1.0
  {
    if p == 0 then 1.0 else 10.0 * Pow10(p - 1)
  }

  /** Rounding to the nearest integer, ties away from zero (SQLite's ROUND). */
  function RoundInt(x: real): (r: int)
    ensures x - 0.5 <= r as real <= x + 0.5
  {
    if x >= 0.0 then (x + 0.5).Floor else -((-x + 0.5).Floor)
  }

  lemma FloorMonotone(a: real, b: real)
    requires a <= b
    ensures a.Floor <= b.Floor
  {
  }

  /** Rounding never reverses the order of two values. */
  lemma RoundIntMonotone(x: real, y: real)
    requires x <= y
    ensures RoundInt(x) <= RoundInt(y)
  {
    if x >= 0.0 {
      FloorMonotone(x + 0.5, y + 0.5);
    } else if y >= 0.0 {
      assert RoundInt(x) <= 0 <= RoundInt(y);
    } else {
      FloorMonotone(-y + 0.5, -x + 0.5);
    }
  }

  /** An integer is left as it is. */
  lemma RoundIntExact(n: int)
    ensures RoundInt(n as real) == n
  {
  }

  /** Rounding to the nearest multiple of 1 / scale. */
  function RoundScaled(x: real, scale: real): (r: real)
    requires scale >= 1.0
    ensures x - 0.5 / scale <= r <= x + 0.5 / scale
  {
    var n := RoundInt(x * scale);
    DivideBounds(x * scale, n as real, scale);
    n as real / scale
  }

  /** round(x, p), ROUND(x, p): rounding to p decimal places. */
  function RoundTo(x: real, p: nat): (r: real)
    ensures x - 0.5 / Pow10(p) <= r <= x + 0.5 / Pow10(p)
  {
    RoundScaled(x, Pow10(p))
  }

  lemma DivideBounds(y: real, n: real, scale: real)
    requires scale >= 1.0
    requires y - 0.5 <= n <= y + 0.5
    ensures y / scale - 0.5 / scale <= n / scale <= y / scale + 0.5 / scale
  {
  }

  /** Rounding to p places never reverses the order of two values. */
  lemma RoundToMonotone(x: real, y: real, p: nat)
    requires x <= y
    ensures RoundTo(x, p) <= RoundTo(y, p)
  {
    RoundScaledMonotone(x, y, Pow10(p));
  }

  lemma RoundScaledMonotone(x: real, y: real, scale: real)
    requires x <= y && scale >= 1.0
    ensures RoundScaled(x, scale) <= RoundScaled(y, scale)
  {
    MultiplyMonotone(x, y, scale);
    RoundIntMonotone(x * scale, y * scale);
    DivideMonotone(RoundInt(x * scale) as real, RoundInt(y * scale) as real, scale);
  }

  lemma MultiplyMonotone(x: real, y: real, scale: real)
    requires x <= y && scale >= 0.0
    ensures x * scale <= y * scale
  {
  }

  lemma DivideMonotone(a: real, b: real, scale: real)
    requires a <= b && scale > 0.0
    ensures a / scale <= b / scale
  {
  }

  /** A whole number is left as it is at any number of decimal places. */
  lemma RoundToWhole(n: int, p: nat)
    ensures RoundTo(n as real, p) == n as real
  {
    PowIsWhole(p);
    RoundScaledWhole(n, Pow10(p).Floor);
  }

  lemma RoundScaledWhole(n: int, f: int)
    requires f >= 1
    ensures RoundScaled(n as real, f as real) == n as real
  {
    var k := n * f;
    var x, s := n as real, f as real;
    assert x * s == k as real;
    RoundIntExact(k);
    assert RoundInt(x * s) == k;
    assert k as real / s == x;
    RoundScaledValue(x, s);
  }

  lemma RoundScaledValue(x: real, scale: real)
    requires scale >= 1.0
    ensures RoundScaled(x, scale) == RoundInt(x * scale) as real / scale
  {
  }

  lemma {:induction false} PowIsWhole(p: nat)
    ensures Pow10(p) == Pow10(p).Floor as real
  {
    if p > 0 {
      PowIsWhole(p - 1);
      var f := Pow10(p - 1).Floor;
      assert Pow10(p) == (10 * f) as real;
    }
  }

  /** Python's int() on a float: truncation toward zero. */
  function TruncToInt(x: real): (r: int)
    ensures x >= 0.0 ==> 0.0 <= r as real <= x < r as real + 1.0
    ensures x < 0.0 ==> r as real - 1.0 < x <= r as real <= 0.0
  {
    if x >= 0.0 then x.Floor else -((-x).Floor)
  }

  // ---------------------------------------------------------------------------
  // Sums and means

  function Sum(s: seq<real>): real
  {
    if s == [] then 0.0 else Sum(s[..|s| - 1]) + s[|s| - 1]
  }

  /** The arithmetic mean of a non-empty sequence (pandas' mean, SQL's AVG). */
  function Mean(s: seq<real>): real
    requires |s| > 0
  {
    Sum(s) / |s| as real
  }

  /** A sequence of n copies of c sums to n * c. */
  lemma {:induction false} SumConstant(s: seq<real>, c: real)
    requires forall i :: 0 <= i < |s| ==> s[i] == c
    ensures Sum(s) == |s| as real * c
  {
    if s != [] {
      SumConstant(s[..|s| - 1], c);
    }
  }

  /** The sum is bounded by the smallest and the largest term. */
  lemma {:induction false} SumBounds(s: seq<real>, lo: real, hi: real)
    requires forall i :: 0 <= i < |s| ==> lo <= s[i] <= hi
    ensures |s| as real * lo <= Sum(s) <= |s| as real * hi
  {
    if s != [] {
      SumBounds(s[..|s| - 1], lo, hi);
    }
  }

  /** A sum of positive terms is positive. */
  lemma {:induction false} SumPositive(s: seq<real>)
    requires |s| > 0
    requires forall i :: 0 <= i < |s| ==> s[i] > 0.0
    ensures Sum(s) > 0.0
  {
    if |s| > 1 {
      SumPositive(s[..|s| - 1]);
    }
  }

  /** The mean lies between the smallest and the largest term. */
  lemma MeanBounds(s: seq<real>, lo: real, hi: real)
    requires |s| > 0
    requires forall i :: 0 <= i < |s| ==> lo <= s[i] <= hi
    ensures lo <= Mean(s) <= hi
  {
    SumBounds(s, lo, hi);
    var n := |s| as real;
    assert n * lo <= Sum(s) <= n * hi;
    assert lo == (n * lo) / n;
    assert hi == (n * hi) / n;
  }

  /** The mean of n copies of c is c. */
  lemma MeanConstant(s: seq<real>, c: real)
    requires |s| > 0
    requires forall i :: 0 <= i < |s| ==> s[i] == c
    ensures Mean(s) == c
  {
    SumConstant(s, c);
  }

  lemma MeanPositive(s: seq<real>)
    requires |s| > 0
    requires forall i :: 0 <= i < |s| ==> s[i] > 0.0
    ensures Mean(s) > 0.0
  {
    SumPositive(s);
  }

  // ---------------------------------------------------------------------------
  // Finite sets

  /** A subset is no larger than its superset. */
  lemma SubsetCard<T>(a: set<T>, b: set<T>)
    requires a <= b
    ensures |a| <= |b|
  {
    assert b == a + (b - a);
    assert a * (b - a) == {};
  }

  /** Some element of a non-empty set. */
  lemma PickElement<T>(s: set<T>) returns (x: T)
    requires s != {}
    ensures x in s
  {
    x :| x in s;
  }

  lemma {:induction false} MaxExists(s: set<int>)
    requires s != {}
    ensures exists m :: m in s && forall x :: x in s ==> x <= m
  {
    var y := PickElement(s);
    var rest := s - {y};
    if rest == {} {
      assert s == {y};
    } else {
      MaxExists(rest);
      var m :| m in rest && forall x :: x in rest ==> x <= m;
      var top := if y > m then y else m;
      assert top in s;
      assert forall x :: x in s ==> x == y || x in rest;
      assert forall x :: x in s ==> x <= top;
    }
  }

  lemma {:induction false} MinExists(s: set<int>)
    requires s != {}
    ensures exists m :: m in s && forall x :: x in s ==> m <= x
  {
    var y := PickElement(s);
    var rest := s - {y};
    if rest == {} {
      assert s == {y};
    } else {
      MinExists(rest);
      var m :| m in rest && forall x :: x in rest ==> m <= x;
      var bottom := if y < m then y else m;
      assert bottom in s;
      assert forall x :: x in s ==> x == y || x in rest;
      assert forall x :: x in s ==> bottom <= x;
    }
  }

  /** The largest element (SQL MAX over a non-empty column). */
  function MaxOf(s: set<int>): (m: int)
    requires s != {}
    ensures m in s && forall x :: x in s ==> x <= m
  {
    MaxExists(s);
    var m :| m in s && forall x :: x in s ==> x <= m;
    m
  }

  /** The smallest element. */
  function MinOf(s: set<int>): (m: int)
    requires s != {}
    ensures m in s && forall x :: x in s ==> m <= x
  {
    MinExists(s);
    var m :| m in s && forall x :: x in s ==> m <= x;
    m
  }

  /** The elements of a finite set of integers in ascending order. */
  function SortedAsc(s: set<int>): (r: seq<int>)
    ensures |r| == |s|
    ensures forall x :: x in r <==> x in s
    ensures forall i, j :: 0 <= i < j < |r| ==> r[i] < r[j]
    decreases s
  {
    if s == {} then []
    else
      var m := MinOf(s);
      var rest := SortedAsc(s - {m});
      assert forall x :: x in rest ==> m < x;
      PrependSorted(m, rest);
      [m] + rest
  }

  lemma PrependSorted(m: int, rest: seq<int>)
    requires forall i, j :: 0 <= i < j < |rest| ==> rest[i] < rest[j]
    requires forall x :: x in rest ==> m < x
    ensures forall x :: x in [m] + rest <==> x == m || x in rest
    ensures forall i, j :: 0 <= i < j < |[m] + rest| ==> ([m] + rest)[i] < ([m] + rest)[j]
  {
    var r := [m] + rest;
    assert forall i :: 1 <= i < |r| ==> r[i] == rest[i - 1] && r[i] in rest;
  }

  // ---------------------------------------------------------------------------
  // Maps

  /** Two maps with the same keys and the same value at every key are equal. */
  lemma MapExtensional<K, V>(a: map<K, V>, b: map<K, V>)
    requires a.Keys == b.Keys
    requires forall k :: k in a ==> a[k] == b[k]
    ensures a == b
  {
  }

  /** The keys a batch of upserts writes. */
  function BatchKeys<K, V>(kvs: seq<(K, V)>): set<K>
  {
    if kvs == [] then {} else {kvs[0].0} + BatchKeys(kvs[1..])
  }

  /** The batch keys are exactly the keys of its entries. */
  lemma {:induction false} BatchKeysMembers<K, V>(kvs: seq<(K, V)>, k: K)
    ensures k in BatchKeys(kvs) <==> exists i :: 0 <= i < |kvs| && kvs[i].0 == k
  {
    if kvs != [] {
      BatchKeysMembers(kvs[1..], k);
      if exists i :: 0 <= i < |kvs| && kvs[i].0 == k {
        var i :| 0 <= i < |kvs| && kvs[i].0 == k;
        if i > 0 {
          assert kvs[1..][i - 1].0 == k;
        }
      }
      if exists i :: 0 <= i < |kvs| - 1 && kvs[1..][i].0 == k {
        var i :| 0 <= i < |kvs| - 1 && kvs[1..][i].0 == k;
        assert kvs[i + 1].0 == k;
      }
    }
  }

  /** A batch of `INSERT ... ON CONFLICT DO UPDATE` statements applied in
      order, each of which replaces the whole row. */
  function UpsertAll<K, V>(t: map<K, V>, kvs: seq<(K, V)>): (r: map<K, V>)
    ensures r.Keys == t.Keys + BatchKeys(kvs)
    decreases |kvs|
  {
    if kvs == [] then t
    else UpsertAll(t[kvs[0].0 := kvs[0].1], kvs[1..])
  }

  /** A key the batch does not mention keeps its row. */
  lemma {:induction false} UpsertAllUntouched<K, V>(t: map<K, V>, kvs: seq<(K, V)>, k: K)
    requires k in t
    requires forall i :: 0 <= i < |kvs| ==> kvs[i].0 != k
    ensures k in UpsertAll(t, kvs) && UpsertAll(t, kvs)[k] == t[k]
    decreases |kvs|
  {
    if kvs != [] {
      var t1 := t[kvs[0].0 := kvs[0].1];
      assert forall i :: 0 <= i < |kvs| - 1 ==> kvs[1..][i] == kvs[i + 1];
      UpsertAllUntouched(t1, kvs[1..], k);
    }
  }

  /** A key ends up with the value of its last occurrence in the batch. */
  lemma {:induction false} UpsertAllLast<K, V>(t: map<K, V>, kvs: seq<(K, V)>, i: nat)
    requires i < |kvs|
    requires forall j :: i < j < |kvs| ==> kvs[j].0 != kvs[i].0
    ensures kvs[i].0 in UpsertAll(t, kvs) && UpsertAll(t, kvs)[kvs[i].0] == kvs[i].1
    decreases |kvs|
  {
    var t1 := t[kvs[0].0 := kvs[0].1];
    var rest := kvs[1..];
    assert forall j :: 0 <= j < |rest| ==> rest[j] == kvs[j + 1];
    if i == 0 {
      UpsertAllUntouched(t1, rest, kvs[0].0);
    } else {
      UpsertAllLast(t1, rest, i - 1);
    }
  }
}
