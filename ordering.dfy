/** `ORDER BY key DESC` and `LIMIT n` over a set of result rows. The database
    gives no order among rows with equal keys, so the sort is a ghost function
    that picks one of the admissible orders. */
module Ordering {
  import opened Common

  /** SQL's order on a nullable number: NULL sorts below every value. */
  predicate KeyLe(a: Option<int>, b: Option<int>)
  {
    a.None? || (b.Some? && a.value <= b.value)
  }

  lemma KeyLeTotal(a: Option<int>, b: Option<int>)
    ensures KeyLe(a, b) || KeyLe(b, a)
  {
  }

  lemma KeyLeTransitive(a: Option<int>, b: Option<int>, c: Option<int>)
    requires KeyLe(a, b) && KeyLe(b, c)
    ensures KeyLe(a, c)
  {
  }

  ghost predicate SortedDesc<T>(r: seq<T>, key: T -> Option<int>)
  {
    forall i, j :: 0 <= i < j < |r| ==> KeyLe(key(r[j]), key(r[i]))
  }

  ghost predicate Distinct<T>(r: seq<T>)
  {
    forall i, j :: 0 <= i < j < |r| ==> r[i] != r[j]
  }

  /** A non-empty finite set has an element whose key is not below any other. */
  lemma {:induction false} TopExists<T>(s: set<T>, key: T -> Option<int>)
    requires s != {}
    ensures exists x :: x in s && forall y :: y in s ==> KeyLe(key(y), key(x))
  {
    var y := PickElement(s);
    var rest := s - {y};
    if rest == {} {
      assert s == {y};
    } else {
      TopExists(rest, key);
      var m :| m in rest && forall z :: z in rest ==> KeyLe(key(z), key(m));
      var top := if KeyLe(key(m), key(y)) then y else m;
      assert top in s;
      forall z | z in s
        ensures KeyLe(key(z), key(top))
      {
        if z != y {
          assert z in rest;
          KeyLeTotal(key(m), key(y));
          if top == y { KeyLeTransitive(key(z), key(m), key(y)); }
        } else {
          KeyLeTotal(key(m), key(y));
        }
      }
    }
  }

  /** The rows of `s` in descending key order, ties in an unspecified order. */
  ghost function SortDesc<T(!new)>(s: set<T>, key: T -> Option<int>): (r: seq<T>)
    ensures |r| == |s|
    ensures forall x :: x in r <==> x in s
    ensures Distinct(r)
    ensures SortedDesc(r, key)
    decreases s
  {
    if s == {} then []
    else
      TopExists(s, key);
      var x :| x in s && forall y :: y in s ==> KeyLe(key(y), key(x));
      var rest := SortDesc(s - {x}, key);
      PrependTop(x, rest, s - {x}, key);
      [x] + rest
  }

  /** Putting an element whose key is not below any key of `rest` in front of
      a sorted, duplicate-free listing of `rest` keeps it sorted and
      duplicate-free. */
  lemma PrependTop<T>(x: T, rest: seq<T>, others: set<T>, key: T -> Option<int>)
    requires x !in others
    requires forall y :: y in rest <==> y in others
    requires forall y :: y in others ==> KeyLe(key(y), key(x))
    requires Distinct(rest) && SortedDesc(rest, key)
    ensures forall y :: y in [x] + rest <==> y == x || y in others
    ensures Distinct([x] + rest) && SortedDesc([x] + rest, key)
  {
    var r := [x] + rest;
    assert forall i :: 1 <= i < |r| ==> r[i] == rest[i - 1] && r[i] in others;
  }

  /** `ORDER BY key DESC LIMIT n`: the first n rows of the descending order. */
  ghost function TopRows<T(!new)>(s: set<T>, key: T -> Option<int>, n: nat): (r: seq<T>)
    ensures |r| == if |s| < n then |s| else n
    ensures forall x :: x in r ==> x in s
    ensures Distinct(r)
    ensures SortedDesc(r, key)
    ensures forall x, i :: x in s && x !in r && 0 <= i < |r| ==> KeyLe(key(x), key(r[i]))
  {
    var all := SortDesc(s, key);
    var r := if |all| <= n then all else all[..n];
    assert forall x :: x in r ==> x in all;
    forall x, i | x in s && x !in r && 0 <= i < |r|
      ensures KeyLe(key(x), key(r[i]))
    {
      var j :| 0 <= j < |all| && all[j] == x;
    }
    r
  }

  /** `ORDER BY rank DESC LIMIT n` on a non-nullable integer column. */
  ghost function TopRowsBy<T(!new)>(s: set<T>, rank: T -> int, n: nat): (r: seq<T>)
    ensures |r| == if |s| < n then |s| else n
    ensures forall x :: x in r ==> x in s
    ensures forall i, j :: 0 <= i < j < |r| ==> rank(r[j]) <= rank(r[i])
    ensures forall x, i :: x in s && x !in r && 0 <= i < |r| ==> rank(x) <= rank(r[i])
  {
    var key := (x: T) => Some(rank(x));
    var r := TopRows(s, key, n);
    assert forall x :: key(x) == Some(rank(x));
    r
  }
}
