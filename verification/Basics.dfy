/** Small notions that several models share. */
module Basics {

  datatype Option<T> = None | Some(value: T)

  type byte = x: int | 0 <= x < 256

  /** The size of an mbuf, and of a cluster. */
  const MSIZE := 256
  const MCLBYTES := 2048

  function Min(a: nat, b: nat): nat { if a < b then a else b }

  /** A tally, 0 where nothing is entered. */
  function Get<K(==)>(m: map<K, nat>, k: K): nat { if k in m then m[k] else 0 }

  ghost predicate Distinct<T>(s: seq<T>) { forall i, j :: 0 <= i < j < |s| ==> s[i] != s[j] }

  /** The list without the first c in it. */
  function Without<T(==)>(list: seq<T>, c: T): seq<T> {
    if list == [] then [] else if list[0] == c then list[1..] else [list[0]] + Without(list[1..], c)
  }

  lemma {:induction false} WithoutAt<T>(list: seq<T>, k: nat)
    requires k < |list| && Distinct(list)
    ensures Without(list, list[k]) == list[..k] + list[k + 1..]
  {
    if k > 0 {
      WithoutAt(list[1..], k - 1);
      assert list[1..][..k - 1] == list[1..k] && list[1..][k..] == list[k + 1..];
      assert list[..k] == [list[0]] + list[1..k];
    }
  }

  lemma {:induction false} WithoutAbsent<T>(list: seq<T>, c: T)
    requires c !in list
    ensures Without(list, c) == list
  {
    if list != [] { WithoutAbsent(list[1..], c); }
  }

  lemma {:induction false} WithoutIs<T>(list: seq<T>, c: T)
    requires Distinct(list)
    ensures Distinct(Without(list, c)) && forall x :: x in Without(list, c) <==> x in list && x != c
    ensures |Without(list, c)| == |list| - if c in list then 1 else 0
  {
    if c in list {
      var k :| 0 <= k < |list| && list[k] == c;
      WithoutAt(list, k);
      forall x ensures x in Without(list, c) <==> x in list && x != c {
        if x in list && x != c {
          var i :| 0 <= i < |list| && list[i] == x;
          assert x == if i < k then list[..k][i] else list[k + 1..][i - k - 1];
        }
      }
    } else {
      WithoutAbsent(list, c);
    }
  }

  lemma {:induction false} WithoutFrom<T>(list: seq<T>, c: T, x: T)
    requires x in Without(list, c)
    ensures x in list
  {
    if list != [] && list[0] != c && x != list[0] { WithoutFrom(list[1..], c, x); }
  }
}
