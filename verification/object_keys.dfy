/**
 The key order of a plain JavaScript object, as `Object.keys` reports it:
 keys that are array indices (integers k with 0 <= k < 2^32 - 1) come first in
 ascending numeric order, every other key follows in the order it was first
 written (the OrdinaryOwnPropertyKeys rule of ECMAScript).
 */
module ObjectKeys {

  const ArrayIndexBound: int := 0x1_0000_0000 - 1

  predicate IsArrayIndex(k: int) { 0 <= k < ArrayIndexBound }

  predicate IsOtherKey(k: int) { !IsArrayIndex(k) }

  ghost predicate Distinct(s: seq<int>)
  {
    forall i, j :: 0 <= i < j < |s| ==> s[i] != s[j]
  }

  ghost predicate Increasing(s: seq<int>)
  {
    forall i, j :: 0 <= i < j < |s| ==> s[i] < s[j]
  }

  /** The position of the first occurrence of x in s. */
  function IndexOf(s: seq<int>, x: int): (p: nat)
    requires x in s
    ensures p < |s| && s[p] == x && x !in s[..p]
  {
    if s[0] == x then 0
    else
      var q := IndexOf(s[1..], x);
      assert s[..q + 1] == [s[0]] + s[1..][..q];
      q + 1
  }

  lemma IndexOfUnique(s: seq<int>, x: int, p: nat)
    requires p < |s| && s[p] == x && x !in s[..p]
    ensures IndexOf(s, x) == p
  {
  }

  /** Appending an element leaves the first positions of the earlier elements alone. */
  lemma IndexOfAppend(s: seq<int>, y: int)
    ensures forall x :: x in s ==> IndexOf(s + [y], x) == IndexOf(s, x)
    ensures y !in s ==> IndexOf(s + [y], y) == |s|
  {
    forall x | x in s
      ensures IndexOf(s + [y], x) == IndexOf(s, x)
    {
      var p := IndexOf(s, x);
      assert (s + [y])[..p] == s[..p];
      IndexOfUnique(s + [y], x, p);
    }
    if y !in s {
      assert (s + [y])[..|s|] == s;
      IndexOfUnique(s + [y], y, |s|);
    }
  }

  /** The keys of an object written with the keys xs in turn, in first-write order. */
  function FirstOccurrences(xs: seq<int>): (r: seq<int>)
    ensures Distinct(r)
    ensures forall x :: x in r <==> x in xs
    ensures forall i, j :: 0 <= i < j < |r| ==> IndexOf(xs, r[i]) < IndexOf(xs, r[j])
    decreases |xs|
  {
    if |xs| == 0 then []
    else
      var init, x := xs[..|xs| - 1], xs[|xs| - 1];
      var r := FirstOccurrences(init);
      assert xs == init + [x];
      IndexOfAppend(init, x);
      if x in r then r else r + [x]
  }

  function Filter(s: seq<int>, p: int -> bool): (r: seq<int>)
    ensures forall x :: x in r <==> x in s && p(x)
    ensures Distinct(s) ==> Distinct(r)
    ensures Distinct(s) ==> forall i, j :: 0 <= i < j < |r| ==> IndexOf(s, r[i]) < IndexOf(s, r[j])
    decreases |s|
  {
    if |s| == 0 then []
    else
      var init, x := s[..|s| - 1], s[|s| - 1];
      var r := Filter(init, p);
      assert s == init + [x];
      IndexOfAppend(init, x);
      assert Distinct(s) ==> Distinct(init) && x !in init by {
        if Distinct(s) {
          forall y | y in init ensures y != x {
            var k :| 0 <= k < |init| && init[k] == y;
            assert s[k] == y;
          }
        }
      }
      if p(x) then r + [x] else r
  }

  function InsertAscending(x: int, s: seq<int>): (r: seq<int>)
    requires Increasing(s) && x !in s
    ensures Increasing(r)
    ensures forall y :: y in r <==> y in s || y == x
    ensures |r| == |s| + 1
    decreases |s|
  {
    if |s| == 0 then [x]
    else if x < s[0] then [x] + s
    else
      var rest := InsertAscending(x, s[1..]);
      assert forall y :: y in rest ==> s[0] < y by {
        forall y | y in s[1..] ensures s[0] < y {
          var k :| 0 <= k < |s| - 1 && s[1..][k] == y;
          assert s[k + 1] == y;
        }
      }
      var r := [s[0]] + rest;
      assert forall y :: y in s <==> y == s[0] || y in s[1..] by {
        assert s == [s[0]] + s[1..];
      }
      assert Increasing(r) by {
        forall i, j | 0 <= i < j < |r| ensures r[i] < r[j] {
          assert r[j] == rest[j - 1] && rest[j - 1] in rest;
          if i > 0 {
            assert r[i] == rest[i - 1];
          }
        }
      }
      r
  }

  function SortAscending(s: seq<int>): (r: seq<int>)
    requires Distinct(s)
    ensures Increasing(r)
    ensures forall y :: y in r <==> y in s
    ensures |r| == |s|
    decreases |s|
  {
    if |s| == 0 then []
    else
      var init, x := s[..|s| - 1], s[|s| - 1];
      assert s == init + [x];
      assert x !in init by {
        forall y | y in init ensures y != x {
          var k :| 0 <= k < |init| && init[k] == y;
          assert s[k] == y;
        }
      }
      InsertAscending(x, SortAscending(init))
  }

  /** `Object.keys` of an object whose distinct keys were first written in the order keys. */
  function OwnKeys(keys: seq<int>): (r: seq<int>)
    requires Distinct(keys)
    ensures |r| == |keys|
    ensures forall k :: k in r <==> k in keys
    ensures Distinct(r)
    ensures forall i, j :: 0 <= i < j < |r| && IsArrayIndex(r[j]) ==> IsArrayIndex(r[i]) && r[i] < r[j]
    ensures forall i, j :: 0 <= i < j < |r| && IsOtherKey(r[i]) && IsOtherKey(r[j]) ==>
      IndexOf(keys, r[i]) < IndexOf(keys, r[j])
  {
    var indices := SortAscending(Filter(keys, IsArrayIndex));
    var others := Filter(keys, IsOtherKey);
    OwnKeysShape(keys, indices, others);
    indices + others
  }

  lemma OwnKeysShape(keys: seq<int>, indices: seq<int>, others: seq<int>)
    requires Distinct(keys)
    requires indices == SortAscending(Filter(keys, IsArrayIndex))
    requires others == Filter(keys, IsOtherKey)
    ensures var r := indices + others;
      && |r| == |keys|
      && (forall k :: k in r <==> k in keys)
      && Distinct(r)
      && (forall i, j :: 0 <= i < j < |r| && IsArrayIndex(r[j]) ==> IsArrayIndex(r[i]) && r[i] < r[j])
      && (forall i, j :: 0 <= i < j < |r| && IsOtherKey(r[i]) && IsOtherKey(r[j]) ==>
            IndexOf(keys, r[i]) < IndexOf(keys, r[j]))
  {
    PartitionSize(keys);
    ConcatOrdered(indices, others, keys);
  }

  /** Ascending array indices followed by distinct other keys, listed in first-write order. */
  lemma ConcatOrdered(indices: seq<int>, others: seq<int>, keys: seq<int>)
    requires Increasing(indices) && forall k :: k in indices ==> IsArrayIndex(k)
    requires Distinct(others) && forall k :: k in others ==> IsOtherKey(k) && k in keys
    requires forall i, j :: 0 <= i < j < |others| ==> IndexOf(keys, others[i]) < IndexOf(keys, others[j])
    ensures var r := indices + others;
      && Distinct(r)
      && (forall i, j :: 0 <= i < j < |r| && IsArrayIndex(r[j]) ==> IsArrayIndex(r[i]) && r[i] < r[j])
      && (forall i, j :: 0 <= i < j < |r| && IsOtherKey(r[i]) && IsOtherKey(r[j]) ==>
            IndexOf(keys, r[i]) < IndexOf(keys, r[j]))
  {
    var r := indices + others;
    var n := |indices|;
    forall i | 0 <= i < |r|
      ensures i < n ==> r[i] == indices[i] && IsArrayIndex(r[i])
      ensures n <= i ==> r[i] == others[i - n] && IsOtherKey(r[i])
    {
      if i < n {
        assert indices[i] in indices;
      } else {
        assert others[i - n] in others;
      }
    }
  }

  /**
   `Object.keys` of an object after writes under the keys writes, in turn:
   each key once, array indices first and ascending, then the other keys by
   their first write.
   */
  function KeysAfterWrites(writes: seq<int>): (r: seq<int>)
    ensures forall k :: k in r <==> k in writes
    ensures Distinct(r)
    ensures forall i, j :: 0 <= i < j < |r| && IsArrayIndex(r[j]) ==> IsArrayIndex(r[i]) && r[i] < r[j]
    ensures forall i, j :: 0 <= i < j < |r| && IsOtherKey(r[i]) && IsOtherKey(r[j]) ==>
      r[i] in writes && r[j] in writes && IndexOf(writes, r[i]) < IndexOf(writes, r[j])
  {
    var first := FirstOccurrences(writes);
    var r := OwnKeys(first);
    forall i, j | 0 <= i < j < |r| && IsOtherKey(r[i]) && IsOtherKey(r[j])
      ensures IndexOf(writes, r[i]) < IndexOf(writes, r[j])
    {
      var a, b := IndexOf(first, r[i]), IndexOf(first, r[j]);
      assert first[a] == r[i] && first[b] == r[j];
    }
    r
  }

  /** Every key of a duplicate-free sequence is either an array index or not, never both. */
  lemma {:induction false} PartitionSize(keys: seq<int>)
    requires Distinct(keys)
    ensures |Filter(keys, IsArrayIndex)| + |Filter(keys, IsOtherKey)| == |keys|
    decreases |keys|
  {
    if |keys| > 0 {
      var init := keys[..|keys| - 1];
      assert Distinct(init) by {
        forall i, j | 0 <= i < j < |init| ensures init[i] != init[j] { assert init[i] == keys[i] && init[j] == keys[j]; }
      }
      PartitionSize(init);
    }
  }
}
