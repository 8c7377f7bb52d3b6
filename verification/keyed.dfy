/**
 Sequences of records looked at through an integer key, and the plain
 JavaScript object the server builds from such a sequence with
 `acc[key(x)] = x`: a later record overwrites an earlier one with the same key.
 */
module Keyed {
  import opened Optional

  /** Position i holds the last record of s with the key key(s[i]). */
  ghost predicate IsLastWithKey<T>(s: seq<T>, key: T -> int, i: int)
    requires 0 <= i < |s|
  {
    forall j :: i < j < |s| ==> key(s[j]) != key(s[i])
  }

  ghost predicate UniqueKeys<T>(s: seq<T>, key: T -> int)
  {
    forall i, j :: 0 <= i < j < |s| ==> key(s[i]) != key(s[j])
  }

  ghost predicate IncreasingKeys<T>(s: seq<T>, key: T -> int)
  {
    forall i, j :: 0 <= i < j < |s| ==> key(s[i]) < key(s[j])
  }

  /** The object built by folding s in order, each record written under its key (last write wins). */
  function IndexBy<T>(s: seq<T>, key: T -> int): (m: map<int, T>)
    ensures forall k :: k in m <==> exists i :: 0 <= i < |s| && key(s[i]) == k
    ensures forall i :: 0 <= i < |s| && IsLastWithKey(s, key, i) ==> key(s[i]) in m && m[key(s[i])] == s[i]
    decreases |s|
  {
    if |s| == 0 then map[]
    else
      var m := IndexBy(s[..|s| - 1], key);
      assert forall i :: 0 <= i < |s| - 1 ==> s[..|s| - 1][i] == s[i];
      IndexByStep(s, key, m);
      m[key(s[|s| - 1]) := s[|s| - 1]]
  }

  /** One write of the fold keeps both halves of the contract of IndexBy. */
  lemma IndexByStep<T>(s: seq<T>, key: T -> int, m: map<int, T>)
    requires |s| > 0
    requires forall k :: k in m <==> exists i :: 0 <= i < |s| - 1 && key(s[i]) == k
    requires forall i :: 0 <= i < |s| - 1 && IsLastWithKey(s[..|s| - 1], key, i) ==>
      key(s[i]) in m && m[key(s[i])] == s[i]
    ensures var m' := m[key(s[|s| - 1]) := s[|s| - 1]];
      && (forall k :: k in m' <==> exists i :: 0 <= i < |s| && key(s[i]) == k)
      && (forall i :: 0 <= i < |s| && IsLastWithKey(s, key, i) ==> key(s[i]) in m' && m'[key(s[i])] == s[i])
  {
    var init := s[..|s| - 1];
    var last := |s| - 1;
    var m' := m[key(s[last]) := s[last]];
    forall k
      ensures k in m' <==> exists i :: 0 <= i < |s| && key(s[i]) == k
    {
      if k in m' && k != key(s[last]) {
        var i :| 0 <= i < last && key(s[i]) == k;
      }
    }
    forall i | 0 <= i < |s| && IsLastWithKey(s, key, i)
      ensures key(s[i]) in m' && m'[key(s[i])] == s[i]
    {
      if i < last {
        assert key(s[last]) != key(s[i]);
        assert IsLastWithKey(init, key, i);
      }
    }
  }

  /** Reference search: the position of the last record of s whose key is k, scanning from the end. */
  function FindLast<T>(s: seq<T>, key: T -> int, k: int): (r: Option<nat>)
    ensures r.None? <==> forall i :: 0 <= i < |s| ==> key(s[i]) != k
    ensures r.Some? ==> r.value < |s| && key(s[r.value]) == k && IsLastWithKey(s, key, r.value)
    decreases |s|
  {
    if |s| == 0 then None
    else if key(s[|s| - 1]) == k then Some(|s| - 1)
    else
      var r := FindLast(s[..|s| - 1], key, k);
      assert forall i :: 0 <= i < |s| - 1 ==> s[..|s| - 1][i] == s[i];
      r
  }

  /** Looking a key up in the folded object agrees with the backward search. */
  lemma IndexByIsFindLast<T>(s: seq<T>, key: T -> int, k: int)
    ensures Get(IndexBy(s, key), k).Some? <==> FindLast(s, key, k).Some?
    ensures FindLast(s, key, k).Some? ==> Get(IndexBy(s, key), k) == Some(s[FindLast(s, key, k).value])
  {
  }
}
