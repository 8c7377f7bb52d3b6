/** Order-preserving selection: a is obtained from b by deleting elements. */
module Subsequences {
  import opened Keyed

  predicate IsSubseq<T(==)>(a: seq<T>, b: seq<T>)
    decreases |b|
  {
    if |a| == 0 then true
    else if |b| == 0 then false
    else (a[0] == b[0] && IsSubseq(a[1..], b[1..])) || IsSubseq(a, b[1..])
  }

  lemma {:induction false} SubseqRefl<T>(s: seq<T>)
    ensures IsSubseq(s, s)
    decreases |s|
  {
    if |s| > 0 {
      SubseqRefl(s[1..]);
    }
  }

  lemma {:induction false} SubseqMembers<T>(a: seq<T>, b: seq<T>)
    requires IsSubseq(a, b)
    ensures forall x :: x in a ==> x in b
    decreases |b|
  {
    if |a| > 0 {
      if a[0] == b[0] && IsSubseq(a[1..], b[1..]) {
        SubseqMembers(a[1..], b[1..]);
        assert forall x :: x in a ==> x == a[0] || x in a[1..];
      } else {
        SubseqMembers(a, b[1..]);
      }
    }
  }

  /** Putting more elements in front of the larger sequence keeps the relation. */
  lemma {:induction false} SubseqPrepend<T>(a: seq<T>, front: seq<T>, b: seq<T>)
    requires IsSubseq(a, b)
    ensures IsSubseq(a, front + b)
    decreases |front|
  {
    if |front| > 0 {
      SubseqPrepend(a, front[1..], b);
      assert (front + b)[1..] == front[1..] + b;
      assert IsSubseq(a, (front + b)[1..]);
    } else {
      assert front + b == b;
    }
  }

  lemma {:induction false} SubseqConcat<T>(a1: seq<T>, b1: seq<T>, a2: seq<T>, b2: seq<T>)
    requires IsSubseq(a1, b1) && IsSubseq(a2, b2)
    ensures IsSubseq(a1 + a2, b1 + b2)
    decreases |b1|
  {
    if |a1| == 0 {
      assert a1 + a2 == a2;
      SubseqPrepend(a2, b1, b2);
    } else {
      assert (b1 + b2)[1..] == b1[1..] + b2;
      if a1[0] == b1[0] && IsSubseq(a1[1..], b1[1..]) {
        SubseqConcat(a1[1..], b1[1..], a2, b2);
        assert (a1 + a2)[1..] == a1[1..] + a2;
      } else {
        SubseqConcat(a1, b1[1..], a2, b2);
      }
    }
  }

  /** Deleting elements keeps keys strictly increasing. */
  lemma {:induction false} SubseqIncreasing<T>(a: seq<T>, b: seq<T>, key: T -> int)
    requires IsSubseq(a, b) && IncreasingKeys(b, key)
    ensures IncreasingKeys(a, key)
    decreases |b|
  {
    if |a| > 0 {
      assert IncreasingKeys(b[1..], key) by {
        assert forall i :: 0 <= i < |b| - 1 ==> b[1..][i] == b[i + 1];
      }
      if a[0] == b[0] && IsSubseq(a[1..], b[1..]) {
        SubseqIncreasing(a[1..], b[1..], key);
        SubseqMembers(a[1..], b[1..]);
        forall j | 0 < j < |a|
          ensures key(a[0]) < key(a[j])
        {
          assert a[j] == a[1..][j - 1];
          assert a[j] in b[1..];
          var q :| 0 <= q < |b| - 1 && b[1..][q] == a[j];
          assert b[q + 1] == a[j];
        }
        forall i, j | 0 <= i < j < |a|
          ensures key(a[i]) < key(a[j])
        {
          if i > 0 {
            assert a[i] == a[1..][i - 1] && a[j] == a[1..][j - 1];
          }
        }
      } else {
        SubseqIncreasing(a, b[1..], key);
      }
    }
  }
}
