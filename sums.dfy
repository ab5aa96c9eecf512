/** Sums of a measure over a sequence, and the facts about them the aggregations need. */
module Sums {

  function SumOf<T>(s: seq<T>, w: T -> real): real {
    if s == [] then 0.0 else w(s[0]) + SumOf(s[1..], w)
  }

  function SumInt<T>(s: seq<T>, w: T -> int): int {
    if s == [] then 0 else w(s[0]) + SumInt(s[1..], w)
  }

  lemma {:induction false} SumOfConcat<T>(a: seq<T>, b: seq<T>, w: T -> real)
    ensures SumOf(a + b, w) == SumOf(a, w) + SumOf(b, w)
  {
    if a == [] {
      assert a + b == b;
    } else {
      assert (a + b)[1..] == a[1..] + b;
      SumOfConcat(a[1..], b, w);
    }
  }

  lemma SumOfWithout<T>(b: seq<T>, k: nat, w: T -> real)
    requires k < |b|
    ensures SumOf(b, w) == w(b[k]) + SumOf(b[..k] + b[k + 1..], w)
  {
    assert b == b[..k] + ([b[k]] + b[k + 1..]);
    SumOfConcat(b[..k], [b[k]] + b[k + 1..], w);
    SumOfConcat(b[..k], b[k + 1..], w);
    assert ([b[k]] + b[k + 1..])[1..] == b[k + 1..];
  }

  lemma MultisetWithout<T>(b: seq<T>, k: nat)
    requires k < |b|
    ensures multiset(b[..k] + b[k + 1..]) == multiset(b) - multiset{b[k]}
  {
    assert b == b[..k] + [b[k]] + b[k + 1..];
  }

  /** Rearranging a sequence does not change its sum. */
  lemma {:induction false} SumOfPermutation<T>(a: seq<T>, b: seq<T>, w: T -> real)
    requires multiset(a) == multiset(b)
    ensures SumOf(a, w) == SumOf(b, w)
  {
    if a != [] {
      assert a[0] in multiset(b);
      assert a[0] in b;
      var k :| 0 <= k < |b| && b[k] == a[0];
      var rest := b[..k] + b[k + 1..];
      MultisetWithout(b, k);
      assert a == [a[0]] + a[1..];
      assert multiset(a[1..]) == multiset(rest);
      SumOfPermutation(a[1..], rest, w);
      SumOfWithout(b, k, w);
    } else {
      assert b == [];
    }
  }

  lemma {:induction false} SumOfNonNegative<T>(s: seq<T>, w: T -> real)
    requires forall x :: x in s ==> w(x) >= 0.0
    ensures SumOf(s, w) >= 0.0
    ensures forall i :: 0 <= i < |s| ==> w(s[i]) <= SumOf(s, w)
  {
    if s != [] {
      SumOfNonNegative(s[1..], w);
      forall i | 0 < i < |s| ensures w(s[i]) <= SumOf(s, w) {
        assert s[i] == s[1..][i - 1];
      }
    }
  }

  /** Two sequences whose measures agree position by position have the same sum. */
  lemma {:induction false} SumOfPointwise<A, B>(a: seq<A>, wa: A -> real, b: seq<B>, wb: B -> real)
    requires |a| == |b| && forall i :: 0 <= i < |a| ==> wa(a[i]) == wb(b[i])
    ensures SumOf(a, wa) == SumOf(b, wb)
  {
    if a != [] {
      assert wa(a[0]) == wb(b[0]);
      SumOfPointwise(a[1..], wa, b[1..], wb);
    }
  }

  lemma {:induction false} SumIntPointwise<A, B>(a: seq<A>, wa: A -> int, b: seq<B>, wb: B -> int)
    requires |a| == |b| && forall i :: 0 <= i < |a| ==> wa(a[i]) == wb(b[i])
    ensures SumInt(a, wa) == SumInt(b, wb)
  {
    if a != [] {
      assert wa(a[0]) == wb(b[0]);
      SumIntPointwise(a[1..], wa, b[1..], wb);
    }
  }
}
