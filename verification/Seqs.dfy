/** Facts about sequences without repetition, for the scheduler model and the kernel objects. */
module Seqs {

  ghost predicate Distinct<T>(q: seq<T>) {
    forall i, j :: 0 <= i < j < |q| ==> q[i] != q[j]
  }

  /** `q` without the first occurrence of `x`. */
  function Remove<T(==)>(q: seq<T>, x: T): seq<T> {
    if q == [] then []
    else if q[0] == x then q[1..]
    else [q[0]] + Remove(q[1..], x)
  }

  lemma {:induction false} RemoveAt<T>(q: seq<T>, k: nat)
    requires k < |q| && q[k] !in q[..k]
    ensures Remove(q, q[k]) == q[..k] + q[k + 1..]
  {
    if k > 0 {
      assert q[1..][..k - 1] == q[..k][1..];
      RemoveAt(q[1..], k - 1);
    }
  }

  lemma {:induction false} DistinctCount<T>(q: seq<T>, x: T)
    requires Distinct(q) && x in q
    ensures multiset(q)[x] == 1
  {
    assert q == [q[0]] + q[1..];
    if x in q[1..] {
      DistinctCount(q[1..], x);
    } else {
      assert multiset(q[1..])[x] == 0;
    }
  }

  lemma {:induction false} CountDistinct<T>(q: seq<T>)
    requires forall x :: x in q ==> multiset(q)[x] <= 1
    ensures Distinct(q)
  {
    forall i, j | 0 <= i < j < |q|
      ensures q[i] != q[j]
    {
      assert q == q[..j] + [q[j]] + q[j + 1..];
      assert q[..j][i] == q[i];
      assert multiset(q[..j])[q[i]] >= 1;
      assert multiset(q)[q[j]] == multiset(q[..j])[q[j]] + 1 + multiset(q[j + 1..])[q[j]];
    }
  }
}
