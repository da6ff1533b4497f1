/** Facts about sequences that several components need. */
module Sequences {
  ghost predicate Distinct<T>(q: seq<T>) {
    forall i, j :: 0 <= i < j < |q| ==> q[i] != q[j]
  }

  lemma Reassociate<T>(a: seq<T>, b: seq<T>, c: seq<T>)
    ensures (a + b) + c == a + (b + c)
  {
  }

  lemma AddSums<T>(r: multiset<T>, l: multiset<T>, i: multiset<T>, o: multiset<T>, a: multiset<T>, b: multiset<T>, c: multiset<T>, d: multiset<T>)
    requires r + l == i + o && a + b == c + d
    ensures (r + a) + (l + b) == (i + c) + (o + d)
  {
    assert (r + a) + (l + b) == (r + l) + (a + b);
    assert (i + c) + (o + d) == (i + o) + (c + d);
  }
}
