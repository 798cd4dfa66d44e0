/** Order-preserving sub-lists. */
module Subsequences {

  /** `a` is `b` with some elements left out. */
  ghost predicate Subseq<T>(a: seq<T>, b: seq<T>) {
    a == [] ||
    (b != [] && (Subseq(a, b[..|b| - 1])
                 || (a[|a| - 1] == b[|b| - 1] && Subseq(a[..|a| - 1], b[..|b| - 1]))))
  }

  lemma {:induction false} SubseqSelf<T>(a: seq<T>)
    ensures Subseq(a, a)
  {
    if a != [] {
      SubseqSelf(a[..|a| - 1]);
    }
  }

  lemma SubseqSnoc<T>(a: seq<T>, b: seq<T>, x: T)
    requires Subseq(a, b)
    ensures Subseq(a + [x], b + [x]) && Subseq(a, b + [x])
  {
    assert (a + [x])[..|a|] == a && (b + [x])[..|b|] == b;
  }

  lemma {:induction false} SubseqAppend<T>(a: seq<T>, b: seq<T>, z: seq<T>)
    requires Subseq(a, b)
    ensures Subseq(a + z, b + z) && Subseq(a, b + z)
  {
    if z == [] {
      assert a + z == a && b + z == b;
    } else {
      var y, x := z[..|z| - 1], z[|z| - 1];
      SubseqAppend(a, b, y);
      SubseqSnoc(a + y, b + y, x);
      SubseqSnoc(a, b + y, x);
      assert a + z == a + y + [x] && b + z == b + y + [x];
    }
  }

  lemma {:induction false} SubseqTransitive<T>(a: seq<T>, b: seq<T>, c: seq<T>)
    requires Subseq(a, b) && Subseq(b, c)
    ensures Subseq(a, c)
    decreases |a| + |b| + |c|
  {
    if a != [] {
      var b', c' := b[..|b| - 1], c[..|c| - 1];
      if Subseq(b, c') {
        SubseqTransitive(a, b, c');
      } else if Subseq(a, b') {
        SubseqTransitive(a, b', c');
      } else {
        SubseqTransitive(a[..|a| - 1], b', c');
      }
    }
  }

  /** Cutting a middle part out leaves a sub-list. */
  lemma SubseqCut<T>(x: seq<T>, y: seq<T>, z: seq<T>)
    ensures Subseq(x + z, x + y + z)
  {
    SubseqSelf(x);
    SubseqAppend(x, x, y);
    SubseqAppend(x, x + y, z);
  }

  lemma SubseqWithout<T>(x: seq<T>, y: seq<T>, z: seq<T>, whole: seq<T>)
    requires Subseq(x + y + z, whole)
    ensures Subseq(x + z, whole)
  {
    SubseqCut(x, y, z);
    SubseqTransitive(x + z, x + y + z, whole);
  }

  lemma SubseqRemoveAt<T>(c: seq<T>, q: seq<T>, i: nat, whole: seq<T>)
    requires Subseq(c + q, whole) && i < |q|
    ensures Subseq(c + (q[..i] + q[i + 1..]), whole)
  {
    Regroup(c, q, i);
    SubseqWithout(c + q[..i], [q[i]], q[i + 1..], whole);
  }

  lemma Regroup<T>(c: seq<T>, q: seq<T>, i: nat)
    requires i < |q|
    ensures c + q[..i] + [q[i]] + q[i + 1..] == c + q
    ensures c + q[..i] + q[i + 1..] == c + (q[..i] + q[i + 1..])
  {
  }

  lemma SubseqSnocRight<T>(c: seq<T>, q: seq<T>, x: T, whole: seq<T>)
    requires Subseq(c + q, whole)
    ensures Subseq(c + (q + [x]), whole + [x])
  {
    SubseqSnoc(c + q, whole, x);
    assert c + q + [x] == c + (q + [x]);
  }
}
