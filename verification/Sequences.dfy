/** Sequences up to order, and sums over them. */
module Sequences {

  /** s without its k-th element. */
  function Drop<T>(s: seq<T>, k: nat): seq<T>
    requires k < |s|
  {
    s[..k] + s[k + 1..]
  }

  lemma DropMultiset<T>(s: seq<T>, k: nat)
    requires k < |s|
    ensures multiset(Drop(s, k)) == multiset(s) - multiset{s[k]}
  {
    assert s == s[..k] + [s[k]] + s[k + 1..];
    assert multiset(s) == multiset(s[..k]) + multiset{s[k]} + multiset(s[k + 1..]);
  }

  lemma FirstIn<T>(s: seq<T>)
    requires s != []
    ensures s[0] in s && s[0] in multiset(s)
  {}

  /** Two orders of the same elements: the last of one is somewhere in the other. */
  lemma LastIsIn<T>(a: seq<T>, b: seq<T>) returns (k: nat)
    requires a != [] && multiset(a) == multiset(b)
    ensures k < |b| && b[k] == a[|a| - 1] && multiset(a[..|a| - 1]) == multiset(Drop(b, k))
  {
    var x := a[|a| - 1];
    assert x in multiset(a);
    assert x in multiset(b);
    k :| 0 <= k < |b| && b[k] == x;
    DropMultiset(a, |a| - 1);
    assert Drop(a, |a| - 1) == a[..|a| - 1];
    DropMultiset(b, k);
  }

  predicate Distinct<T(==)>(s: seq<T>) { forall i, j :: 0 <= i < j < |s| ==> s[i] != s[j] }

  lemma SameMembers<T>(a: seq<T>, b: seq<T>)
    requires multiset(a) == multiset(b)
    ensures forall x :: x in a <==> x in b
  {
    assert forall x :: x in a <==> x in multiset(a);
    assert forall x :: x in b <==> x in multiset(b);
  }

  predicate Descending<T>(s: seq<T>, key: T -> real) { forall i, j :: 0 <= i < j < |s| ==> key(s[i]) >= key(s[j]) }

  /** s is r with x put in at position j. */
  predicate Inserted<T(==)>(r: seq<T>, j: nat, x: T, s: seq<T>)
    requires j <= |r|
  {
    |s| == |r| + 1 && s[..j] == r[..j] && s[j] == x && s[j + 1..] == r[j..]
  }

  lemma InsertedDescends<T>(r: seq<T>, j: nat, x: T, s: seq<T>, key: T -> real)
    requires j <= |r| && Descending(r, key) && Inserted(r, j, x, s)
    requires forall n :: 0 <= n < j ==> key(r[n]) >= key(x)
    requires forall n :: j <= n < |r| ==> key(r[n]) <= key(x)
    ensures Descending(s, key)
  {
    forall a, b | 0 <= a < b < |s| ensures key(s[a]) >= key(s[b]) {
      if a != j { assert s[a] == if a < j then r[..j][a] else r[j..][a - j - 1]; }
      if b != j { assert s[b] == if b < j then r[..j][b] else r[j..][b - j - 1]; }
    }
  }

  lemma InsertAt<T>(r: seq<T>, j: nat, x: T, key: T -> real)
    requires j <= |r| && Descending(r, key)
    requires forall n :: 0 <= n < j ==> key(r[n]) >= key(x)
    requires j < |r| ==> key(r[j]) < key(x)
    ensures Descending(r[..j] + [x] + r[j..], key)
    ensures multiset(r[..j] + [x] + r[j..]) == multiset(r) + multiset{x}
  {
    assert r == r[..j] + r[j..];
    forall n | j <= n < |r| ensures key(r[n]) <= key(x) {
      assert n > j ==> key(r[j]) >= key(r[n]);
    }
    hide Descending;
    InsertedDescends(r, j, x, r[..j] + [x] + r[j..], key);
  }

  method Slot<T>(r: seq<T>, key: T -> real, x: T) returns (j: nat)
    ensures j <= |r| && (forall n :: 0 <= n < j ==> key(r[n]) >= key(x)) && (j < |r| ==> key(r[j]) < key(x))
  {
    j := 0;
    while j < |r| && key(r[j]) >= key(x)
      invariant j <= |r| && forall n :: 0 <= n < j ==> key(r[n]) >= key(x)
    {
      j := j + 1;
    }
  }

  /** sort.Slice by a descending key: some descending order of the same elements. */
  method SortDescending<T>(s: seq<T>, key: T -> real) returns (r: seq<T>)
    ensures Descending(r, key) && multiset(r) == multiset(s) && |r| == |s|
  {
    r := [];
    for i := 0 to |s|
      invariant Descending(r, key) && multiset(r) == multiset(s[..i]) && |r| == i
    {
      var j := Slot(r, key, s[i]);
      assert s[..i + 1] == s[..i] + [s[i]];
      InsertAt(r, j, s[i], key);
      r := r[..j] + [s[i]] + r[j..];
    }
    assert s[..|s|] == s;
  }

  lemma AppendOnce<T>(s: seq<T>, x: T)
    requires x !in s && forall y :: multiset(s)[y] <= 1
    ensures forall y :: multiset(s + [x])[y] <= 1
    ensures forall y :: y in s + [x] <==> y in s || y == x
  {
    assert x !in multiset(s);
  }

  /** The sum of a weight over a sequence. */
  function Sum<T>(w: T -> real, s: seq<T>): real {
    if s == [] then 0.0 else Sum(w, s[..|s| - 1]) + w(s[|s| - 1])
  }

  lemma SumAfter<T>(w: T -> real, s: seq<T>, x: T)
    ensures Sum(w, s + [x]) == Sum(w, s) + w(x)
  {
    assert (s + [x])[..|s|] == s;
  }

  lemma SumTake<T>(w: T -> real, s: seq<T>, i: nat)
    requires i < |s|
    ensures Sum(w, s[..i + 1]) == Sum(w, s[..i]) + w(s[i])
  {
    assert s[..i + 1][..i] == s[..i];
  }

  lemma {:induction false} SumDrop<T>(w: T -> real, s: seq<T>, k: nat)
    requires k < |s|
    ensures Sum(w, s) == Sum(w, Drop(s, k)) + w(s[k])
    decreases |s|
  {
    var init, last := s[..|s| - 1], s[|s| - 1];
    if k == |init| {
      assert Drop(s, k) == init;
    } else {
      SumDrop(w, init, k);
      assert Drop(s, k) == Drop(init, k) + [last];
      SumAfter(w, Drop(init, k), last);
    }
  }

  /** Reordering does not change a sum. */
  lemma {:induction false} SumPermutation<T>(w: T -> real, a: seq<T>, b: seq<T>)
    requires multiset(a) == multiset(b)
    ensures Sum(w, a) == Sum(w, b)
    decreases |a|
  {
    if a == [] {
      if b != [] { FirstIn(b); }
    } else {
      var k := LastIsIn(a, b);
      SumPermutation(w, a[..|a| - 1], Drop(b, k));
      SumDrop(w, b, k);
    }
  }

  lemma {:induction false} SumScale<T>(w: T -> real, v: T -> real, k: real, s: seq<T>)
    requires forall x :: x in s ==> v(x) == k * w(x)
    ensures Sum(v, s) == k * Sum(w, s)
  {
    if s != [] { SumScale(w, v, k, s[..|s| - 1]); }
  }

  lemma {:induction false} SumNonNegative<T>(w: T -> real, s: seq<T>)
    requires forall x :: x in s ==> w(x) >= 0.0
    ensures Sum(w, s) >= 0.0
  {
    if s != [] { SumNonNegative(w, s[..|s| - 1]); }
  }
}
