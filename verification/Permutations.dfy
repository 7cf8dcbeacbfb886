/** Facts about rearranged sequences. */
module Permutations {
  import opened Common

  lemma {:induction false} OnceInMultiset<T>(s: seq<T>, x: T)
    requires Distinct(s)
    ensures multiset(s)[x] <= 1
  {
    if s != [] {
      var init, last := s[..|s| - 1], s[|s| - 1];
      OnceInMultiset(init, x);
      assert s == init + [last];
      assert last !in init;
    }
  }

  lemma TwiceInMultiset<T>(s: seq<T>, i: nat, j: nat)
    requires i < j < |s| && s[i] == s[j]
    ensures multiset(s)[s[i]] >= 2
  {
    assert s == s[..i] + [s[i]] + s[i + 1..j] + [s[j]] + s[j + 1..];
  }

  /** Rearranging keeps distinct elements distinct. */
  lemma DistinctPermutes<T>(a: seq<T>, b: seq<T>)
    requires Distinct(a) && multiset(a) == multiset(b)
    ensures Distinct(b)
  {
    forall i, j | 0 <= i < j < |b| ensures b[i] != b[j] {
      OnceInMultiset(a, b[i]);
      if b[i] == b[j] {
        TwiceInMultiset(b, i, j);
      }
    }
  }

  lemma PermutedMembers<T>(a: seq<T>, b: seq<T>)
    requires multiset(a) == multiset(b)
    ensures |a| == |b| && forall x :: x in a <==> x in b
  {
    assert |multiset(a)| == |multiset(b)|;
    assert forall x :: x in a <==> x in multiset(a);
    assert forall x :: x in b <==> x in multiset(b);
  }

  function Without<T>(s: seq<T>, i: nat): seq<T>
    requires i < |s|
  {
    s[..i] + s[i + 1..]
  }

  /** Some occurrence of the last element of `b` can be taken out of a rearrangement `a` of `b`. */
  lemma TakeOutLast<T>(a: seq<T>, b: seq<T>) returns (i: nat)
    requires multiset(a) == multiset(b) && b != []
    ensures i < |a| && a[i] == b[|b| - 1]
    ensures multiset(Without(a, i)) == multiset(b[..|b| - 1])
  {
    var last := b[|b| - 1];
    assert b == b[..|b| - 1] + [last];
    assert last in multiset(a);
    i :| 0 <= i < |a| && a[i] == last;
    assert a == a[..i] + [last] + a[i + 1..];
    assert multiset(a) == multiset(Without(a, i)) + multiset{last};
    assert multiset(b) == multiset(b[..|b| - 1]) + multiset{last};
    CancelOne(multiset(Without(a, i)), multiset(b[..|b| - 1]), last);
  }

  lemma CancelOne<T>(x: multiset<T>, y: multiset<T>, e: T)
    requires x + multiset{e} == y + multiset{e}
    ensures x == y
  {
    assert x == (x + multiset{e}) - multiset{e};
    assert y == (y + multiset{e}) - multiset{e};
  }

  lemma WithoutInit<T>(s: seq<T>, i: nat)
    requires i < |s| - 1
    ensures Without(s, i) == Without(s[..|s| - 1], i) + [s[|s| - 1]]
  {
  }

  lemma {:induction false} FlatMapWithout<T, U>(xs: seq<T>, f: T -> seq<U>, i: nat)
    requires i < |xs|
    ensures multiset(FlatMap(xs, f)) == multiset(FlatMap(Without(xs, i), f)) + multiset(f(xs[i]))
    decreases |xs|
  {
    var init, last := xs[..|xs| - 1], xs[|xs| - 1];
    if i == |init| {
      assert Without(xs, i) == init;
    } else {
      FlatMapWithout(init, f, i);
      WithoutInit(xs, i);
      FlatMapAppend(Without(init, i), last, f);
    }
  }

  /** Rearranging the arguments rearranges the results and nothing else. */
  lemma {:induction false} FlatMapPermutes<T, U>(a: seq<T>, b: seq<T>, f: T -> seq<U>)
    requires multiset(a) == multiset(b)
    ensures multiset(FlatMap(a, f)) == multiset(FlatMap(b, f))
    decreases |b|
  {
    if b == [] {
      PermutedMembers(a, b);
    } else {
      var i := TakeOutLast(a, b);
      FlatMapWithout(a, f, i);
      FlatMapPermutes(Without(a, i), b[..|b| - 1], f);
    }
  }

  lemma {:induction false} CountIfWithout<T>(xs: seq<T>, test: T -> bool, i: nat)
    requires i < |xs|
    ensures CountIf(xs, test) == CountIf(Without(xs, i), test) + if test(xs[i]) then 1 else 0
    decreases |xs|
  {
    var init, last := xs[..|xs| - 1], xs[|xs| - 1];
    if i == |init| {
      assert Without(xs, i) == init;
    } else {
      CountIfWithout(init, test, i);
      WithoutInit(xs, i);
      CountIfAppend(Without(init, i), last, test);
    }
  }

  lemma {:induction false} CountIfPermutes<T>(a: seq<T>, b: seq<T>, test: T -> bool)
    requires multiset(a) == multiset(b)
    ensures CountIf(a, test) == CountIf(b, test)
    decreases |b|
  {
    if b == [] {
      PermutedMembers(a, b);
    } else {
      var i := TakeOutLast(a, b);
      CountIfWithout(a, test, i);
      CountIfPermutes(Without(a, i), b[..|b| - 1], test);
    }
  }
}
