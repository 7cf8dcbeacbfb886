/** Small shared vocabulary: optional values, error results and a few facts about sequences. */
module Common {

  datatype Option<+T> = None | Some(value: T)

  datatype Result<+T, +E> = Success(value: T) | Failure(error: E)

  /** `s` begins with `prefix` at index `at`. */
  predicate StartsAt(s: string, at: nat, prefix: string) {
    at + |prefix| <= |s| && s[at..at + |prefix|] == prefix
  }

  predicate StartsWith(s: string, prefix: string) {
    StartsAt(s, 0, prefix)
  }

  lemma StartsWithAt(s: string, prefix: string, i: nat)
    requires i < |prefix|
    ensures StartsWith(s, prefix) ==> i < |s| && s[i] == prefix[i]
  {
  }

  predicate EndsWith(s: string, suffix: string) {
    |suffix| <= |s| && s[|s| - |suffix|..] == suffix
  }

  /** White space as Python's `str.strip` and `\s` see it, up to U+00FF. */
  predicate IsSpace(c: char) {
    c == ' ' || '\t' <= c <= '\r' || '\U{1C}' <= c <= '\U{1F}' || c == '\U{85}' || c == '\U{A0}'
  }

  function TrimStart(s: string, drop: char -> bool): string {
    if s != [] && drop(s[0]) then TrimStart(s[1..], drop) else s
  }

  function TrimEnd(s: string, drop: char -> bool): (r: string)
    ensures r <= s && (r != [] ==> !drop(r[|r| - 1]))
  {
    if s != [] && drop(s[|s| - 1]) then TrimEnd(s[..|s| - 1], drop) else s
  }

  /** `s.strip()` for white space, `s.strip(chars)` in general. */
  function Strip(s: string, drop: char -> bool): string {
    TrimEnd(TrimStart(s, drop), drop)
  }

  lemma {:induction false} TrimStartMeans(pad: string, core: string, drop: char -> bool)
    requires (forall i :: 0 <= i < |pad| ==> drop(pad[i])) && (core == [] || !drop(core[0]))
    ensures TrimStart(pad + core, drop) == core
  {
    if pad == [] {
      assert pad + core == core;
    } else {
      TrimStartMeans(pad[1..], core, drop);
      assert (pad + core)[1..] == pad[1..] + core;
    }
  }

  lemma {:induction false} TrimStartSplits(s: string, drop: char -> bool) returns (pad: string)
    ensures s == pad + TrimStart(s, drop) && forall i :: 0 <= i < |pad| ==> drop(pad[i])
    ensures TrimStart(s, drop) == [] || !drop(TrimStart(s, drop)[0])
  {
    if s != [] && drop(s[0]) {
      var rest := TrimStartSplits(s[1..], drop);
      pad := [s[0]] + rest;
    } else {
      pad := [];
    }
  }

  lemma {:induction false} TrimEndMeans(core: string, pad: string, drop: char -> bool)
    requires (forall i :: 0 <= i < |pad| ==> drop(pad[i])) && (core == [] || !drop(core[|core| - 1]))
    ensures TrimEnd(core + pad, drop) == core
  {
    if pad == [] {
      assert core + pad == core;
    } else {
      TrimEndMeans(core, pad[..|pad| - 1], drop);
      assert (core + pad)[..|core + pad| - 1] == core + pad[..|pad| - 1];
    }
  }

  /** Stripping removes exactly the dropped characters around the core. */
  lemma StripMeans(left: string, core: string, right: string, drop: char -> bool)
    requires forall i :: 0 <= i < |left| ==> drop(left[i])
    requires forall i :: 0 <= i < |right| ==> drop(right[i])
    requires core != [] && !drop(core[0]) && !drop(core[|core| - 1])
    ensures Strip(left + core + right, drop) == core
  {
    assert left + core + right == left + (core + right);
    TrimStartMeans(left, core + right, drop);
    TrimEndMeans(core, right, drop);
  }

  /** The first `n` elements, or all of them when there are fewer (a Python slice `s[:n]`). */
  function Take<T>(s: seq<T>, n: nat): (r: seq<T>)
    ensures r <= s && |r| <= n
  {
    if |s| <= n then s else s[..n]
  }

  function Min(a: int, b: int): int {
    if a <= b then a else b
  }

  function Max(a: int, b: int): int {
    if a <= b then b else a
  }

  predicate Distinct<T(==)>(s: seq<T>) {
    forall i, j :: 0 <= i < j < |s| ==> s[i] != s[j]
  }

  /** A sequence has as many members as positions exactly when nothing repeats. */
  lemma {:induction false} DistinctCardinality<T>(s: seq<T>)
    ensures |set x | x in s| <= |s|
    ensures |set x | x in s| == |s| <==> Distinct(s)
  {
    if s != [] {
      var init, last := s[..|s| - 1], s[|s| - 1];
      DistinctCardinality(init);
      assert s == init + [last];
      assert (set x | x in s) == (set x | x in init) + {last};
      if last in init {
        var i :| 0 <= i < |init| && init[i] == last;
        assert s[i] == s[|s| - 1];
        assert (set x | x in s) == (set x | x in init);
      } else {
        assert Distinct(init) <==> Distinct(s) by {
          assert forall i :: 0 <= i < |init| ==> init[i] == s[i];
        }
      }
    }
  }

  /** Results of `f` for all elements, one after the other. */
  function FlatMap<T, U>(xs: seq<T>, f: T -> seq<U>): seq<U> {
    if xs == [] then [] else FlatMap(xs[..|xs| - 1], f) + f(xs[|xs| - 1])
  }

  lemma FlatMapAppend<T, U>(xs: seq<T>, x: T, f: T -> seq<U>)
    ensures FlatMap(xs + [x], f) == FlatMap(xs, f) + f(x)
  {
    assert (xs + [x])[..|xs|] == xs;
  }

  lemma FlatMapOne<T, U>(x: T, f: T -> seq<U>)
    ensures FlatMap([x], f) == f(x)
  {
    assert [x] == [] + [x];
    FlatMapAppend([], x, f);
  }

  lemma FlatMapStep<T, U>(xs: seq<T>, i: nat, f: T -> seq<U>)
    requires i < |xs|
    ensures FlatMap(xs[..i + 1], f) == FlatMap(xs[..i], f) + f(xs[i])
  {
    assert xs[..i + 1] == xs[..i] + [xs[i]];
    FlatMapAppend(xs[..i], xs[i], f);
  }

  lemma {:induction false} FlatMapEmpty<T, U>(xs: seq<T>, f: T -> seq<U>)
    ensures FlatMap(xs, f) == [] <==> forall i :: 0 <= i < |xs| ==> f(xs[i]) == []
  {
    if xs != [] {
      var init := xs[..|xs| - 1];
      FlatMapEmpty(init, f);
      assert forall i :: 0 <= i < |init| ==> init[i] == xs[i];
      assert FlatMap(xs, f) == [] <==> FlatMap(init, f) == [] && f(xs[|init|]) == [];
    }
  }

  lemma {:induction false} FlatMapMember<T, U>(xs: seq<T>, f: T -> seq<U>, u: U)
    ensures u in FlatMap(xs, f) <==> exists i :: 0 <= i < |xs| && u in f(xs[i])
  {
    if xs != [] {
      var init := xs[..|xs| - 1];
      FlatMapMember(init, f, u);
      if u in FlatMap(init, f) {
        var i :| 0 <= i < |init| && u in f(init[i]);
        assert u in f(xs[i]);
      } else if u in f(xs[|init|]) {
        assert u in FlatMap(xs, f);
      }
    }
  }

  function CountIf<T>(xs: seq<T>, test: T -> bool): (n: nat)
    ensures n <= |xs|
  {
    if xs == [] then 0 else CountIf(xs[..|xs| - 1], test) + if test(xs[|xs| - 1]) then 1 else 0
  }

  lemma CountIfStep<T>(xs: seq<T>, i: nat, test: T -> bool)
    requires i < |xs|
    ensures CountIf(xs[..i + 1], test) == CountIf(xs[..i], test) + if test(xs[i]) then 1 else 0
  {
    assert xs[..i + 1][..i] == xs[..i];
  }

  lemma {:induction false} CountIfConcat<T>(a: seq<T>, b: seq<T>, test: T -> bool)
    ensures CountIf(a + b, test) == CountIf(a, test) + CountIf(b, test)
  {
    if b == [] {
      assert a + b == a;
    } else {
      assert (a + b)[..|a + b| - 1] == a + b[..|b| - 1];
      CountIfConcat(a, b[..|b| - 1], test);
    }
  }

  lemma CountIfAppend<T>(xs: seq<T>, x: T, test: T -> bool)
    ensures CountIf(xs + [x], test) == CountIf(xs, test) + if test(x) then 1 else 0
  {
    assert (xs + [x])[..|xs|] == xs;
  }

  lemma {:induction false} CountIfZero<T>(xs: seq<T>, test: T -> bool)
    ensures CountIf(xs, test) == 0 <==> forall i :: 0 <= i < |xs| ==> !test(xs[i])
  {
    if xs != [] {
      CountIfZero(xs[..|xs| - 1], test);
    }
  }

  lemma {:induction false} CountIfSame<T>(xs: seq<T>, test: T -> bool, test': T -> bool)
    requires forall i :: 0 <= i < |xs| ==> test(xs[i]) == test'(xs[i])
    ensures CountIf(xs, test) == CountIf(xs, test')
  {
    if xs != [] {
      CountIfSame(xs[..|xs| - 1], test, test');
    }
  }

  function SumOf<T>(xs: seq<T>, f: T -> nat): nat {
    if xs == [] then 0 else SumOf(xs[..|xs| - 1], f) + f(xs[|xs| - 1])
  }

  lemma SumOfStep<T>(xs: seq<T>, i: nat, f: T -> nat)
    requires i < |xs|
    ensures SumOf(xs[..i + 1], f) == SumOf(xs[..i], f) + f(xs[i])
  {
    assert xs[..i + 1][..i] == xs[..i];
  }

  lemma {:induction false} SumOfSame<T>(xs: seq<T>, f: T -> nat, g: T -> nat)
    requires forall i :: 0 <= i < |xs| ==> f(xs[i]) == g(xs[i])
    ensures SumOf(xs, f) == SumOf(xs, g)
  {
    if xs != [] {
      SumOfSame(xs[..|xs| - 1], f, g);
    }
  }
}
