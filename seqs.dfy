/** Sequence idioms of the scripts: slicing `[:n]`, and order-preserving de-duplication. */
module Seqs {

  /** `s[:n]` for a non-negative bound. */
  function Prefix<T>(s: seq<T>, n: nat): seq<T>
  {
    if n <= |s| then s[..n] else s
  }

  lemma PrefixCons<T>(x: T, s: seq<T>, m: nat)
    requires m > 0
    ensures Prefix([x] + s, m) == [x] + Prefix(s, m - 1)
  {
    if m <= |s| + 1 {
      assert ([x] + s)[..m] == [x] + s[..m - 1];
    }
  }

  lemma TakeCons<T>(s: seq<T>, n: nat)
    requires 0 < n <= |s|
    ensures s[..n] == [s[0]] + s[1..][..n - 1]
  {
  }

  predicate Distinct<T(==)>(s: seq<T>)
  {
    forall i, j :: 0 <= i < j < |s| ==> s[i] != s[j]
  }

  /** Index of the first occurrence of `x` in `s`. */
  function FirstIndex<T(==)>(s: seq<T>, x: T): (k: nat)
    requires x in s
    ensures k < |s| && s[k] == x
    ensures forall j :: 0 <= j < k ==> s[j] != x
  {
    if s[0] == x then 0 else 1 + FirstIndex(s[1..], x)
  }

  /** The seen-set loop of the scripts: the first occurrence of each element, in order. */
  function FirstOccurrences<T(==)>(s: seq<T>): (r: seq<T>)
  {
    if s == [] then []
    else
      var p := FirstOccurrences(s[..|s| - 1]);
      if s[|s| - 1] in p then p else p + [s[|s| - 1]]
  }

  /** De-duplication keeps every element once and invents none. */
  lemma {:induction false} FirstOccurrencesElements<T>(s: seq<T>)
    ensures Distinct(FirstOccurrences(s))
    ensures forall x :: x in FirstOccurrences(s) <==> x in s
  {
    if s != [] {
      var init := s[..|s| - 1];
      FirstOccurrencesElements(init);
      assert s == init + [s[|s| - 1]];
    }
  }

  lemma FirstIndexOfPrefix<T>(s: seq<T>, n: nat, x: T)
    requires n <= |s| && x in s[..n]
    ensures x in s && FirstIndex(s, x) == FirstIndex(s[..n], x)
  {
    var k := FirstIndex(s[..n], x);
    assert s[..n][k] == x;
    assert s[k] == x;
    var f := FirstIndex(s, x);
    assert f <= k;
    assert forall j :: 0 <= j < k ==> s[j] == s[..n][j];
  }

  /** De-duplication lists the elements in the order of their first occurrence in the input. */
  lemma {:induction false} FirstOccurrencesOrder<T>(s: seq<T>)
    ensures forall x :: x in FirstOccurrences(s) ==> x in s
    ensures forall i, j :: 0 <= i < j < |FirstOccurrences(s)| ==>
      FirstIndex(s, FirstOccurrences(s)[i]) < FirstIndex(s, FirstOccurrences(s)[j])
  {
    FirstOccurrencesElements(s);
    if s != [] {
      var n := |s| - 1;
      var init := s[..n];
      var p := FirstOccurrences(init);
      FirstOccurrencesOrder(init);
      FirstOccurrencesElements(init);
      forall x | x in p ensures FirstIndex(s, x) == FirstIndex(init, x) < n {
        FirstIndexOfPrefix(s, n, x);
      }
      if s[n] !in p {
        assert s[n] !in init;
        assert forall j :: 0 <= j < n ==> init[j] != s[n];
        assert FirstIndex(s, s[n]) == n;
      }
    }
  }

  /**
   * The first `n` distinct elements: at most `n`, no duplicates, in order of first occurrence,
   * every element of `s` when fewer than `n` are kept, and any element left out first occurs
   * after every kept one.
   */
  lemma FirstDistinct<T>(s: seq<T>, n: nat)
    ensures var r := Prefix(FirstOccurrences(s), n);
      && |r| <= n
      && Distinct(r)
      && (forall x :: x in r ==> x in s)
      && (forall i, j :: 0 <= i < j < |r| ==> FirstIndex(s, r[i]) < FirstIndex(s, r[j]))
      && (|r| < n ==> forall x :: x in s ==> x in r)
      && (forall x, k :: x in s && x !in r && 0 <= k < |r| ==> FirstIndex(s, r[k]) < FirstIndex(s, x))
  {
    var u := FirstOccurrences(s);
    FirstOccurrencesElements(s);
    FirstOccurrencesOrder(s);
    var r := Prefix(u, n);
    assert forall k :: 0 <= k < |r| ==> r[k] == u[k];
    forall x, k | x in s && x !in r && 0 <= k < |r| ensures FirstIndex(s, r[k]) < FirstIndex(s, x) {
      var j :| 0 <= j < |u| && u[j] == x;
      assert j >= |r|;
    }
  }

  /** `[f(x) for x in xs]`, built from the left as a loop appends it. */
  function Map<A, B>(f: A -> B, xs: seq<A>): (r: seq<B>)
    ensures |r| == |xs|
  {
    if xs == [] then [] else Map(f, xs[..|xs| - 1]) + [f(xs[|xs| - 1])]
  }

  lemma {:induction false} MapAt<A, B>(f: A -> B, xs: seq<A>, k: nat)
    requires k < |xs|
    ensures Map(f, xs)[k] == f(xs[k])
  {
    var n := |xs| - 1;
    if k < n {
      MapAt(f, xs[..n], k);
      assert xs[..n][k] == xs[k];
    }
  }

  /** The concatenation of `f(x)` over `xs`, built from the left as a loop appends it. */
  function FlatMap<A, B>(f: A -> seq<B>, xs: seq<A>): seq<B>
  {
    if xs == [] then [] else FlatMap(f, xs[..|xs| - 1]) + f(xs[|xs| - 1])
  }

  lemma {:induction false} FlatMapAppend<A, B>(f: A -> seq<B>, a: seq<A>, b: seq<A>)
    ensures FlatMap(f, a + b) == FlatMap(f, a) + FlatMap(f, b)
    decreases |b|
  {
    if b == [] {
      assert a + b == a;
    } else {
      assert (a + b)[..|a + b| - 1] == a + b[..|b| - 1];
      FlatMapAppend(f, a, b[..|b| - 1]);
    }
  }

  /** When every `f(x)` has at most one element, so has the result at most one per input. */
  lemma {:induction false} FlatMapAtMostOne<A, B>(f: A -> seq<B>, xs: seq<A>)
    requires forall x :: |f(x)| <= 1
    ensures |FlatMap(f, xs)| <= |xs|
  {
    if xs != [] {
      FlatMapAtMostOne(f, xs[..|xs| - 1]);
    }
  }

  /** Every element of the result comes from some `f(x)` with `x` in `xs`. */
  lemma {:induction false} FlatMapElements<A, B>(f: A -> seq<B>, xs: seq<A>, y: B)
    requires y in FlatMap(f, xs)
    ensures exists k :: 0 <= k < |xs| && y in f(xs[k])
  {
    var init := xs[..|xs| - 1];
    if y in FlatMap(f, init) {
      FlatMapElements(f, init, y);
      var k :| 0 <= k < |init| && y in f(init[k]);
      assert init[k] == xs[k];
    } else {
      assert y in f(xs[|xs| - 1]);
    }
  }

  /** The keys of an association list, in order. */
  function KeysOf<K, V>(m: seq<(K, V)>): (r: seq<K>)
    ensures |r| == |m| && forall i :: 0 <= i < |m| ==> r[i] == m[i].0
  {
    seq(|m|, i requires 0 <= i < |m| => m[i].0)
  }

  /**
   * Inserting the pairs `es` into an insertion-ordered dictionary, one by one, under
   * `if key not in d: d[key] = value`.
   */
  function FirstWins<K(==), V>(es: seq<(K, V)>): seq<(K, V)>
  {
    if es == [] then []
    else
      var d := FirstWins(es[..|es| - 1]);
      if es[|es| - 1].0 in KeysOf(d) then d else d + [es[|es| - 1]]
  }

  /**
   * The dictionary holds each key of `es` once, in the order keys first occur, and the value
   * stored under a key is the one that came with its first occurrence.
   */
  lemma {:induction false} FirstWinsSpec<K, V>(es: seq<(K, V)>)
    ensures KeysOf(FirstWins(es)) == FirstOccurrences(KeysOf(es))
    ensures forall e :: e in FirstWins(es) ==>
      e.0 in KeysOf(es) && e.1 == es[FirstIndex(KeysOf(es), e.0)].1
  {
    if es != [] {
      var n := |es| - 1;
      var init := es[..n];
      FirstWinsSpec(init);
      var d := FirstWins(init);
      assert KeysOf(es)[..n] == KeysOf(init);
      forall e | e in d
        ensures e.0 in KeysOf(es) && e.1 == es[FirstIndex(KeysOf(es), e.0)].1
      {
        FirstIndexOfPrefix(KeysOf(es), n, e.0);
        assert es[FirstIndex(KeysOf(es), e.0)] == init[FirstIndex(KeysOf(init), e.0)];
      }
      if es[n].0 !in KeysOf(d) {
        FirstOccurrencesElements(KeysOf(init));
        assert es[n].0 !in KeysOf(init);
        assert forall j :: 0 <= j < n ==> KeysOf(es)[j] != es[n].0;
        assert FirstIndex(KeysOf(es), es[n].0) == n;
        assert KeysOf(d + [es[n]]) == KeysOf(d) + [es[n].0];
      }
    }
  }
}
