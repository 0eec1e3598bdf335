/**
 * The word filter every keyword extractor of the scripts applies: keep the words longer than
 * two characters that are not stop words, in order. scripts/csv-to-bilingual.py and
 * scripts/csv-to-bilingual-ai.py use it with their stop-word sets, scripts/csv-to-json.py with
 * its common words.
 */
module Keywords {
  import opened Seqs

  /** `[w for w in words if len(w) > 2 and w not in stop]` */
  function Filtered(words: seq<string>, stop: set<string>): (r: seq<string>)
    ensures |r| <= |words|
    ensures forall k :: 0 <= k < |r| ==> |r[k]| > 2 && r[k] !in stop && r[k] in words
  {
    if words == [] then []
    else if |words[0]| > 2 && words[0] !in stop then [words[0]] + Filtered(words[1..], stop)
    else Filtered(words[1..], stop)
  }

  /** No passing word is left out. */
  lemma {:induction false} FilteredComplete(words: seq<string>, stop: set<string>)
    ensures forall w :: w in words && |w| > 2 && w !in stop ==> w in Filtered(words, stop)
  {
    if words != [] {
      FilteredComplete(words[1..], stop);
      assert forall w :: w in words ==> w == words[0] || w in words[1..];
    }
  }

  /** Filtering two stretches of words filters each, in order: the comprehension keeps the order. */
  lemma {:induction false} FilteredAppend(a: seq<string>, b: seq<string>, stop: set<string>)
    ensures Filtered(a + b, stop) == Filtered(a, stop) + Filtered(b, stop)
  {
    if a != [] {
      assert (a + b)[0] == a[0] && (a + b)[1..] == a[1..] + b;
      FilteredAppend(a[1..], b, stop);
    } else {
      assert a + b == b;
    }
  }

  /** One word is kept exactly when it is longer than two characters and not a stop word. */
  lemma FilteredOne(w: string, stop: set<string>)
    ensures Filtered([w], stop) == if |w| > 2 && w !in stop then [w] else []
  {
    assert [w][1..] == [];
  }

  /** Of two kept words, the one kept first comes first among the words. */
  lemma {:induction false} FilteredOrder(words: seq<string>, stop: set<string>, x: string, y: string)
    requires x in Filtered(words, stop) && y in Filtered(words, stop)
    requires FirstIndex(Filtered(words, stop), x) < FirstIndex(Filtered(words, stop), y)
    ensures x in words && y in words && FirstIndex(words, x) < FirstIndex(words, y)
  {
    var f := Filtered(words, stop);
    assert f[FirstIndex(f, x)] == x && f[FirstIndex(f, y)] == y;
    if words[0] != x {
      var rest := words[1..];
      assert x in rest && y in rest;
      FilteredComplete(rest, stop);
      FilteredOrder(rest, stop, x, y);
    }
  }

  /** Two stop-word sets that agree on every word filter alike. */
  lemma {:induction false} FilteredSameStops(words: seq<string>, s1: set<string>, s2: set<string>)
    requires forall k :: 0 <= k < |words| ==> (words[k] in s1 <==> words[k] in s2)
    ensures Filtered(words, s1) == Filtered(words, s2)
  {
    if words != [] {
      assert forall k :: 0 <= k < |words[1..]| ==> words[1..][k] == words[k + 1];
      FilteredSameStops(words[1..], s1, s2);
    }
  }

  /**
   * The first `m` filtered words are all the filtered words of some leading stretch of the
   * words; that stretch is all the words unless `m` words were found.
   */
  lemma {:induction false} FilteredPrefix(words: seq<string>, stop: set<string>, m: nat)
    ensures exists n ::
      && 0 <= n <= |words|
      && Prefix(Filtered(words, stop), m) == Filtered(words[..n], stop)
      && (|Prefix(Filtered(words, stop), m)| == m || n == |words|)
  {
    if words == [] {
      assert words[..0] == words;
    } else if m == 0 {
      assert Filtered(words[..0], stop) == [];
    } else {
      var w, rest := words[0], words[1..];
      var m' := if |w| > 2 && w !in stop then m - 1 else m;
      FilteredPrefix(rest, stop, m');
      var n' :| 0 <= n' <= |rest| && Prefix(Filtered(rest, stop), m') == Filtered(rest[..n'], stop)
        && (|Prefix(Filtered(rest, stop), m')| == m' || n' == |rest|);
      var n := n' + 1;
      TakeCons(words, n);
      assert Filtered(words[..n], stop)
          == (if |w| > 2 && w !in stop then [w] else []) + Filtered(rest[..n'], stop);
      if |w| > 2 && w !in stop {
        PrefixCons(w, Filtered(rest, stop), m);
      }
    }
  }

  /**
   * The first `n` distinct passing words: at most `n`, no duplicates, each a passing word, in
   * the order the words first occur; a passing word left out first occurs after every kept
   * one, and none is left out when fewer than `n` are kept.
   */
  lemma FirstDistinctFiltered(words: seq<string>, stop: set<string>, n: nat)
    ensures var r := Prefix(FirstOccurrences(Filtered(words, stop)), n);
      && |r| <= n
      && Distinct(r)
      && (forall k :: 0 <= k < |r| ==> |r[k]| > 2 && r[k] !in stop && r[k] in words)
      && (forall i, j :: 0 <= i < j < |r| ==> FirstIndex(words, r[i]) < FirstIndex(words, r[j]))
      && (forall w, k :: w in words && |w| > 2 && w !in stop && w !in r && 0 <= k < |r| ==>
            FirstIndex(words, r[k]) < FirstIndex(words, w))
      && (|r| < n ==> forall w :: w in words && |w| > 2 && w !in stop ==> w in r)
  {
    var c := Filtered(words, stop);
    var r := Prefix(FirstOccurrences(c), n);
    FirstDistinct(c, n);
    FilteredComplete(words, stop);
    forall k | 0 <= k < |r| ensures |r[k]| > 2 && r[k] !in stop && r[k] in words {
      assert r[k] in c;
      var j :| 0 <= j < |c| && c[j] == r[k];
    }
    forall i, j | 0 <= i < j < |r| ensures FirstIndex(words, r[i]) < FirstIndex(words, r[j]) {
      FilteredOrder(words, stop, r[i], r[j]);
    }
    forall w, k | w in words && |w| > 2 && w !in stop && w !in r && 0 <= k < |r|
      ensures FirstIndex(words, r[k]) < FirstIndex(words, w)
    {
      FilteredOrder(words, stop, r[k], w);
    }
  }
}
