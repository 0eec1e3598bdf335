/**
 * scripts/analyze-dictionary-coverage.py: how much of a CSV file's descriptions the translation
 * dictionary of scripts/csv-to-bilingual.py covers, by exact key, by a key occurring in the
 * text, or not at all; and the most common categories among the misses.
 */
module DictionaryCoverage {
  import opened Common
  import opened PyStr
  import opened Seqs
  import opened DictLookup
  import CsvToBilingual

  // ---------------------------------------------------------------- reading

  /** `_read_csv`: the stripped descriptions, in file order, leaving out the empty ones. */
  function NonEmptyDescriptions(rows: seq<Row>): (r: seq<string>)
    ensures |r| <= |rows|
    ensures forall k :: 0 <= k < |r| ==> r[k] != "" && IsStripped(r[k])
  {
    if rows == [] then []
    else if Strip(Get(rows[|rows| - 1], "description")) != "" then
      NonEmptyDescriptions(rows[..|rows| - 1]) + [Strip(Get(rows[|rows| - 1], "description"))]
    else NonEmptyDescriptions(rows[..|rows| - 1])
  }

  /** Reading two stretches of a file reads the descriptions of each, in order. */
  lemma {:induction false} NonEmptyDescriptionsAppend(a: seq<Row>, b: seq<Row>)
    ensures NonEmptyDescriptions(a + b) == NonEmptyDescriptions(a) + NonEmptyDescriptions(b)
    decreases |b|
  {
    if b == [] {
      assert a + b == a;
    } else {
      assert (a + b)[..|a + b| - 1] == a + b[..|b| - 1];
      NonEmptyDescriptionsAppend(a, b[..|b| - 1]);
    }
  }

  /** One row gives its stripped description exactly when that is non-empty. */
  lemma NonEmptyDescriptionsOne(row: Row)
    ensures NonEmptyDescriptions([row])
         == if Strip(Get(row, "description")) != "" then [Strip(Get(row, "description"))] else []
  {
    assert [row][..0] == [];
  }

  /** No non-empty description is left out. */
  lemma {:induction false} NonEmptyDescriptionsComplete(rows: seq<Row>)
    ensures forall k :: 0 <= k < |rows| && Strip(Get(rows[k], "description")) != "" ==>
      Strip(Get(rows[k], "description")) in NonEmptyDescriptions(rows)
  {
    if rows != [] {
      var init := rows[..|rows| - 1];
      NonEmptyDescriptionsComplete(init);
      assert forall k :: 0 <= k < |init| ==> init[k] == rows[k];
    }
  }

  // ---------------------------------------------------------------- classification

  /** Where `_analyze_coverage` files a description. */
  datatype Match = Exact | Partial(key: string) | NoMatch

  /** The exact key test first, then the first key in dictionary order occurring in the text. */
  function Classify(d: Dict, desc: string): Match
  {
    if ExactIndex(d, desc).Some? then Exact
    else
      match PartialIndex(d, desc)
      case Some(i) => Partial(d[i].0)
      case None => NoMatch
  }

  /**
   * Exact exactly for a key; otherwise partial with the first key in dictionary order that
   * occurs in the text; a miss exactly when neither applies.
   */
  lemma ClassifySpec(d: Dict, desc: string)
    ensures Classify(d, desc) == Exact <==> IsKey(d, desc)
    ensures Classify(d, desc).Partial? ==> !IsKey(d, desc) && exists i :: (0 <= i < |d|
      && d[i].0 == Classify(d, desc).key && Matches(d[i].0, desc)
      && forall j :: 0 <= j < i ==> !Matches(d[j].0, desc))
    ensures Classify(d, desc) == NoMatch <==>
      !IsKey(d, desc) && forall j :: 0 <= j < |d| ==> !Matches(d[j].0, desc)
  {
    if Classify(d, desc).Partial? {
      var i := PartialIndex(d, desc).value;
      assert d[i].0 == Classify(d, desc).key;
    }
  }

  /**
   * The classifier agrees with the translator of scripts/csv-to-bilingual.py: when no value of
   * the dictionary is empty, a description is a miss exactly when it has no translation.
   */
  lemma ClassifyAgreesWithLookup(d: Dict, desc: string)
    requires forall i :: 0 <= i < |d| ==> d[i].1 != ""
    ensures Classify(d, desc) == NoMatch <==> Lookup(d, desc) == ""
  {
    if Classify(d, desc) != NoMatch {
      assert ExactIndex(d, desc).Some? || PartialIndex(d, desc).Some?;
    }
  }

  function Exacts(d: Dict, descs: seq<string>): (r: seq<string>)
    ensures |r| <= |descs|
  {
    if descs == [] then []
    else if Classify(d, descs[|descs| - 1]) == Exact then Exacts(d, descs[..|descs| - 1]) + [descs[|descs| - 1]]
    else Exacts(d, descs[..|descs| - 1])
  }

  function Partials(d: Dict, descs: seq<string>): (r: seq<(string, string)>)
    ensures |r| <= |descs|
  {
    if descs == [] then []
    else if Classify(d, descs[|descs| - 1]).Partial? then
      Partials(d, descs[..|descs| - 1]) + [(descs[|descs| - 1], Classify(d, descs[|descs| - 1]).key)]
    else Partials(d, descs[..|descs| - 1])
  }

  function NoMatches(d: Dict, descs: seq<string>): (r: seq<string>)
    ensures |r| <= |descs|
  {
    if descs == [] then []
    else if Classify(d, descs[|descs| - 1]) == NoMatch then NoMatches(d, descs[..|descs| - 1]) + [descs[|descs| - 1]]
    else NoMatches(d, descs[..|descs| - 1])
  }

  /**
   * Every description lands in exactly one of the three lists: the sizes add up, and each list
   * holds exactly the descriptions of its class (with the matched key for a partial match).
   */
  lemma {:induction false} ClassesPartition(d: Dict, descs: seq<string>)
    ensures |Exacts(d, descs)| + |Partials(d, descs)| + |NoMatches(d, descs)| == |descs|
    ensures forall x :: x in Exacts(d, descs) <==> x in descs && Classify(d, x) == Exact
    ensures forall x :: x in NoMatches(d, descs) <==> x in descs && Classify(d, x) == NoMatch
    ensures forall p :: p in Partials(d, descs) <==> p.0 in descs && Classify(d, p.0) == Partial(p.1)
  {
    if descs != [] {
      var n := |descs| - 1;
      ClassesPartition(d, descs[..n]);
      assert descs == descs[..n] + [descs[n]];
      assert forall x :: x in descs <==> x in descs[..n] || x == descs[n];
    }
  }

  /** Classifying one more description extends the lists by what that description alone gives. */
  lemma ClassesSnoc(d: Dict, descs: seq<string>, i: nat)
    requires i < |descs|
    ensures Exacts(d, descs[..i + 1]) == Exacts(d, descs[..i]) + Exacts(d, [descs[i]])
    ensures Partials(d, descs[..i + 1]) == Partials(d, descs[..i]) + Partials(d, [descs[i]])
    ensures NoMatches(d, descs[..i + 1]) == NoMatches(d, descs[..i]) + NoMatches(d, [descs[i]])
  {
    assert descs[..i + 1][..i] == descs[..i];
    assert [descs[i]][..0] == [];
  }

  // ---------------------------------------------------------------- statistics

  /** `_print_results`: exact, partial, missing and total-coverage percentages. */
  datatype Report = Report(exact: nat, partial: nat, missing: nat, coverage: nat)

  function Results(exact: nat, partial: nat, missing: nat): (r: Report)
    ensures exact + partial + missing == 0 ==> r == Report(0, 0, 0, 0)
    ensures r.exact + r.partial + r.missing <= 100
    ensures r.exact + r.partial <= r.coverage <= 100
    ensures r.coverage + r.missing <= 100
  {
    var total := exact + partial + missing;
    PercentOfSum(exact, partial, total);
    PercentOfSum(exact + partial, missing, total);
    PercentsOfPartition(exact + partial, missing, total);
    Report(Percent(exact, total), Percent(partial, total), Percent(missing, total),
           Percent(exact + partial, total))
  }

  // ---------------------------------------------------------------- categories of misses

  /** The stripped text before the first `;`. */
  function Category(desc: string): string
  {
    Strip(Split(desc, ';')[0])
  }

  /** A description `a;…` falls in category `a` (stripped). */
  lemma CategoryOfLabel(a: string, t: string)
    requires ';' !in a
    ensures Category(a + ";" + t) == Strip(a)
  {
    SplitAfterSeparator(a, t, ';');
  }

  function Categories(descs: seq<string>): (r: seq<string>)
    ensures |r| == |descs| && forall k :: 0 <= k < |descs| ==> r[k] == Category(descs[k])
  {
    seq(|descs|, k requires 0 <= k < |descs| => Category(descs[k]))
  }

  lemma CategoriesSnoc(descs: seq<string>, i: nat)
    requires i < |descs|
    ensures Categories(descs[..i + 1]) == Categories(descs[..i]) + [Category(descs[i])]
  {
    var a, b := Categories(descs[..i + 1]), Categories(descs[..i]) + [Category(descs[i])];
    assert forall k :: 0 <= k < i + 1 ==> a[k] == b[k];
  }

  /** The descriptions of category `c`, in order. */
  function WithCategory(descs: seq<string>, c: string): (r: seq<string>)
    ensures |r| <= |descs|
  {
    if descs == [] then []
    else if Category(descs[|descs| - 1]) == c then WithCategory(descs[..|descs| - 1], c) + [descs[|descs| - 1]]
    else WithCategory(descs[..|descs| - 1], c)
  }

  lemma {:induction false} WithCategoryAbsent(descs: seq<string>, c: string)
    requires c !in Categories(descs)
    ensures WithCategory(descs, c) == []
  {
    if descs != [] {
      var n := |descs| - 1;
      assert Categories(descs)[n] == Category(descs[n]);
      assert c !in Categories(descs[..n]) by {
        assert forall k :: 0 <= k < n ==> Categories(descs[..n])[k] == Categories(descs)[k];
      }
      WithCategoryAbsent(descs[..n], c);
    }
  }

  type Group = (string, seq<string>)

  /** The grouping `missing_by_category` should hold: each category once, with its descriptions. */
  function Groups(descs: seq<string>): (r: seq<Group>)
    ensures |r| == |FirstOccurrences(Categories(descs))|
  {
    var cs := FirstOccurrences(Categories(descs));
    seq(|cs|, k requires 0 <= k < |cs| => (cs[k], WithCategory(descs, cs[k])))
  }

  /**
   * `missing_by_category`: one group per category, in the order categories first occur, each
   * holding that category's descriptions in order.
   */
  method GroupByCategory(descs: seq<string>) returns (groups: seq<Group>)
    ensures KeysOf(groups) == FirstOccurrences(Categories(descs))
    ensures forall k :: 0 <= k < |groups| ==> groups[k].1 == WithCategory(descs, groups[k].0)
    ensures groups == Groups(descs)
  {
    groups := [];
    for i := 0 to |descs|
      invariant KeysOf(groups) == FirstOccurrences(Categories(descs[..i]))
      invariant forall k :: 0 <= k < |groups| ==> groups[k].1 == WithCategory(descs[..i], groups[k].0)
    {
      var desc := descs[i];
      var category := Category(desc);
      ghost var seen := descs[..i];
      assert descs[..i + 1][..i] == seen;
      CategoriesSnoc(descs, i);
      FirstOccurrencesElements(Categories(seen));
      if category !in KeysOf(groups) {
        WithCategoryAbsent(seen, category);
        assert KeysOf(groups + [(category, [desc])]) == KeysOf(groups) + [category];
        GroupAppended(groups, descs, i, category);
        groups := groups + [(category, [desc])];
      } else {
        var k := FirstIndex(KeysOf(groups), category);
        GroupExtended(groups, descs, i, k);
        groups := groups[k := (category, groups[k].1 + [desc])];
      }
    }
    assert descs[..|descs|] == descs;
    assert forall k :: 0 <= k < |groups| ==> KeysOf(groups)[k] == groups[k].0;
  }

  lemma GroupAppended(groups: seq<Group>, descs: seq<string>, i: nat, category: string)
    requires i < |descs| && category == Category(descs[i]) && category !in KeysOf(groups)
    requires WithCategory(descs[..i], category) == []
    requires forall k :: 0 <= k < |groups| ==> groups[k].1 == WithCategory(descs[..i], groups[k].0)
    ensures var g := groups + [(category, [descs[i]])];
      forall k :: 0 <= k < |g| ==> g[k].1 == WithCategory(descs[..i + 1], g[k].0)
  {
    assert descs[..i + 1][..i] == descs[..i];
    var g := groups + [(category, [descs[i]])];
    forall k | 0 <= k < |g| ensures g[k].1 == WithCategory(descs[..i + 1], g[k].0) {
      if k < |groups| {
        assert KeysOf(groups)[k] == groups[k].0 && g[k] == groups[k];
        assert groups[k].0 != category;
      }
    }
  }

  lemma GroupExtended(groups: seq<Group>, descs: seq<string>, i: nat, k: nat)
    requires i < |descs| && k < |groups| && groups[k].0 == Category(descs[i])
    requires Distinct(KeysOf(groups))
    requires forall j :: 0 <= j < |groups| ==> groups[j].1 == WithCategory(descs[..i], groups[j].0)
    ensures var g := groups[k := (groups[k].0, groups[k].1 + [descs[i]])];
      && KeysOf(g) == KeysOf(groups)
      && forall j :: 0 <= j < |g| ==> g[j].1 == WithCategory(descs[..i + 1], g[j].0)
  {
    assert descs[..i + 1][..i] == descs[..i];
    var g := groups[k := (groups[k].0, groups[k].1 + [descs[i]])];
    forall j | 0 <= j < |g| ensures g[j].1 == WithCategory(descs[..i + 1], g[j].0) {
      if j != k {
        assert KeysOf(groups)[j] != KeysOf(groups)[k];
      }
    }
  }

  /** The size of a group, the key of `sorted(..., key=lambda x: len(x[1]), reverse=True)`. */
  function Count(g: Group): nat
  {
    |g.1|
  }

  /** Non-increasing group sizes. */
  predicate NonIncreasing(s: seq<Group>)
  {
    forall i, j :: 0 <= i < j < |s| ==> Count(s[i]) >= Count(s[j])
  }

  /** The groups of a given size, in order. */
  function WithCount(s: seq<Group>, n: nat): seq<Group>
  {
    if s == [] then []
    else if Count(s[0]) == n then [s[0]] + WithCount(s[1..], n)
    else WithCount(s[1..], n)
  }

  /** Insert `g` in front of the first group no larger than it. */
  function Insert(g: Group, t: seq<Group>): (r: seq<Group>)
    ensures multiset(r) == multiset(t) + multiset{g}
  {
    if t == [] then [g]
    else if Count(t[0]) <= Count(g) then [g] + t
    else
      assert t == [t[0]] + t[1..];
      [t[0]] + Insert(g, t[1..])
  }

  /** A stable sort by group size, largest first, as Python's `sorted(..., reverse=True)`. */
  function SortByCount(s: seq<Group>): (r: seq<Group>)
    ensures multiset(r) == multiset(s)
  {
    if s == [] then []
    else
      assert s == [s[0]] + s[1..];
      Insert(s[0], SortByCount(s[1..]))
  }

  /** No group of `s` is larger than `n`. */
  predicate AtMost(s: seq<Group>, n: nat)
  {
    forall i :: 0 <= i < |s| ==> Count(s[i]) <= n
  }

  lemma {:induction false} InsertAtMost(g: Group, t: seq<Group>, n: nat)
    requires AtMost(t, n) && Count(g) <= n
    ensures AtMost(Insert(g, t), n)
  {
    if t != [] && Count(t[0]) > Count(g) {
      InsertAtMost(g, t[1..], n);
      var r' := Insert(g, t[1..]);
      assert forall i :: 1 <= i < |r'| + 1 ==> ([t[0]] + r')[i] == r'[i - 1];
    }
  }

  lemma NonIncreasingCons(h: Group, t: seq<Group>)
    requires NonIncreasing(t) && AtMost(t, Count(h))
    ensures NonIncreasing([h] + t)
  {
    var s := [h] + t;
    forall i, j | 0 <= i < j < |s| ensures Count(s[i]) >= Count(s[j]) {
      assert s[j] == t[j - 1];
      if i > 0 {
        assert s[i] == t[i - 1];
      }
    }
  }

  lemma {:induction false} InsertSorted(g: Group, t: seq<Group>)
    requires NonIncreasing(t)
    ensures NonIncreasing(Insert(g, t))
  {
    if t != [] {
      var t' := t[1..];
      assert NonIncreasing(t') && AtMost(t', Count(t[0])) by {
        assert forall i :: 0 <= i < |t'| ==> t'[i] == t[i + 1];
      }
      if Count(t[0]) <= Count(g) {
        assert t == [t[0]] + t';
        assert AtMost(t, Count(g)) by {
          assert forall i :: 0 <= i < |t| ==> Count(t[i]) <= Count(t[0]);
        }
        NonIncreasingCons(g, t);
      } else {
        InsertSorted(g, t');
        InsertAtMost(g, t', Count(t[0]));
        NonIncreasingCons(t[0], Insert(g, t'));
      }
    }
  }

  lemma {:induction false} InsertWithCount(g: Group, t: seq<Group>, n: nat)
    ensures WithCount(Insert(g, t), n) == if Count(g) == n then [g] + WithCount(t, n) else WithCount(t, n)
  {
    if t == [] {
    } else if Count(t[0]) <= Count(g) {
      assert ([g] + t)[1..] == t;
    } else {
      InsertWithCount(g, t[1..], n);
      assert ([t[0]] + Insert(g, t[1..]))[1..] == Insert(g, t[1..]);
      if Count(g) == n {
        assert ([g] + WithCount(t[1..], n))[1..] == WithCount(t[1..], n);
      }
    }
  }

  /**
   * The sort orders by size, largest first, is a permutation, and is stable: the groups of any
   * one size appear in the order they had before.
   */
  lemma {:induction false} SortByCountSpec(s: seq<Group>)
    ensures NonIncreasing(SortByCount(s))
    ensures multiset(SortByCount(s)) == multiset(s)
    ensures forall n: nat :: WithCount(SortByCount(s), n) == WithCount(s, n)
  {
    if s != [] {
      SortByCountSpec(s[1..]);
      InsertSorted(s[0], SortByCount(s[1..]));
      forall n: nat ensures WithCount(SortByCount(s), n) == WithCount(s, n) {
        InsertWithCount(s[0], SortByCount(s[1..]), n);
      }
    }
  }

  /** `x` occurs somewhere before `y` in `s`. */
  predicate Before<T(==)>(s: seq<T>, x: T, y: T)
  {
    exists i, j :: 0 <= i < j < |s| && s[i] == x && s[j] == y
  }

  /**
   * Of two groups of the same size, insertion puts one before the other only when they were in
   * that order already, or when the first is the inserted group.
   */
  lemma {:induction false} InsertBefore(g: Group, t: seq<Group>, x: Group, y: Group)
    requires Count(x) == Count(y) && Before(Insert(g, t), x, y)
    ensures Before(t, x, y) || (x == g && y in t)
  {
    var r := Insert(g, t);
    var i, j :| 0 <= i < j < |r| && r[i] == x && r[j] == y;
    if t == [] {
    } else if Count(t[0]) <= Count(g) {
      assert r == [g] + t;
      if i == 0 {
        assert y == t[j - 1];
      } else {
        assert x == t[i - 1] && y == t[j - 1];
      }
    } else {
      var t' := t[1..];
      var r' := Insert(g, t');
      assert r == [t[0]] + r';
      if i == 0 {
        assert y == r'[j - 1];
        assert y in multiset(r');
        assert y != g;
        var k :| 0 <= k < |t'| && t'[k] == y;
        assert t[0] == x && t[k + 1] == y;
      } else {
        assert r'[i - 1] == x && r'[j - 1] == y;
        InsertBefore(g, t', x, y);
        if Before(t', x, y) {
          var a, b :| 0 <= a < b < |t'| && t'[a] == x && t'[b] == y;
          assert t[a + 1] == x && t[b + 1] == y;
        } else {
          assert y in t;
        }
      }
    }
  }

  /** Stability, pair by pair: the sort keeps two groups of the same size in their input order. */
  lemma {:induction false} SortByCountStable(s: seq<Group>, x: Group, y: Group)
    requires Count(x) == Count(y) && Before(SortByCount(s), x, y)
    ensures Before(s, x, y)
  {
    if s != [] {
      var s' := s[1..];
      var t := SortByCount(s');
      InsertBefore(s[0], t, x, y);
      if Before(t, x, y) {
        SortByCountStable(s', x, y);
        var a, b :| 0 <= a < b < |s'| && s'[a] == x && s'[b] == y;
        assert s[a + 1] == x && s[b + 1] == y;
      } else {
        assert y in multiset(t);
        var k :| 0 <= k < |s'| && s'[k] == y;
        assert s[0] == x && s[k + 1] == y;
      }
    }
  }

  // ---------------------------------------------------------------- the analyzer

  /** `DictionaryCoverageAnalyzer` with its descriptions and the three classified lists. */
  class CoverageAnalyzer {
    const dictionary: Dict
    var descriptions: seq<string>
    var exactMatches: seq<string>
    var partialMatches: seq<(string, string)>
    var noMatches: seq<string>

    /** The analyzer reads the dictionary of scripts/csv-to-bilingual.py. */
    constructor()
      ensures dictionary == CsvToBilingual.TranslationDict
      ensures descriptions == [] && exactMatches == [] && partialMatches == [] && noMatches == []
    {
      dictionary := CsvToBilingual.TranslationDict;
      descriptions, exactMatches, partialMatches, noMatches := [], [], [], [];
    }

    /** `_read_csv` over the rows `csv.DictReader` yields. */
    method ReadCsv(rows: seq<Row>)
      modifies this
      ensures descriptions == old(descriptions) + NonEmptyDescriptions(rows)
      ensures exactMatches == old(exactMatches) && partialMatches == old(partialMatches)
      ensures noMatches == old(noMatches)
    {
      ghost var start := descriptions;
      for i := 0 to |rows|
        invariant descriptions == start + NonEmptyDescriptions(rows[..i])
        invariant exactMatches == old(exactMatches) && partialMatches == old(partialMatches)
        invariant noMatches == old(noMatches)
      {
        assert rows[..i + 1][..i] == rows[..i];
        var description := Strip(Get(rows[i], "description"));
        if description != "" {
          descriptions := descriptions + [description];
        }
      }
      assert rows[..|rows|] == rows;
    }

    /**
     * The partial-match loop of `_analyze_coverage`: record the first key in dictionary order
     * occurring in `desc`, if there is one.
     */
    method MatchPartially(desc: string) returns (matched: bool)
      modifies this
      ensures matched <==> PartialIndex(dictionary, desc).Some?
      ensures matched ==>
        partialMatches == old(partialMatches) + [(desc, dictionary[PartialIndex(dictionary, desc).value].0)]
      ensures !matched ==> partialMatches == old(partialMatches)
      ensures descriptions == old(descriptions) && exactMatches == old(exactMatches)
      ensures noMatches == old(noMatches)
    {
      matched := false;
      for j := 0 to |dictionary|
        invariant !matched && partialMatches == old(partialMatches)
        invariant descriptions == old(descriptions) && exactMatches == old(exactMatches)
        invariant noMatches == old(noMatches)
        invariant forall l :: 0 <= l < j ==> !Matches(dictionary[l].0, desc)
      {
        var dictKey := dictionary[j].0;
        if Matches(dictKey, desc) {
          assert PartialIndex(dictionary, desc) == Some(j) by {
            var k := PartialIndex(dictionary, desc);
            assert !(k.value < j) && !(j < k.value);
          }
          partialMatches := partialMatches + [(desc, dictKey)];
          matched := true;
          break;
        }
      }
    }

    /** The body of `_analyze_coverage` for one description. */
    method FileDescription(desc: string)
      modifies this
      ensures descriptions == old(descriptions)
      ensures exactMatches == old(exactMatches) + Exacts(dictionary, [desc])
      ensures partialMatches == old(partialMatches) + Partials(dictionary, [desc])
      ensures noMatches == old(noMatches) + NoMatches(dictionary, [desc])
    {
      assert [desc][..0] == [];
      if ExactIndex(dictionary, desc).Some? {
        exactMatches := exactMatches + [desc];
        return;
      }
      var matched := MatchPartially(desc);
      if !matched {
        noMatches := noMatches + [desc];
      }
    }

    /** `_analyze_coverage`: file every description under the first rule that matches it. */
    method AnalyzeCoverage()
      modifies this
      ensures descriptions == old(descriptions)
      ensures exactMatches == old(exactMatches) + Exacts(dictionary, descriptions)
      ensures partialMatches == old(partialMatches) + Partials(dictionary, descriptions)
      ensures noMatches == old(noMatches) + NoMatches(dictionary, descriptions)
    {
      ghost var e0, p0, n0 := exactMatches, partialMatches, noMatches;
      for i := 0 to |descriptions|
        invariant descriptions == old(descriptions)
        invariant exactMatches == e0 + Exacts(dictionary, descriptions[..i])
        invariant partialMatches == p0 + Partials(dictionary, descriptions[..i])
        invariant noMatches == n0 + NoMatches(dictionary, descriptions[..i])
      {
        ClassesSnoc(dictionary, descriptions, i);
        FileDescription(descriptions[i]);
      }
      assert descriptions[..|descriptions|] == descriptions;
    }

    /** `_print_results`' percentages of the three lists. */
    function Percentages(): (r: Report)
      reads this
      ensures r.exact + r.partial + r.missing <= 100
    {
      Results(|exactMatches|, |partialMatches|, |noMatches|)
    }

    /**
     * `_print_recommendations`: the first five groups of the stable largest-first sort of the
     * misses grouped by category. So at most five distinct categories with all their
     * descriptions, largest first, equal sizes in the order the categories first occur; a
     * category is left out only when five are shown, and then it is no larger than the fifth
     * and, when of the same size, occurs first after it.
     */
    method Recommendations() returns (top: seq<Group>)
      ensures top == Prefix(SortByCount(Groups(noMatches)), 5)
      ensures |top| == Min(5, |FirstOccurrences(Categories(noMatches))|)
      ensures NonIncreasing(top) && Distinct(KeysOf(top))
      ensures forall g :: g in top ==> g.0 in Categories(noMatches) && g.1 == WithCategory(noMatches, g.0)
      ensures forall i, j :: 0 <= i < j < |top| && Count(top[i]) == Count(top[j]) ==>
        FirstIndex(Categories(noMatches), top[i].0) < FirstIndex(Categories(noMatches), top[j].0)
      ensures forall c :: c in Categories(noMatches) && c !in KeysOf(top) ==>
        && |top| == 5 && |WithCategory(noMatches, c)| <= Count(top[4])
        && (|WithCategory(noMatches, c)| == Count(top[4]) ==>
              FirstIndex(Categories(noMatches), top[4].0) < FirstIndex(Categories(noMatches), c))
    {
      var groups := GroupByCategory(noMatches);
      top := Prefix(SortByCount(groups), 5);
      TopCategories(noMatches);
    }
  }

  /** `groups` holds each category of `descs` once, in order of first occurrence, with its descriptions. */
  predicate IsGrouping(descs: seq<string>, groups: seq<Group>)
  {
    && KeysOf(groups) == FirstOccurrences(Categories(descs))
    && forall k :: 0 <= k < |groups| ==> groups[k].1 == WithCategory(descs, groups[k].0)
  }

  lemma GroupsIsGrouping(descs: seq<string>)
    ensures IsGrouping(descs, Groups(descs))
  {
  }

  /** Every sorted group is the group of one of the categories, with all its descriptions. */
  lemma SortedGroupsOfCategories(descs: seq<string>, groups: seq<Group>)
    requires IsGrouping(descs, groups)
    ensures forall g :: g in SortByCount(groups) ==>
      g.0 in Categories(descs) && g.1 == WithCategory(descs, g.0)
  {
    FirstOccurrencesElements(Categories(descs));
    forall g | g in SortByCount(groups) ensures g.0 in Categories(descs) && g.1 == WithCategory(descs, g.0) {
      assert g in multiset(SortByCount(groups));
      var k :| 0 <= k < |groups| && groups[k] == g;
      assert KeysOf(groups)[k] == g.0;
    }
  }

  /** Of two sorted groups of the same size, the one whose category occurs first comes first. */
  lemma SortedTieOrder(descs: seq<string>, groups: seq<Group>, i: nat, j: nat)
    requires IsGrouping(descs, groups)
    requires i < j < |SortByCount(groups)|
    requires Count(SortByCount(groups)[i]) == Count(SortByCount(groups)[j])
    ensures var sorted := SortByCount(groups);
      && sorted[i].0 in Categories(descs) && sorted[j].0 in Categories(descs)
      && FirstIndex(Categories(descs), sorted[i].0) < FirstIndex(Categories(descs), sorted[j].0)
  {
    var sorted := SortByCount(groups);
    var cats := Categories(descs);
    SortedGroupsOfCategories(descs, groups);
    assert sorted[i] in sorted && sorted[j] in sorted;
    assert Before(sorted, sorted[i], sorted[j]);
    SortByCountStable(groups, sorted[i], sorted[j]);
    var a, b :| 0 <= a < b < |groups| && groups[a] == sorted[i] && groups[b] == sorted[j];
    FirstOccurrencesOrder(cats);
    assert KeysOf(groups)[a] == sorted[i].0 && KeysOf(groups)[b] == sorted[j].0;
  }

  /** The sorted groups have distinct categories, as the grouping has. */
  lemma SortedDistinct(descs: seq<string>, groups: seq<Group>)
    requires IsGrouping(descs, groups)
    ensures Distinct(KeysOf(SortByCount(groups)))
  {
    var sorted := SortByCount(groups);
    SortedGroupsOfCategories(descs, groups);
    forall i, j | 0 <= i < j < |sorted| ensures KeysOf(sorted)[i] != KeysOf(sorted)[j] {
      if sorted[i].0 == sorted[j].0 {
        assert sorted[i] in sorted && sorted[j] in sorted;
        assert sorted[i] == sorted[j];
        SortedTieOrder(descs, groups, i, j);
      }
    }
  }

  /**
   * A category the first five leave out sits behind them in the sort: five are shown, it is no
   * larger than the fifth, and when it is as large it occurs after the fifth's category.
   */
  lemma LeftOutCategory(descs: seq<string>, groups: seq<Group>, c: string)
    requires IsGrouping(descs, groups)
    requires c in Categories(descs) && c !in KeysOf(Prefix(SortByCount(groups), 5))
    ensures var top := Prefix(SortByCount(groups), 5);
      && |top| == 5 && |WithCategory(descs, c)| <= Count(top[4])
      && top[4].0 in Categories(descs)
      && (|WithCategory(descs, c)| == Count(top[4]) ==>
            FirstIndex(Categories(descs), top[4].0) < FirstIndex(Categories(descs), c))
  {
    var sorted := SortByCount(groups);
    var top := Prefix(sorted, 5);
    SortByCountSpec(groups);
    FirstOccurrencesElements(Categories(descs));
    var k := FirstIndex(KeysOf(groups), c);
    assert groups[k] in multiset(sorted);
    var p :| 0 <= p < |sorted| && sorted[p] == groups[k];
    assert sorted[p].0 == c;
    assert p >= 5 && |top| == 5 by {
      assert forall q :: 0 <= q < |top| ==> KeysOf(top)[q] == sorted[q].0;
    }
    assert top[4] == sorted[4];
    SortedGroupsOfCategories(descs, groups);
    assert sorted[4] in sorted;
    if |WithCategory(descs, c)| == Count(top[4]) {
      SortedTieOrder(descs, groups, 4, p);
    }
  }

  /** The first five sorted groups: how many, largest first, distinct, each a whole category. */
  lemma TopShape(descs: seq<string>, groups: seq<Group>)
    requires IsGrouping(descs, groups)
    ensures var top := Prefix(SortByCount(groups), 5);
      && |top| == Min(5, |FirstOccurrences(Categories(descs))|)
      && NonIncreasing(top) && Distinct(KeysOf(top))
      && (forall g :: g in top ==> g.0 in Categories(descs) && g.1 == WithCategory(descs, g.0))
  {
    var sorted := SortByCount(groups);
    var top := Prefix(sorted, 5);
    SortByCountSpec(groups);
    assert |sorted| == |groups| by {
      assert |multiset(sorted)| == |multiset(groups)|;
    }
    assert forall k :: 0 <= k < |top| ==> top[k] == sorted[k];
    SortedGroupsOfCategories(descs, groups);
    SortedDistinct(descs, groups);
    assert Distinct(KeysOf(top)) by {
      assert forall k :: 0 <= k < |top| ==> KeysOf(top)[k] == KeysOf(sorted)[k];
    }
  }

  /** Among the first five sorted groups, equal sizes keep the categories' first-seen order. */
  lemma TopTies(descs: seq<string>, groups: seq<Group>)
    requires IsGrouping(descs, groups)
    ensures var top := Prefix(SortByCount(groups), 5);
      forall i, j :: 0 <= i < j < |top| && Count(top[i]) == Count(top[j]) ==>
        && top[i].0 in Categories(descs) && top[j].0 in Categories(descs)
        && FirstIndex(Categories(descs), top[i].0) < FirstIndex(Categories(descs), top[j].0)
  {
    var sorted := SortByCount(groups);
    var top := Prefix(sorted, 5);
    forall i, j | 0 <= i < j < |top| && Count(top[i]) == Count(top[j])
      ensures top[i].0 in Categories(descs) && top[j].0 in Categories(descs)
      ensures FirstIndex(Categories(descs), top[i].0) < FirstIndex(Categories(descs), top[j].0)
    {
      assert top[i] == sorted[i] && top[j] == sorted[j];
      SortedTieOrder(descs, groups, i, j);
    }
  }

  /** No category left out of the first five sorted groups outranks the fifth. */
  lemma TopLeftOut(descs: seq<string>, groups: seq<Group>)
    requires IsGrouping(descs, groups)
    ensures var top := Prefix(SortByCount(groups), 5);
      forall c :: c in Categories(descs) && c !in KeysOf(top) ==>
        && |top| == 5 && |WithCategory(descs, c)| <= Count(top[4])
        && top[4].0 in Categories(descs)
        && (|WithCategory(descs, c)| == Count(top[4]) ==>
              FirstIndex(Categories(descs), top[4].0) < FirstIndex(Categories(descs), c))
  {
    var top := Prefix(SortByCount(groups), 5);
    forall c | c in Categories(descs) && c !in KeysOf(top)
      ensures |top| == 5 && |WithCategory(descs, c)| <= Count(top[4]) && top[4].0 in Categories(descs)
      ensures |WithCategory(descs, c)| == Count(top[4]) ==>
        FirstIndex(Categories(descs), top[4].0) < FirstIndex(Categories(descs), c)
    {
      LeftOutCategory(descs, groups, c);
    }
  }

  /**
   * What `Recommendations` promises: the first five groups of the stable sort of the grouping
   * are distinct categories with all their descriptions, largest first, ties in first-seen
   * order, and nothing left out outranks them.
   */
  lemma TopCategories(descs: seq<string>)
    ensures var top := Prefix(SortByCount(Groups(descs)), 5);
      && |top| == Min(5, |FirstOccurrences(Categories(descs))|)
      && NonIncreasing(top) && Distinct(KeysOf(top))
      && (forall g :: g in top ==> g.0 in Categories(descs) && g.1 == WithCategory(descs, g.0))
      && (forall i, j :: 0 <= i < j < |top| && Count(top[i]) == Count(top[j]) ==>
            FirstIndex(Categories(descs), top[i].0) < FirstIndex(Categories(descs), top[j].0))
      && (forall c :: c in Categories(descs) && c !in KeysOf(top) ==>
            && |top| == 5 && |WithCategory(descs, c)| <= Count(top[4])
            && (|WithCategory(descs, c)| == Count(top[4]) ==>
                  FirstIndex(Categories(descs), top[4].0) < FirstIndex(Categories(descs), c)))
  {
    GroupsIsGrouping(descs);
    TopShape(descs, Groups(descs));
    TopTies(descs, Groups(descs));
    TopLeftOut(descs, Groups(descs));
  }
}
