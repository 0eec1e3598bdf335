/**
 * The translation lookup rule that scripts/csv-to-bilingual.py, scripts/csv-to-bilingual-ai.py
 * and scripts/analyze-dictionary-coverage.py each implement: an exact key first, then the first
 * key (in dictionary order) that occurs case-insensitively in the text, then nothing.
 */
module DictLookup {
  import opened Common
  import opened PyStr

  /** A Python dict literal: its (key, value) entries in insertion order. */
  type Dict = seq<(string, string)>

  /** Every Python dict has distinct keys. */
  predicate DistinctKeys(d: Dict)
  {
    forall i, j :: 0 <= i < j < |d| ==> d[i].0 != d[j].0
  }

  /** `text in dict` */
  predicate IsKey(d: Dict, text: string)
  {
    exists i :: 0 <= i < |d| && d[i].0 == text
  }

  /** `key.lower() in text.lower()` */
  predicate Matches(key: string, text: string)
  {
    Contains(Lower(text), Lower(key))
  }

  function ExactFrom(d: Dict, text: string, i: nat): (r: Option<nat>)
    requires i <= |d|
    ensures r.Some? ==> i <= r.value < |d| && d[r.value].0 == text
    ensures r.None? ==> forall j :: i <= j < |d| ==> d[j].0 != text
    decreases |d| - i
  {
    if i == |d| then None
    else if d[i].0 == text then Some(i)
    else ExactFrom(d, text, i + 1)
  }

  /** The entry `dict[text]` reads, if `text` is a key. */
  function ExactIndex(d: Dict, text: string): (r: Option<nat>)
    ensures r.Some? ==> r.value < |d| && d[r.value].0 == text
    ensures r.None? <==> !IsKey(d, text)
  {
    ExactFrom(d, text, 0)
  }

  function PartialFrom(d: Dict, text: string, i: nat): (r: Option<nat>)
    requires i <= |d|
    ensures r.Some? ==> i <= r.value < |d| && Matches(d[r.value].0, text)
    ensures r.Some? ==> forall j :: i <= j < r.value ==> !Matches(d[j].0, text)
    ensures r.None? ==> forall j :: i <= j < |d| ==> !Matches(d[j].0, text)
    decreases |d| - i
  {
    if i == |d| then None
    else if Matches(d[i].0, text) then Some(i)
    else PartialFrom(d, text, i + 1)
  }

  /** The first entry, in dictionary order, whose key occurs case-insensitively in `text`. */
  function PartialIndex(d: Dict, text: string): (r: Option<nat>)
    ensures r.Some? ==> r.value < |d| && Matches(d[r.value].0, text)
    ensures r.Some? ==> forall j :: 0 <= j < r.value ==> !Matches(d[j].0, text)
    ensures r.None? ==> forall j :: 0 <= j < |d| ==> !Matches(d[j].0, text)
  {
    PartialFrom(d, text, 0)
  }

  /** The dictionary translation of `text`, `""` when there is none. */
  function Lookup(d: Dict, text: string): string
  {
    match ExactIndex(d, text)
    case Some(i) => d[i].1
    case None =>
      match PartialIndex(d, text)
      case Some(j) => d[j].1
      case None => ""
  }

  /** An exact key yields its own value. */
  lemma LookupExact(d: Dict, text: string, i: nat)
    requires DistinctKeys(d)
    requires i < |d| && d[i].0 == text
    ensures Lookup(d, text) == d[i].1
  {
    var k := ExactIndex(d, text).value;
    assert k == i by {
      assert d[k].0 == d[i].0;
    }
  }

  /** Otherwise the first key, in dictionary order, that occurs in the text decides. */
  lemma LookupPartial(d: Dict, text: string, i: nat)
    requires !IsKey(d, text)
    requires i < |d| && Matches(d[i].0, text)
    requires forall j :: 0 <= j < i ==> !Matches(d[j].0, text)
    ensures Lookup(d, text) == d[i].1
  {
    var k := PartialIndex(d, text).value;
    assert k == i by {
      assert !(k < i) && !(i < k);
    }
  }

  /** With neither an exact nor a partial match the translation is empty. */
  lemma LookupMiss(d: Dict, text: string)
    requires !IsKey(d, text)
    requires forall j :: 0 <= j < |d| ==> !Matches(d[j].0, text)
    ensures Lookup(d, text) == ""
  {
  }
}
