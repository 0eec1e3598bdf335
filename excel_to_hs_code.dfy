/**
 * scripts/excel_to_hs_code.py: HS code normalisation (chapter, heading, subheading), the
 * section/chapter catalogue, and the level-indexed description cache that builds each code's
 * full description from its parents.
 *
 * A spreadsheet row maps column letters to the text of the cell, with "" for an empty cell.
 */
module ExcelToHsCode {
  import opened Common
  import opened PyStr
  import opened Seqs

  const Chuong: string := "Ch\U{01B0}\U{01A1}ng"

  // ---------------------------------------------------------------- `Chương\s+(\d+)`

  /** Length of the leading run of whitespace. */
  function SpaceRun(s: string): (n: nat)
    ensures n <= |s| && AllSpace(s[..n]) && (n < |s| ==> !IsSpace(s[n]))
  {
    if s == [] || !IsSpace(s[0]) then 0
    else
      var n := 1 + SpaceRun(s[1..]);
      assert s[..n] == [s[0]] + s[1..][..n - 1];
      n
  }

  /** Length of the leading run of digits. */
  function DigitRun(s: string): (n: nat)
    ensures n <= |s| && (forall i :: 0 <= i < n ==> IsDigit(s[i])) && (n < |s| ==> !IsDigit(s[n]))
  {
    if s == [] || !IsDigit(s[0]) then 0 else 1 + DigitRun(s[1..])
  }

  /** The group `(\d+)` of a match of `Chương\s+(\d+)` that starts at the beginning of `s`. */
  function SectionAt(s: string): (r: Option<string>)
    ensures r.Some? ==> StartsWith(s, Chuong) && IsDigits(r.value)
  {
    if !StartsWith(s, Chuong) then None
    else
      var rest := s[|Chuong|..];
      var sp := SpaceRun(rest);
      var dg := DigitRun(rest[sp..]);
      if sp == 0 || dg == 0 then None else Some(rest[sp..][..dg])
  }

  /** `re.search(r'Chương\s+(\d+)', s).group(1)`: the leftmost match. */
  function SearchSection(s: string): (r: Option<string>)
    ensures r.Some? ==> Contains(s, Chuong) && IsDigits(r.value)
    ensures !Contains(s, Chuong) ==> r.None?
    decreases |s|
  {
    if SectionAt(s).Some? then SectionAt(s)
    else if s == [] then None
    else SearchSection(s[1..])
  }

  /** `extract_section_number` */
  function ExtractSectionNumber(description: string): (r: Option<string>)
    ensures description == "" ==> r.None?
    ensures r.Some? ==> Contains(description, Chuong) && IsDigits(r.value)
  {
    if description == "" then None else SearchSection(description)
  }

  /** No match of the pattern starts before position `i` of `s`. */
  predicate NoMatchBefore(s: string, i: nat)
    requires i <= |s| + 1
  {
    forall j :: 0 <= j < i ==> SectionAt(s[j..]).None?
  }

  /** `re.search` finds nothing exactly when the pattern matches at no position. */
  lemma {:induction false} SearchSectionNone(s: string)
    ensures SearchSection(s).None? <==> NoMatchBefore(s, |s| + 1)
    decreases |s|
  {
    assert s[0..] == s;
    if SectionAt(s).None? && s != [] {
      var t := s[1..];
      SearchSectionNone(t);
      if SearchSection(t).None? {
        forall j | 0 <= j <= |s| ensures SectionAt(s[j..]).None? {
          if j > 0 {
            assert s[j..] == t[j - 1..];
          }
        }
      } else {
        var j :| 0 <= j <= |t| && SectionAt(t[j..]).Some?;
        assert s[j + 1..] == t[j..];
      }
    }
  }

  /** What `re.search` finds is the group of the leftmost match. */
  lemma {:induction false} SearchSectionSome(s: string)
    requires SearchSection(s).Some?
    ensures exists i :: 0 <= i <= |s| && SearchSection(s) == SectionAt(s[i..]) && NoMatchBefore(s, i)
    decreases |s|
  {
    assert s[0..] == s;
    if SectionAt(s).None? {
      var t := s[1..];
      SearchSectionSome(t);
      var i :| 0 <= i <= |t| && SearchSection(t) == SectionAt(t[i..]) && NoMatchBefore(t, i);
      forall j | 0 <= j < i + 1 ensures SectionAt(s[j..]).None? {
        if j > 0 {
          assert s[j..] == t[j - 1..];
        }
      }
      assert s[i + 1..] == t[i..];
    }
  }

  /** The section number of a description is the group of the leftmost match, and None without a match. */
  lemma ExtractSectionNumberLeftmost(description: string)
    ensures ExtractSectionNumber(description).None? <==> NoMatchBefore(description, |description| + 1)
    ensures ExtractSectionNumber(description).Some? ==> exists i ::
      && 0 <= i <= |description|
      && ExtractSectionNumber(description) == SectionAt(description[i..])
      && NoMatchBefore(description, i)
  {
    SearchSectionNone(description);
    if ExtractSectionNumber(description).Some? {
      SearchSectionSome(description);
    }
  }

  /**
   * A label written as "Chương", whitespace, and a number is read back as that number, after any
   * text in which the pattern matches nowhere.
   */
  lemma SectionOfLabel(pre: string, spaces: string, number: string, tail: string)
    requires spaces != [] && AllSpace(spaces) && IsDigits(number)
    requires tail == [] || !IsDigit(tail[0])
    requires NoMatchBefore(pre + Chuong + spaces + number + tail, |pre|)
    ensures ExtractSectionNumber(pre + Chuong + spaces + number + tail) == Some(number)
  {
    var marker := Chuong + spaces + number + tail;
    var s := pre + Chuong + spaces + number + tail;
    assert s == pre + marker;
    assert s[|pre|..] == marker;
    LabelMatches(spaces, number, tail);
    SearchSectionNone(s);
    SearchSectionSome(s);
    var i :| 0 <= i <= |s| && SearchSection(s) == SectionAt(s[i..]) && NoMatchBefore(s, i);
    assert i == |pre|;
  }

  lemma LabelMatches(spaces: string, number: string, tail: string)
    requires spaces != [] && AllSpace(spaces) && IsDigits(number)
    requires tail == [] || !IsDigit(tail[0])
    ensures SectionAt(Chuong + spaces + number + tail) == Some(number)
  {
    var rest := spaces + (number + tail);
    var s := Chuong + rest;
    assert Chuong + spaces + number + tail == s;
    assert s[..|Chuong|] == Chuong;
    assert s[|Chuong|..] == rest;
    SpaceRunOf(spaces, number + tail);
    assert rest[|spaces|..] == number + tail;
    DigitRunOf(number, tail);
    assert (number + tail)[..|number|] == number;
    assert SectionAt(s) == Some(number);
  }

  lemma SpaceRunOf(spaces: string, t: string)
    requires AllSpace(spaces) && (t == [] || !IsSpace(t[0]))
    ensures SpaceRun(spaces + t) == |spaces|
  {
    if spaces == [] {
      assert spaces + t == t;
    } else {
      assert (spaces + t)[1..] == spaces[1..] + t;
      SpaceRunOf(spaces[1..], t);
    }
  }

  lemma DigitRunOf(digits: string, t: string)
    requires forall i :: 0 <= i < |digits| ==> IsDigit(digits[i])
    requires t == [] || !IsDigit(t[0])
    ensures DigitRun(digits + t) == |digits|
  {
    if digits == [] {
      assert digits + t == t;
    } else {
      assert (digits + t)[1..] == digits[1..] + t;
      DigitRunOf(digits[1..], t);
    }
  }

  // ---------------------------------------------------------------- code normalisation

  /** `extract_chapter_number` */
  function ExtractChapterNumber(code: string): (r: Option<string>)
    ensures r.Some? <==> |Strip(code)| >= 2 && IsDigits(Strip(code)[..2])
    ensures r.Some? ==> r.value == Strip(code)[..2]
  {
    if code == "" then None
    else if |Strip(code)| >= 2 && IsDigits(Strip(code)[..2]) then Some(Strip(code)[..2])
    else None
  }

  /** `s.ljust(6, '0')` for a string of at most six characters. */
  function PadZeros(s: string): (r: string)
    requires |s| <= 6
    ensures |r| == 6 && r[..|s|] == s && forall i :: |s| <= i < 6 ==> r[i] == '0'
  {
    s + seq(6 - |s|, _ => '0')
  }

  /** The `full_code` normalisation: four characters get "00", six or more are cut to six. */
  function FullCode(codeStr: string): (r: string)
    ensures |r| == 6
    ensures if |codeStr| >= 6 then r == codeStr[..6] else r == PadZeros(codeStr)
  {
    if |codeStr| == 4 then
      assert codeStr + "00" == PadZeros(codeStr);
      codeStr + "00"
    else if |codeStr| >= 6 then codeStr[..6]
    else PadZeros(codeStr)
  }

  datatype Hierarchy = Hierarchy(chapter: string, heading: string, subheading: string, fullCode: string)

  predicate IsPrefix(p: string, s: string)
  {
    |p| <= |s| && s[..|p|] == p
  }

  /** `build_hs_hierarchy` */
  function BuildHsHierarchy(code: string): (r: Option<Hierarchy>)
    ensures r.None? <==> |Strip(code)| < 2
    ensures r.Some? ==>
      && |r.value.fullCode| == 6 && r.value.fullCode == FullCode(Strip(code))
      && |r.value.chapter| == 2 && IsPrefix(r.value.chapter, r.value.heading)
      && |r.value.heading| == 4 && IsPrefix(r.value.heading, r.value.subheading)
      && r.value.subheading == r.value.fullCode
  {
    if code == "" then None
    else if |Strip(code)| < 2 then None
    else
      var full := FullCode(Strip(code));
      Some(Hierarchy(full[..2], full[..4], full[..6], full))
  }

  /** `full_code` keeps the code's own characters and pads with '0' or cuts at six. */
  lemma FullCodeKeepsCode(codeStr: string)
    ensures IsPrefix(codeStr, FullCode(codeStr)) || IsPrefix(FullCode(codeStr), codeStr)
    ensures forall i :: |codeStr| <= i < 6 ==> FullCode(codeStr)[i] == '0'
  {
  }

  /** `s.replace('00', '')`: non-overlapping pairs, scanned from the left. */
  function RemoveZeroPairs(s: string): (r: string)
    ensures |r| <= |s|
  {
    if |s| >= 2 && s[0] == '0' && s[1] == '0' then RemoveZeroPairs(s[2..])
    else if s == [] then []
    else [s[0]] + RemoveZeroPairs(s[1..])
  }

  predicate AllDigits(s: string)
  {
    forall i :: 0 <= i < |s| ==> IsDigit(s[i])
  }

  predicate EvenZeros(s: string)
  {
    |s| % 2 == 0 && forall i :: 0 <= i < |s| ==> s[i] == '0'
  }

  /** Removing the "00" pairs leaves only digits exactly when there were only digits to start with. */
  lemma {:induction false} RemoveZeroPairsDigits(s: string)
    ensures AllDigits(RemoveZeroPairs(s)) <==> AllDigits(s)
    ensures AllDigits(s) ==> (RemoveZeroPairs(s) == [] <==> EvenZeros(s))
    decreases |s|
  {
    if |s| >= 2 && s[0] == '0' && s[1] == '0' {
      RemoveZeroPairsDigits(s[2..]);
      assert AllDigits(s) <==> AllDigits(s[2..]);
      assert EvenZeros(s) <==> EvenZeros(s[2..]) by {
        if EvenZeros(s[2..]) {
          assert forall i :: 2 <= i < |s| ==> s[i] == s[2..][i - 2];
        }
      }
    } else if s != [] {
      RemoveZeroPairsDigits(s[1..]);
      var r := RemoveZeroPairs(s);
      assert r == [s[0]] + RemoveZeroPairs(s[1..]);
      assert AllDigits(s) <==> IsDigit(s[0]) && AllDigits(s[1..]) by {
        if IsDigit(s[0]) && AllDigits(s[1..]) {
          assert forall i :: 1 <= i < |s| ==> s[i] == s[1..][i - 1];
        }
      }
      assert AllDigits(r) <==> IsDigit(s[0]) && AllDigits(RemoveZeroPairs(s[1..])) by {
        var t := RemoveZeroPairs(s[1..]);
        assert r[0] == s[0];
        assert forall i :: 1 <= i < |r| ==> r[i] == t[i - 1];
        assert forall i :: 0 <= i < |t| ==> t[i] == r[i + 1];
      }
      assert !EvenZeros(s) by {
        if |s| >= 2 && s[0] == '0' { assert s[1] != '0'; }
      }
    }
  }

  datatype ParentCodes = ParentCodes(chapter: string, heading: string, subheading: string)

  /** The guard of `extract_parent_codes`. */
  predicate AcceptsParentCode(codeStr: string)
  {
    |codeStr| >= 4 && IsDigits(RemoveZeroPairs(Prefix(codeStr, 6)))
  }

  /** `extract_parent_codes`; `{}` is None. */
  function ExtractParentCodes(code: string): (r: Option<ParentCodes>)
    ensures r.Some? <==> AcceptsParentCode(Strip(code))
    ensures r.Some? ==>
      && r.value.subheading == FullCode(Strip(code))
      && r.value.chapter == r.value.subheading[..2]
      && r.value.heading == r.value.subheading[..4]
  {
    if code == "" then None
    else if !AcceptsParentCode(Strip(code)) then None
    else
      var full := FullCode(Strip(code));
      Some(ParentCodes(full[..2], full[..4], full[..6]))
  }

  /**
   * The guard accepts a code of four or more characters whose first six are digits, except
   * those six (or fewer) are an even run of zeros: "0000" is refused, "00000" accepted.
   */
  lemma ParentCodeGuard(code: string)
    ensures ExtractParentCodes(code).Some? <==>
      var c := Strip(code);
      |c| >= 4 && AllDigits(Prefix(c, 6)) && !EvenZeros(Prefix(c, 6))
  {
    RemoveZeroPairsDigits(Prefix(Strip(code), 6));
  }

  /** When a code has parent codes, its hierarchy and chapter number agree with them. */
  lemma ParentCodesAgree(code: string)
    requires ExtractParentCodes(code).Some?
    ensures var p := ExtractParentCodes(code).value;
      && BuildHsHierarchy(code) == Some(Hierarchy(p.chapter, p.heading, p.subheading, p.subheading))
      && ExtractChapterNumber(code) == Some(p.chapter)
  {
    var c := Strip(code);
    RemoveZeroPairsDigits(Prefix(c, 6));
    assert IsDigit(Prefix(c, 6)[0]) && IsDigit(Prefix(c, 6)[1]);
    assert c[..2] == Prefix(c, 6)[..2];
    assert FullCode(c)[..2] == c[..2];
  }

  // ---------------------------------------------------------------- sections and chapters

  datatype Section = Section(number: string, viName: string, enName: string, description: string)
  datatype Chapter = Chapter(viName: string, enName: string, description: string)

  const ChapterWords: seq<string> := ["animals", "\U{0111}\U{1ED9}ng v\U{1EAD}t", "live"]

  /** The section a row announces, keyed "Section_<number>", if any. */
  function SectionEntry(row: Row): (r: seq<(string, Section)>)
    ensures |r| <= 1
  {
    var c := Get(row, "C");
    if c == "" || !Contains(c, Chuong) then []
    else match SearchSection(c)
      case None => []
      case Some(n) => [("Section_" + n, Section(n, c, Get(row, "H"), Get(row, "D")))]
  }

  /** `any(word in str(col_e).lower() for word in [...])` */
  predicate MentionsChapterWord(e: string)
  {
    exists k :: 0 <= k < |ChapterWords| && Contains(Lower(e), ChapterWords[k])
  }

  /** The chapter a row announces, keyed by its stripped column E, if any. */
  function ChapterEntry(row: Row): (r: seq<(string, Chapter)>)
    ensures |r| <= 1
  {
    var e := Get(row, "E");
    if e == "" || !MentionsChapterWord(e) then []
    else [(Strip(e), Chapter(Get(row, "D"), e, Get(row, "F")))]
  }

  function Sections(rows: seq<Row>): seq<(string, Section)>
  {
    FirstWins(FlatMap(SectionEntry, rows))
  }

  function Chapters(rows: seq<Row>): seq<(string, Chapter)>
  {
    FirstWins(FlatMap(ChapterEntry, rows))
  }

  lemma FirstWinsStep<V>(es: seq<(string, V)>, more: seq<(string, V)>)
    requires |more| <= 1
    ensures FirstWins(es + more) ==
      if more == [] then FirstWins(es)
      else if more[0].0 in KeysOf(FirstWins(es)) then FirstWins(es)
      else FirstWins(es) + more
  {
    if more == [] {
      assert es + more == es;
    } else {
      assert (es + more)[..|es + more| - 1] == es;
    }
  }

  /** `extract_sections_and_chapters`: two dictionaries filled in row order, first row wins. */
  method ExtractSectionsAndChapters(rows: seq<Row>)
    returns (sections: seq<(string, Section)>, chapters: seq<(string, Chapter)>)
    ensures sections == Sections(rows)
    ensures chapters == Chapters(rows)
  {
    sections, chapters := [], [];
    for i := 0 to |rows|
      invariant sections == Sections(rows[..i])
      invariant chapters == Chapters(rows[..i])
    {
      var row := rows[i];
      assert rows[..i + 1][..i] == rows[..i];
      var se := SectionEntry(row);
      FirstWinsStep(FlatMap(SectionEntry, rows[..i]), se);
      if se != [] && se[0].0 !in KeysOf(sections) {
        sections := sections + se;
      }
      var ce := ChapterEntry(row);
      FirstWinsStep(FlatMap(ChapterEntry, rows[..i]), ce);
      if ce != [] && ce[0].0 !in KeysOf(chapters) {
        chapters := chapters + ce;
      }
    }
    assert rows[..|rows|] == rows;
  }

  /**
   * Each section key appears once, in the order of the rows that first announce it, and holds
   * the section taken from that first row; the same for chapters.
   */
  lemma SectionsFirstRowWins(rows: seq<Row>)
    ensures Distinct(KeysOf(Sections(rows))) && Distinct(KeysOf(Chapters(rows)))
    ensures forall e :: e in Sections(rows) ==>
      var es := FlatMap(SectionEntry, rows);
      e.0 in KeysOf(es) && e.1 == es[FirstIndex(KeysOf(es), e.0)].1
    ensures forall e :: e in Chapters(rows) ==>
      var es := FlatMap(ChapterEntry, rows);
      e.0 in KeysOf(es) && e.1 == es[FirstIndex(KeysOf(es), e.0)].1
  {
    FirstWinsSpec(FlatMap(SectionEntry, rows));
    FirstOccurrencesElements(KeysOf(FlatMap(SectionEntry, rows)));
    FirstWinsSpec(FlatMap(ChapterEntry, rows));
    FirstOccurrencesElements(KeysOf(FlatMap(ChapterEntry, rows)));
  }

  // ---------------------------------------------------------------- the level cache

  datatype Desc = Desc(vi: string, en: string)

  /** `level_cache` with its keys in `sorted()` order. */
  type LevelCache = seq<(int, Desc)>

  predicate Sorted(c: LevelCache)
  {
    forall i, j :: 0 <= i < j < |c| ==> c[i].0 < c[j].0
  }

  /** The entries whose level satisfies `f`, in order. */
  function Keep(c: LevelCache, f: int -> bool): (r: LevelCache)
    ensures forall e :: e in r <==> e in c && f(e.0)
    ensures Sorted(c) ==> Sorted(r)
  {
    if c == [] then []
    else if !f(c[|c| - 1].0) then Keep(c[..|c| - 1], f)
    else
      var r := Keep(c[..|c| - 1], f) + [c[|c| - 1]];
      assert forall e :: e in c <==> e in c[..|c| - 1] || e == c[|c| - 1] by {
        assert c == c[..|c| - 1] + [c[|c| - 1]];
      }
      r
  }

  /** Deleting every key greater than `level`. */
  function DropAbove(c: LevelCache, level: int): (r: LevelCache)
    ensures forall e :: e in r <==> e in c && e.0 <= level
    ensures Sorted(c) ==> Sorted(r)
  {
    Keep(c, k => k <= level)
  }

  lemma SortedSplice(below: LevelCache, m: (int, Desc), above: LevelCache)
    requires Sorted(below) && Sorted(above)
    requires forall i :: 0 <= i < |below| ==> below[i].0 < m.0
    requires forall i :: 0 <= i < |above| ==> m.0 < above[i].0
    ensures Sorted(below + [m] + above)
  {
    var r := below + [m] + above;
    forall i, j | 0 <= i < j < |r| ensures r[i].0 < r[j].0 {
      if j < |below| {
        assert r[i] == below[i] && r[j] == below[j];
      } else if j == |below| {
        assert r[i] == below[i];
      } else if i < |below| {
        assert r[i] == below[i] && r[j] == above[j - |below| - 1];
      } else if i == |below| {
        assert r[j] == above[j - |below| - 1];
      } else {
        assert r[i] == above[i - |below| - 1] && r[j] == above[j - |below| - 1];
      }
    }
  }

  function Below(c: LevelCache, level: int): (r: LevelCache)
    ensures forall e :: e in r <==> e in c && e.0 < level
    ensures Sorted(c) ==> Sorted(r)
  {
    Keep(c, k => k < level)
  }

  function Above(c: LevelCache, level: int): (r: LevelCache)
    ensures forall e :: e in r <==> e in c && e.0 > level
    ensures Sorted(c) ==> Sorted(r)
  {
    Keep(c, k => k > level)
  }

  lemma {:induction false} AboveNone(c: LevelCache, level: int)
    requires forall e :: e in c ==> e.0 <= level
    ensures Above(c, level) == []
  {
    if c != [] {
      assert forall e :: e in c[..|c| - 1] ==> e in c;
      AboveNone(c[..|c| - 1], level);
    }
  }

  /** `level_cache[level] = d`: the entries below, the new one, the entries above. */
  function Put(c: LevelCache, level: int, d: Desc): (r: LevelCache)
    requires Sorted(c)
    ensures Sorted(r)
    ensures forall e :: e in r <==> (e in c && e.0 != level) || e == (level, d)
  {
    var below := Below(c, level);
    var above := Above(c, level);
    assert forall i :: 0 <= i < |below| ==> below[i] in below;
    assert forall i :: 0 <= i < |above| ==> above[i] in above;
    SortedSplice(below, (level, d), above);
    below + [(level, d)] + above
  }

  /** The non-empty descriptions of one language, in ascending level order. */
  function ViParts(c: LevelCache): (r: seq<string>)
    ensures forall k :: 0 <= k < |r| ==> r[k] != ""
  {
    if c == [] then []
    else ViParts(c[..|c| - 1]) + (if c[|c| - 1].1.vi != "" then [c[|c| - 1].1.vi] else [])
  }

  function EnParts(c: LevelCache): (r: seq<string>)
    ensures forall k :: 0 <= k < |r| ==> r[k] != ""
  {
    if c == [] then []
    else EnParts(c[..|c| - 1]) + (if c[|c| - 1].1.en != "" then [c[|c| - 1].1.en] else [])
  }

  /** `int(level) if level else -1`, `-1` when `int` raises; sign and ASCII digits. */
  function ParseLevel(level: string): (r: int)
    ensures IsDigits(level) ==> r >= 0
  {
    if level == "" then -1
    else if IsDigits(level) then DigitsValue(level)
    else if level[0] == '-' && IsDigits(level[1..]) then 0 - DigitsValue(level[1..])
    else if level[0] == '+' && IsDigits(level[1..]) then DigitsValue(level[1..])
    else -1
  }

  function DigitsValue(s: string): (n: nat)
    requires forall i :: 0 <= i < |s| ==> IsDigit(s[i])
  {
    if s == [] then 0
    else
      assert IsDigit(s[|s| - 1]);
      DigitsValue(s[..|s| - 1]) * 10 + (s[|s| - 1] as int - '0' as int)
  }

  datatype HsEntry = HsEntry(
    code: string,
    level: string,
    viDescription: string,
    enDescription: string,
    viDescriptionFull: string,
    enDescriptionFull: string,
    section: Option<string>,
    chapter: Option<string>,
    hierarchy: Option<Hierarchy>,
    parentCodes: Option<ParentCodes>)

  /** What one row contributes, read from columns E (level), F (code), G and H (descriptions). */
  datatype RowView = RowView(code: string, level: string, vi: string, en: string, levelInt: int)

  function View(row: Row): RowView
  {
    var level := Strip(Get(row, "E"));
    RowView(Strip(Get(row, "F")), level, Strip(Get(row, "G")), Strip(Get(row, "H")), ParseLevel(level))
  }

  /** `code and code[0].isdigit()` */
  predicate IsCodeRow(v: RowView)
  {
    v.code != "" && IsDigit(v.code[0])
  }

  /** The cache after a row at level `v.levelInt` stores its descriptions. */
  function Store(c: LevelCache, v: RowView): LevelCache
    requires Sorted(c)
  {
    var kept := if v.levelInt >= 0 then DropAbove(c, v.levelInt) else c;
    Put(kept, v.levelInt, Desc(v.vi, v.en))
  }

  /** The cache after one row. */
  function NextCache(c: LevelCache, v: RowView): (r: LevelCache)
    requires Sorted(c)
    ensures Sorted(r)
  {
    if IsCodeRow(v) then Store(c, v)
    else if v.levelInt >= 0 && v.vi != "" && v.en != "" then Store(c, v)
    else c
  }

  function Entry(c: LevelCache, v: RowView): HsEntry
  {
    HsEntry(v.code, v.level, v.vi, v.en,
            Join(ViParts(c), " | "), Join(EnParts(c), " | "),
            ExtractSectionNumber(v.vi), ExtractChapterNumber(v.code),
            BuildHsHierarchy(v.code), ExtractParentCodes(v.code))
  }

  /** The cache after the rows `rows`, starting empty. */
  function CacheAfter(rows: seq<Row>): (r: LevelCache)
    ensures Sorted(r)
  {
    if rows == [] then [] else NextCache(CacheAfter(rows[..|rows| - 1]), View(rows[|rows| - 1]))
  }

  /** The entries `transform_to_hs_code` returns for `rows`. */
  function Transform(rows: seq<Row>): seq<HsEntry>
  {
    if rows == [] then []
    else
      var init := rows[..|rows| - 1];
      var v := View(rows[|rows| - 1]);
      Transform(init) + (if IsCodeRow(v) then [Entry(NextCache(CacheAfter(init), v), v)] else [])
  }

  /** `transform_to_hs_code` */
  method TransformToHsCode(rows: seq<Row>) returns (hsCodes: seq<HsEntry>)
    ensures hsCodes == Transform(rows)
  {
    hsCodes := [];
    var levelCache: LevelCache := [];
    for i := 0 to |rows|
      invariant hsCodes == Transform(rows[..i])
      invariant levelCache == CacheAfter(rows[..i])
    {
      assert rows[..i + 1][..i] == rows[..i];
      var v := View(rows[i]);
      assert CacheAfter(rows[..i + 1]) == NextCache(levelCache, v);
      if IsCodeRow(v) {
        assert Transform(rows[..i + 1]) == hsCodes + [Entry(NextCache(levelCache, v), v)];
        if v.levelInt >= 0 {
          levelCache := DropAbove(levelCache, v.levelInt);
        }
        levelCache := Put(levelCache, v.levelInt, Desc(v.vi, v.en));
        var viFull := Join(ViParts(levelCache), " | ");
        var enFull := Join(EnParts(levelCache), " | ");
        hsCodes := hsCodes + [HsEntry(v.code, v.level, v.vi, v.en, viFull, enFull,
                                      ExtractSectionNumber(v.vi), ExtractChapterNumber(v.code),
                                      BuildHsHierarchy(v.code), ExtractParentCodes(v.code))];
      } else if v.levelInt >= 0 && v.vi != "" && v.en != "" {
        assert Transform(rows[..i + 1]) == hsCodes;
        levelCache := DropAbove(levelCache, v.levelInt);
        levelCache := Put(levelCache, v.levelInt, Desc(v.vi, v.en));
      } else {
        assert Transform(rows[..i + 1]) == hsCodes;
      }
    }
    assert rows[..|rows|] == rows;
  }

  // ---------------------------------------------------------------- properties of the cache

  function CodeRows(rows: seq<Row>): seq<string>
  {
    if rows == [] then []
    else CodeRows(rows[..|rows| - 1]) + (if IsCodeRow(View(rows[|rows| - 1])) then [View(rows[|rows| - 1]).code] else [])
  }

  function Codes(es: seq<HsEntry>): seq<string>
  {
    seq(|es|, i requires 0 <= i < |es| => es[i].code)
  }

  /** One entry per row whose code starts with a digit, carrying that code, in row order. */
  lemma {:induction false} OneEntryPerCodeRow(rows: seq<Row>)
    ensures Codes(Transform(rows)) == CodeRows(rows)
  {
    if rows != [] {
      var init := rows[..|rows| - 1];
      var v := View(rows[|rows| - 1]);
      OneEntryPerCodeRow(init);
      assert CodeRows(rows) == CodeRows(init) + (if IsCodeRow(v) then [v.code] else []);
      if IsCodeRow(v) {
        var e := Entry(NextCache(CacheAfter(init), v), v);
        assert Transform(rows) == Transform(init) + [e];
        CodesAppend(Transform(init), [e]);
        assert Codes([e]) == [v.code];
      } else {
        assert Transform(rows) == Transform(init);
      }
    }
  }

  lemma CodesAppend(a: seq<HsEntry>, b: seq<HsEntry>)
    ensures Codes(a + b) == Codes(a) + Codes(b)
  {
  }

  /** A row at level L >= 0 leaves no deeper level, and its own descriptions at level L, last. */
  lemma StoreAtLevel(c: LevelCache, v: RowView)
    requires Sorted(c) && v.levelInt >= 0
    ensures var r := Store(c, v);
      && r != [] && r[|r| - 1] == (v.levelInt, Desc(v.vi, v.en))
      && forall e :: e in r ==> e.0 <= v.levelInt
  {
    var kept := DropAbove(c, v.levelInt);
    AboveNone(kept, v.levelInt);
  }

  /** After a row at level L >= 0 the cache has no key above L and holds the row at L. */
  lemma CacheAfterLevelRow(rows: seq<Row>, row: Row)
    requires View(row).levelInt >= 0
    requires IsCodeRow(View(row)) || (View(row).vi != "" && View(row).en != "")
    ensures var c := CacheAfter(rows + [row]);
      && (View(row).levelInt, Desc(View(row).vi, View(row).en)) in c
      && forall e :: e in c ==> e.0 <= View(row).levelInt
  {
    assert (rows + [row])[..|rows + [row]| - 1] == rows;
    StoreAtLevel(CacheAfter(rows), View(row));
  }

  /** A code-less row without a level or without both descriptions leaves the cache alone. */
  lemma CacheUnchangedByOtherRows(rows: seq<Row>, row: Row)
    requires !IsCodeRow(View(row))
    requires View(row).levelInt < 0 || View(row).vi == "" || View(row).en == ""
    ensures CacheAfter(rows + [row]) == CacheAfter(rows)
    ensures Transform(rows + [row]) == Transform(rows)
  {
    assert (rows + [row])[..|rows + [row]| - 1] == rows;
  }

  lemma ViPartsLast(c: LevelCache)
    requires c != [] && c[|c| - 1].1.vi != ""
    ensures ViParts(c) != [] && ViParts(c)[|ViParts(c)| - 1] == c[|c| - 1].1.vi
  {
  }

  lemma EnPartsLast(c: LevelCache)
    requires c != [] && c[|c| - 1].1.en != ""
    ensures EnParts(c) != [] && EnParts(c)[|EnParts(c)| - 1] == c[|c| - 1].1.en
  {
  }

  /** A code row at level L >= 0 ends both full descriptions with its own non-empty ones. */
  lemma EntryEndsWithOwn(c: LevelCache, v: RowView)
    requires Sorted(c) && IsCodeRow(v) && v.levelInt >= 0
    ensures var e := Entry(NextCache(c, v), v);
      && (v.vi != "" ==> EndsWith(e.viDescriptionFull, v.vi))
      && (v.en != "" ==> EndsWith(e.enDescriptionFull, v.en))
  {
    var r := NextCache(c, v);
    StoreAtLevel(c, v);
    if v.vi != "" {
      ViPartsLast(r);
      JoinEndsWithLast(ViParts(r), " | ");
    }
    if v.en != "" {
      EnPartsLast(r);
      JoinEndsWithLast(EnParts(r), " | ");
    }
  }

  /**
   * The full description of a code row at level L >= 0 ends with the row's own description,
   * when that is non-empty: its parents come first, in ascending level order.
   */
  lemma FullDescriptionEndsWithOwn(rows: seq<Row>, row: Row)
    requires IsCodeRow(View(row)) && View(row).levelInt >= 0
    ensures var e := Transform(rows + [row])[|Transform(rows + [row])| - 1];
      && e.code == View(row).code
      && (View(row).vi != "" ==> EndsWith(e.viDescriptionFull, View(row).vi))
      && (View(row).en != "" ==> EndsWith(e.enDescriptionFull, View(row).en))
  {
    var v := View(row);
    assert (rows + [row])[..|rows + [row]| - 1] == rows;
    assert Transform(rows + [row]) == Transform(rows) + [Entry(NextCache(CacheAfter(rows), v), v)];
    EntryEndsWithOwn(CacheAfter(rows), v);
  }
}
