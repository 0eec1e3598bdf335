/**
 * The Python `str` operations the scripts use, on `seq<char>`: whitespace as `str.isspace`
 * defines it, `strip`, `split()`, `split(sep)`, `join`, `lower` (ASCII letters only),
 * substring test, and character-class substitution.
 */
module PyStr {

  /** `str.isspace()`: the characters `str.split()`, `str.strip()` and `\s` treat as whitespace. */
  predicate IsSpace(c: char)
  {
    || '\t' <= c <= '\r'
    || '\U{1C}' <= c <= '\U{1F}'
    || c == ' ' || c == '\U{85}' || c == '\U{A0}' || c == '\U{1680}'
    || '\U{2000}' <= c <= '\U{200A}'
    || c == '\U{2028}' || c == '\U{2029}' || c == '\U{202F}' || c == '\U{205F}' || c == '\U{3000}'
  }

  /** A decimal digit, as `\d` and `str.isdigit()` see it (ASCII digits only). */
  predicate IsDigit(c: char)
  {
    '0' <= c <= '9'
  }

  /** `s.isdigit()`: non-empty and all digits. */
  predicate IsDigits(s: string)
  {
    |s| > 0 && forall i :: 0 <= i < |s| ==> IsDigit(s[i])
  }

  predicate NoSpace(s: string)
  {
    forall i :: 0 <= i < |s| ==> !IsSpace(s[i])
  }

  predicate AllSpace(s: string)
  {
    forall i :: 0 <= i < |s| ==> IsSpace(s[i])
  }

  /** No leading and no trailing whitespace. */
  predicate IsStripped(s: string)
  {
    s == [] || (!IsSpace(s[0]) && !IsSpace(s[|s| - 1]))
  }

  /** `s.strip()`: the text between the leading and the trailing whitespace. */
  function Strip(s: string): (r: string)
    ensures IsStripped(r)
    ensures |r| <= |s|
    ensures r == [] <==> AllSpace(s)
    decreases |s|
  {
    if s != [] && IsSpace(s[0]) then
      assert AllSpace(s) <==> AllSpace(s[1..]);
      Strip(s[1..])
    else if s != [] && IsSpace(s[|s| - 1]) then
      assert AllSpace(s) <==> AllSpace(s[..|s| - 1]);
      Strip(s[..|s| - 1])
    else
      s
  }

  /** `strip` only removes characters. */
  lemma {:induction false} StripDropsOnly(s: string, c: char)
    requires c !in s
    ensures c !in Strip(s)
    decreases |s|
  {
    if s != [] && IsSpace(s[0]) {
      assert c !in s[1..];
      StripDropsOnly(s[1..], c);
    } else if s != [] && IsSpace(s[|s| - 1]) {
      assert c !in s[..|s| - 1];
      StripDropsOnly(s[..|s| - 1], c);
    }
  }

  lemma StripStripped(s: string)
    requires IsStripped(s)
    ensures Strip(s) == s
  {
  }

  lemma StripLeadingSpace(c: char, s: string)
    requires IsSpace(c)
    ensures Strip([c] + s) == Strip(s)
  {
    assert ([c] + s)[1..] == s;
  }

  /** Length of the leading run of non-whitespace. */
  function WordLen(s: string): (n: nat)
    ensures n <= |s|
    ensures NoSpace(s[..n])
    ensures n < |s| ==> IsSpace(s[n])
  {
    if s == [] || IsSpace(s[0]) then 0 else 1 + WordLen(s[1..])
  }

  /** `s.split()` without argument: the maximal runs of non-whitespace, in order. */
  function Words(s: string): (r: seq<string>)
    ensures forall k :: 0 <= k < |r| ==> r[k] != [] && NoSpace(r[k])
    decreases |s|
  {
    if s == [] then []
    else if IsSpace(s[0]) then Words(s[1..])
    else
      var n := WordLen(s);
      [s[..n]] + Words(s[n..])
  }

  /** The words of a text are made of its characters. */
  lemma {:induction false} WordsChars(s: string, c: char)
    requires c !in s
    ensures forall k :: 0 <= k < |Words(s)| ==> c !in Words(s)[k]
    decreases |s|
  {
    if s != [] {
      if IsSpace(s[0]) {
        assert c !in s[1..];
        WordsChars(s[1..], c);
      } else {
        var n := WordLen(s);
        assert c !in s[..n] && c !in s[n..];
        WordsChars(s[n..], c);
        assert Words(s) == [s[..n]] + Words(s[n..]);
      }
    }
  }

  /** `sep.join(parts)` */
  function Join(parts: seq<string>, sep: string): string
  {
    if parts == [] then ""
    else if |parts| == 1 then parts[0]
    else parts[0] + sep + Join(parts[1..], sep)
  }

  lemma JoinCons(p: string, rest: seq<string>, sep: string)
    requires rest != []
    ensures Join([p] + rest, sep) == p + sep + Join(rest, sep)
  {
    assert ([p] + rest)[1..] == rest;
  }

  lemma WordLenOfWord(w: string, t: string)
    requires NoSpace(w)
    requires t == [] || IsSpace(t[0])
    ensures WordLen(w + t) == |w|
  {
    if w != [] {
      assert (w + t)[1..] == w[1..] + t;
      WordLenOfWord(w[1..], t);
    } else {
      assert w + t == t;
    }
  }

  lemma WordsOfWordThen(w: string, t: string)
    requires w != [] && NoSpace(w)
    requires t == [] || IsSpace(t[0])
    ensures Words(w + t) == [w] + Words(t)
  {
    WordLenOfWord(w, t);
    assert (w + t)[..|w|] == w;
    assert (w + t)[|w|..] == t;
  }

  /** Splitting on whitespace undoes joining with a space: `' '.join(ws).split() == ws`. */
  lemma {:induction false} WordsOfJoin(ws: seq<string>)
    requires forall k :: 0 <= k < |ws| ==> ws[k] != [] && NoSpace(ws[k])
    ensures Words(Join(ws, " ")) == ws
  {
    if ws == [] {
    } else if |ws| == 1 {
      WordsOfWordThen(ws[0], "");
      assert ws[0] + "" == ws[0];
    } else {
      var rest := Join(ws[1..], " ");
      WordsOfJoin(ws[1..]);
      assert Join(ws, " ") == ws[0] + (" " + rest);
      WordsOfWordThen(ws[0], " " + rest);
      assert (" " + rest)[1..] == rest;
      assert ws == [ws[0]] + ws[1..];
    }
  }

  /** `sep.join(ws)` ends with the last word, so with its last character when it has one. */
  lemma {:induction false} JoinEndsWithLast(ws: seq<string>, sep: string)
    requires ws != []
    ensures var j, last := Join(ws, sep), ws[|ws| - 1];
      && EndsWith(j, last)
      && (last != [] ==> |j| > 0 && j[|j| - 1] == last[|last| - 1])
  {
    var j, last := Join(ws, sep), ws[|ws| - 1];
    if |ws| > 1 {
      var q := Join(ws[1..], sep);
      JoinEndsWithLast(ws[1..], sep);
      assert j == (ws[0] + sep) + q;
      assert j[|j| - |last|..] == q[|q| - |last|..];
    }
    if last != [] {
      assert j[|j| - 1] == j[|j| - |last|..][|last| - 1];
    }
  }

  /** `' '.join(ws)` without its last character splits into the other words and what is left of the last. */
  lemma {:induction false} WordsOfJoinButLast(ws: seq<string>)
    requires ws != []
    requires forall k :: 0 <= k < |ws| ==> ws[k] != [] && NoSpace(ws[k])
    ensures var j, last := Join(ws, " "), ws[|ws| - 1];
      && |j| > 0
      && Words(j[..|j| - 1]) == ws[..|ws| - 1] + (if |last| > 1 then [last[..|last| - 1]] else [])
  {
    JoinEndsWithLast(ws, " ");
    if |ws| == 1 {
      WordsOfOneButLast(ws[0]);
    } else {
      var n := |ws|;
      assert ws[1..][n - 2] == ws[n - 1];
      WordsOfJoinButLast(ws[1..]);
      WordsOfJoinButLastStep(ws);
      assert ws[..n - 1] == [ws[0]] + ws[1..][..n - 2];
    }
  }

  lemma WordsOfOneButLast(w: string)
    requires w != [] && NoSpace(w)
    ensures Words(w[..|w| - 1]) == if |w| > 1 then [w[..|w| - 1]] else []
  {
    if |w| > 1 {
      WordsOfWordThen(w[..|w| - 1], "");
      assert w[..|w| - 1] + "" == w[..|w| - 1];
    }
  }

  lemma WordsOfJoinButLastStep(ws: seq<string>)
    requires |ws| > 1
    requires forall k :: 0 <= k < |ws| ==> ws[k] != [] && NoSpace(ws[k])
    requires |Join(ws[1..], " ")| > 0
    ensures var j, rest := Join(ws, " "), Join(ws[1..], " ");
      && |j| > 0
      && Words(j[..|j| - 1]) == [ws[0]] + Words(rest[..|rest| - 1])
  {
    var rest := Join(ws[1..], " ");
    var j := Join(ws, " ");
    var r' := rest[..|rest| - 1];
    assert j[..|j| - 1] == ws[0] + (" " + r') by {
      assert j == ws[0] + (" " + rest);
    }
    assert Words(ws[0] + (" " + r')) == [ws[0]] + Words(r') by {
      WordsOfWordThen(ws[0], " " + r');
      assert (" " + r')[1..] == r';
    }
  }

  /** `s.split(sep)` for a one-character separator: always at least one piece. */
  function Split(s: string, sep: char): (r: seq<string>)
    ensures |r| >= 1
    ensures forall k :: 0 <= k < |r| ==> sep !in r[k]
  {
    if s == [] then [""]
    else
      var rest := Split(s[1..], sep);
      if s[0] == sep then [""] + rest else [[s[0]] + rest[0]] + rest[1..]
  }

  lemma {:induction false} SplitPrefix(a: string, t: string, sep: char)
    requires sep !in a
    ensures Split(a + t, sep) == [a + Split(t, sep)[0]] + Split(t, sep)[1..]
  {
    if a != [] {
      assert (a + t)[1..] == a[1..] + t;
      SplitPrefix(a[1..], t, sep);
      assert [a[0]] + (a[1..] + Split(t, sep)[0]) == a + Split(t, sep)[0];
    } else {
      assert a + t == t;
      assert a + Split(t, sep)[0] == Split(t, sep)[0];
      assert Split(t, sep) == [Split(t, sep)[0]] + Split(t, sep)[1..];
    }
  }

  lemma SplitAfterSeparator(a: string, t: string, sep: char)
    requires sep !in a
    ensures Split(a + [sep] + t, sep) == [a] + Split(t, sep)
  {
    SplitPrefix(a, [sep] + t, sep);
    assert a + [sep] + t == a + ([sep] + t);
    assert ([sep] + t)[1..] == t;
    assert Split([sep] + t, sep) == [""] + Split(t, sep);
    assert a + "" == a;
  }

  predicate StartsWith(s: string, p: string)
  {
    |p| <= |s| && s[..|p|] == p
  }

  predicate EndsWith(s: string, p: string)
  {
    |p| <= |s| && s[|s| - |p|..] == p
  }

  /** `pat in text` */
  predicate Contains(text: string, pat: string)
    decreases |text|
  {
    StartsWith(text, pat) || (text != [] && Contains(text[1..], pat))
  }

  function LowerChar(c: char): char
  {
    if 'A' <= c <= 'Z' then (c as int + 32) as char else c
  }

  /** `s.lower()`, on the ASCII letters. */
  function Lower(s: string): (r: string)
    ensures |r| == |s|
  {
    seq(|s|, i requires 0 <= i < |s| => LowerChar(s[i]))
  }

  /** `re.sub("[...]", sub, s)` for a character class, and `str.replace` of one character. */
  function ReplaceChars(s: string, chars: set<char>, sub: char): (r: string)
    ensures |r| == |s|
  {
    seq(|s|, i requires 0 <= i < |s| => if s[i] in chars then sub else s[i])
  }
}
