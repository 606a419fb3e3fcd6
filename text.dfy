/** The few System.String operations the core relies on, over `seq<char>`. */
module Text {
  import opened Wrappers

  /** char.IsWhiteSpace: the Unicode space separators, line/paragraph separators and the listed control characters. */
  predicate IsWhiteSpace(c: char)
  {
    ('\U{0009}' <= c <= '\U{000D}') || c == '\U{0020}' || c == '\U{0085}' || c == '\U{00A0}'
    || c == '\U{1680}' || ('\U{2000}' <= c <= '\U{200A}') || c == '\U{2028}' || c == '\U{2029}'
    || c == '\U{202F}' || c == '\U{205F}' || c == '\U{3000}'
  }

  /** string.IsNullOrEmpty; `None` is the null reference. */
  predicate IsNullOrEmpty(s: Option<string>)
  {
    s.None? || s.value == []
  }

  /** string.IsNullOrWhiteSpace. */
  predicate IsNullOrWhiteSpace(s: Option<string>)
  {
    s.None? || forall i :: 0 <= i < |s.value| ==> IsWhiteSpace(s.value[i])
  }

  predicate StartsWith(s: string, prefix: string)
  {
    |prefix| <= |s| && s[..|prefix|] == prefix
  }

  /** `pattern` occurs in `s` starting at index `i`. */
  predicate MatchAt(s: string, pattern: string, i: nat)
  {
    i + |pattern| <= |s| && s[i..i + |pattern|] == pattern
  }

  predicate Contains(s: string, pattern: string)
  {
    exists i: nat :: i <= |s| && MatchAt(s, pattern, i)
  }

  /**
   * string.Replace(oldValue, newValue) with an ordinal comparison: every
   * non-overlapping occurrence of `pattern`, found scanning from the left, is
   * replaced by `replacement`. .NET rejects an empty `oldValue`.
   */
  function Replace(s: string, pattern: string, replacement: string): string
    requires |pattern| > 0
    decreases |s|
  {
    if |s| < |pattern| then s
    else if s[..|pattern|] == pattern then replacement + Replace(s[|pattern|..], pattern, replacement)
    else [s[0]] + Replace(s[1..], pattern, replacement)
  }

  /** A string with no occurrence of the pattern is left unchanged. */
  lemma {:induction false} ReplaceAbsent(s: string, pattern: string, replacement: string)
    requires |pattern| > 0 && !Contains(s, pattern)
    ensures Replace(s, pattern, replacement) == s
    decreases |s|
  {
    if |s| >= |pattern| {
      assert !MatchAt(s, pattern, 0);
      assert s[..|pattern|] != pattern;
      forall i: nat ensures !MatchAt(s[1..], pattern, i) {
        assert !MatchAt(s, pattern, i + 1);
      }
      ReplaceAbsent(s[1..], pattern, replacement);
      assert [s[0]] + s[1..] == s;
    }
  }

  /** Deleting occurrences never lengthens a string, and shortens it when there is one. */
  lemma {:induction false} ReplaceDeleteShortens(s: string, pattern: string)
    requires |pattern| > 0
    ensures |Replace(s, pattern, [])| <= |s|
    ensures Contains(s, pattern) ==> |Replace(s, pattern, [])| < |s|
    decreases |s|
  {
    if |s| >= |pattern| {
      if s[..|pattern|] == pattern {
        ReplaceDeleteShortens(s[|pattern|..], pattern);
      } else {
        ReplaceDeleteShortens(s[1..], pattern);
        if Contains(s, pattern) {
          var i: nat :| i <= |s| && MatchAt(s, pattern, i);
          assert i != 0;
          assert s[1..][i - 1..i - 1 + |pattern|] == s[i..i + |pattern|];
          assert MatchAt(s[1..], pattern, i - 1);
        }
      }
    }
  }

  /** A string without the pattern's first character holds no occurrence of it. */
  lemma NoFirstCharNoMatch(s: string, pattern: string)
    requires |pattern| > 0 && pattern[0] !in s
    ensures !Contains(s, pattern)
  {

  }

  /** A prefix holding no occurrence of the pattern's first character passes through unchanged. */
  lemma {:induction false} ReplaceSkipsPrefix(a: string, b: string, pattern: string, replacement: string)
    requires |pattern| > 0 && pattern[0] !in a
    ensures Replace(a + b, pattern, replacement) == a + Replace(b, pattern, replacement)
    decreases |a|
  {
    if a == [] {
      assert a + b == b;
    } else {
      var s := a + b;
      if |s| < |pattern| {
        assert Replace(b, pattern, replacement) == b;
      } else {
        assert s[..|pattern|] != pattern by { assert s[..|pattern|][0] == a[0]; }
        assert s[1..] == a[1..] + b;
        ReplaceSkipsPrefix(a[1..], b, pattern, replacement);
        assert [a[0]] + (a[1..] + Replace(b, pattern, replacement)) == a + Replace(b, pattern, replacement);
      }
    }
  }

  /** Likewise when what follows is too short to hold the pattern: nothing is replaced. */
  lemma {:induction false} ReplaceSkipsShort(a: string, b: string, pattern: string, replacement: string)
    requires |pattern| > 0 && pattern[0] !in a && |b| < |pattern|
    ensures Replace(a + b, pattern, replacement) == a + b
    decreases |a|
  {
    if a == [] {
      assert a + b == b;
    } else {
      var s := a + b;
      if |s| >= |pattern| {
        assert s[..|pattern|] != pattern by { assert s[..|pattern|][0] == a[0]; }
        assert s[1..] == a[1..] + b;
        ReplaceSkipsShort(a[1..], b, pattern, replacement);
        assert [a[0]] + (a[1..] + b) == s;
      }
    }
  }

  /** A string ending in its one occurrence of the pattern has just that occurrence replaced. */
  lemma {:induction false} ReplaceAtEnd(a: string, pattern: string, replacement: string)
    requires |pattern| > 0 && pattern[0] !in a
    ensures Replace(a + pattern, pattern, replacement) == a + replacement
    decreases |a|
  {
    var s := a + pattern;
    if a == [] {
      assert s == pattern;
      assert s[|pattern|..] == [];
    } else {
      assert s[..|pattern|] != pattern by { assert s[..|pattern|][0] == a[0]; }
      assert s[1..] == a[1..] + pattern;
      ReplaceAtEnd(a[1..], pattern, replacement);
      assert [a[0]] + (a[1..] + replacement) == a + replacement;
    }
  }

  /** A leading occurrence is replaced and the scan resumes after it. */
  lemma ReplaceLeading(b: string, pattern: string, replacement: string)
    requires |pattern| > 0
    ensures Replace(pattern + b, pattern, replacement) == replacement + Replace(b, pattern, replacement)
  {
    assert (pattern + b)[..|pattern|] == pattern;
    assert (pattern + b)[|pattern|..] == b;
  }

  /** A first character that does not start an occurrence is kept and the scan moves on by one. */
  lemma ReplaceMismatch(c: char, b: string, pattern: string, replacement: string)
    requires |pattern| > 0 && !StartsWith([c] + b, pattern)
    ensures Replace([c] + b, pattern, replacement) == [c] + Replace(b, pattern, replacement)
  {
    assert ([c] + b)[1..] == b;
  }

  /** Case-insensitive character comparison; ASCII letters fold to upper case. */
  function FoldCase(c: char): char
  {
    if 'a' <= c <= 'z' then (c as int - 32) as char else c
  }

  predicate EqualsIgnoreCase(a: string, b: string)
  {
    |a| == |b| && forall i :: 0 <= i < |a| ==> FoldCase(a[i]) == FoldCase(b[i])
  }
}
