/**
 The plate-text normaliser applied to the text the recognition service
 returns: surrounding whitespace is stripped (Python's `str.strip()` with no
 argument), then every character outside the ASCII class `[A-Za-z0-9]` is
 deleted (`re.sub(r'[^A-Za-z0-9]', '', ...)` with a `str` pattern, whose
 ranges are plain code-point ranges).
 */
module Normalizer {

  /** Membership in the regular-expression class `[A-Za-z0-9]`. */
  predicate IsAsciiAlnum(c: char) {
    ('A' <= c <= 'Z') || ('a' <= c <= 'z') || ('0' <= c <= '9')
  }

  /** Python's `str.isspace()`: the characters `str.strip()` removes when
      called without an argument (ASCII controls 9-13 and 28-31, space,
      NEL, NBSP and the Unicode space separators and line/paragraph
      separators). */
  predicate IsSpace(c: char) {
    || ('\t' <= c <= '\r')
    || ('\U{1C}' <= c <= ' ')
    || c == '\U{85}'
    || c == '\U{A0}'
    || c == '\U{1680}'
    || ('\U{2000}' <= c <= '\U{200A}')
    || c == '\U{2028}'
    || c == '\U{2029}'
    || c == '\U{202F}'
    || c == '\U{205F}'
    || c == '\U{3000}'
  }

  predicate AllAlnum(s: string) {
    forall i :: 0 <= i < |s| ==> IsAsciiAlnum(s[i])
  }

  predicate AllSpace(s: string) {
    forall i :: 0 <= i < |s| ==> IsSpace(s[i])
  }

  /** `a` can be obtained from `b` by deleting characters. */
  ghost predicate IsSubsequence(a: string, b: string)
    decreases |b|
  {
    || a == []
    || (&& |b| > 0
        && ((a[0] == b[0] && IsSubsequence(a[1..], b[1..])) || IsSubsequence(a, b[1..])))
  }

  /** `r` is `s` with a maximal whitespace prefix and suffix cut off. */
  ghost predicate StrippedFrom(r: string, s: string) {
    && (r == [] || (!IsSpace(r[0]) && !IsSpace(r[|r| - 1])))
    && exists i, j :: 0 <= i <= j <= |s| && r == s[i..j] && AllSpace(s[..i]) && AllSpace(s[j..])
  }

  /** `str.lstrip()`: drops the leading whitespace. */
  function TrimStart(s: string): (r: string)
    ensures |r| <= |s| && r == s[|s| - |r|..]
    ensures forall k :: 0 <= k < |s| - |r| ==> IsSpace(s[k])
    ensures r == [] || !IsSpace(r[0])
  {
    if |s| > 0 && IsSpace(s[0]) then
      var r := TrimStart(s[1..]);
      assert s[1..][|s| - 1 - |r|..] == s[|s| - |r|..];
      r
    else
      s
  }

  /** `str.rstrip()`: drops the trailing whitespace. */
  function TrimEnd(s: string): (r: string)
    ensures |r| <= |s| && r == s[..|r|]
    ensures forall k :: |r| <= k < |s| ==> IsSpace(s[k])
    ensures r == [] || !IsSpace(r[|r| - 1])
  {
    if |s| > 0 && IsSpace(s[|s| - 1]) then
      var r := TrimEnd(s[..|s| - 1]);
      assert s[..|s| - 1][..|r|] == s[..|r|];
      r
    else
      s
  }

  /** `str.strip()`. */
  function Strip(s: string): (r: string)
    ensures StrippedFrom(r, s)
  {
    var t := TrimStart(s);
    var u := TrimEnd(t);
    var i, j := |s| - |t|, |s| - |t| + |u|;
    assert u == s[i..j];
    assert AllSpace(s[..i]);
    assert AllSpace(s[j..]) by {
      forall k | 0 <= k < |s[j..]|
        ensures IsSpace(s[j..][k])
      {
        assert s[j..][k] == t[|u| + k];
      }
    }
    u
  }

  /** The `re.sub` deletion of every character outside `[A-Za-z0-9]`. */
  function KeepAlnum(s: string): (r: string)
    ensures AllAlnum(r)
  {
    if |s| == 0 then []
    else if IsAsciiAlnum(s[0]) then [s[0]] + KeepAlnum(s[1..]) else KeepAlnum(s[1..])
  }

  /** The whole normaliser: strip, then filter. Stripping is irrelevant to
      the result, since no whitespace character is alphanumeric. */
  function Normalize(s: string): (r: string)
    ensures r == KeepAlnum(s)
    ensures AllAlnum(r)
  {
    StripIrrelevant(s);
    KeepAlnum(Strip(s))
  }

  lemma SpaceIsNotAlnum(c: char)
    ensures IsSpace(c) ==> !IsAsciiAlnum(c)
  {
  }

  /** Filtering distributes over concatenation. */
  lemma {:induction false} KeepAlnumAppend(a: string, b: string)
    ensures KeepAlnum(a + b) == KeepAlnum(a) + KeepAlnum(b)
    decreases |a|
  {
    if |a| == 0 {
      assert a + b == b;
    } else {
      var ab := a + b;
      assert ab[0] == a[0];
      assert ab[1..] == a[1..] + b;
      KeepAlnumAppend(a[1..], b);
      if IsAsciiAlnum(a[0]) {
        assert KeepAlnum(ab) == [a[0]] + KeepAlnum(ab[1..]);
        assert KeepAlnum(a) == [a[0]] + KeepAlnum(a[1..]);
      } else {
        assert KeepAlnum(ab) == KeepAlnum(ab[1..]);
        assert KeepAlnum(a) == KeepAlnum(a[1..]);
      }
    }
  }

  /** Dropping leading whitespace does not change the filtered text. */
  lemma {:induction false} TrimStartIrrelevant(s: string)
    ensures KeepAlnum(TrimStart(s)) == KeepAlnum(s)
    decreases |s|
  {
    if |s| > 0 && IsSpace(s[0]) {
      SpaceIsNotAlnum(s[0]);
      TrimStartIrrelevant(s[1..]);
    }
  }

  /** Dropping trailing whitespace does not change the filtered text. */
  lemma {:induction false} TrimEndIrrelevant(s: string)
    ensures KeepAlnum(TrimEnd(s)) == KeepAlnum(s)
    decreases |s|
  {
    if |s| > 0 && IsSpace(s[|s| - 1]) {
      var init, last := s[..|s| - 1], s[|s| - 1];
      assert s == init + [last];
      SpaceIsNotAlnum(last);
      KeepAlnumSingle(last);
      KeepAlnumAppend(init, [last]);
      TrimEndIrrelevant(init);
    }
  }

  /** Stripping before filtering does not change the filtered text. */
  lemma StripIrrelevant(s: string)
    ensures KeepAlnum(Strip(s)) == KeepAlnum(s)
  {
    TrimStartIrrelevant(s);
    TrimEndIrrelevant(TrimStart(s));
  }

  /** Filtering leaves an all-alphanumeric string as it is. */
  lemma {:induction false} KeepAlnumFixpoint(s: string)
    requires AllAlnum(s)
    ensures KeepAlnum(s) == s
    decreases |s|
  {
    if |s| > 0 {
      KeepAlnumFixpoint(s[1..]);
    }
  }

  /** Normalisation is idempotent. */
  lemma NormalizeIdempotent(s: string)
    ensures Normalize(Normalize(s)) == Normalize(s)
  {
    KeepAlnumFixpoint(KeepAlnum(s));
  }

  lemma {:induction false} KeepAlnumIsSubsequence(s: string)
    ensures IsSubsequence(KeepAlnum(s), s)
    decreases |s|
  {
    if |s| > 0 {
      KeepAlnumIsSubsequence(s[1..]);
      if IsAsciiAlnum(s[0]) {
        assert ([s[0]] + KeepAlnum(s[1..]))[1..] == KeepAlnum(s[1..]);
      }
    }
  }

  /** No alphanumeric subsequence of `s` is longer than the filtered text. */
  lemma {:induction false} AlnumSubsequenceBound(r: string, s: string)
    requires IsSubsequence(r, s) && AllAlnum(r)
    ensures |r| <= |KeepAlnum(s)|
    decreases |s|
  {
    if r != [] {
      if r[0] == s[0] && IsSubsequence(r[1..], s[1..]) {
        AlnumSubsequenceBound(r[1..], s[1..]);
      } else {
        AlnumSubsequenceBound(r, s[1..]);
      }
    }
  }

  /** The filtered text is the only alphanumeric subsequence of its length. */
  lemma {:induction false} AlnumSubsequenceUnique(r: string, s: string)
    requires IsSubsequence(r, s) && AllAlnum(r) && |r| == |KeepAlnum(s)|
    ensures r == KeepAlnum(s)
    decreases |s|
  {
    if r != [] {
      if r[0] == s[0] && IsSubsequence(r[1..], s[1..]) {
        AlnumSubsequenceUnique(r[1..], s[1..]);
        assert r == [r[0]] + r[1..];
      } else {
        AlnumSubsequenceBound(r, s[1..]);
        if IsAsciiAlnum(s[0]) {
          assert false;
        }
        AlnumSubsequenceUnique(r, s[1..]);
      }
    }
  }

  /** The normalised text is exactly the input's ASCII letters and digits, in
      their original order and case: the longest subsequence of the input
      made of `[A-Za-z0-9]` characters, and the only one of that length. */
  lemma NormalizeIsLongestAlnumSubsequence(s: string)
    ensures IsSubsequence(Normalize(s), s) && AllAlnum(Normalize(s))
    ensures forall r :: IsSubsequence(r, s) && AllAlnum(r) ==>
      |r| <= |Normalize(s)| && (|r| == |Normalize(s)| ==> r == Normalize(s))
  {
    KeepAlnumIsSubsequence(s);
    forall r | IsSubsequence(r, s) && AllAlnum(r)
      ensures |r| <= |Normalize(s)| && (|r| == |Normalize(s)| ==> r == Normalize(s))
    {
      AlnumSubsequenceBound(r, s);
      if |r| == |Normalize(s)| {
        AlnumSubsequenceUnique(r, s);
      }
    }
  }

  /** Filtering keeps every alphanumeric character as often as it occurs. */
  lemma {:induction false} KeepAlnumCounts(s: string, c: char)
    requires IsAsciiAlnum(c)
    ensures multiset(KeepAlnum(s))[c] == multiset(s)[c]
    decreases |s|
  {
    if |s| > 0 {
      KeepAlnumCounts(s[1..], c);
      assert s == [s[0]] + s[1..];
      if IsAsciiAlnum(s[0]) {
        assert multiset(KeepAlnum(s)) == multiset([s[0]]) + multiset(KeepAlnum(s[1..]));
      }
    }
  }

  /** A character survives normalisation exactly when it is an ASCII letter
      or digit, and then as often as it occurs in the input. */
  lemma NormalizeCounts(s: string, c: char)
    ensures multiset(Normalize(s))[c] == if IsAsciiAlnum(c) then multiset(s)[c] else 0
  {
    if IsAsciiAlnum(c) {
      KeepAlnumCounts(s, c);
    }
  }

  /** Filtering a single character. */
  lemma KeepAlnumSingle(c: char)
    ensures KeepAlnum([c]) == if IsAsciiAlnum(c) then [c] else []
  {
    assert [c][1..] == [];
  }

  /** Worked examples of the filter and of the whole normaliser (the filter
      and the normaliser agree on every input, by `Normalize`'s contract). */
  lemma KeepAlnumExamplePlate()
    ensures KeepAlnum("ABC-1234 ") == "ABC1234"
  {
  }

  lemma NormalizeExampleEmpty()
    ensures Normalize("") == ""
    ensures Normalize("###") == ""
  {
    KeepAlnumSingle('#');
    KeepAlnumAppend("#", "#");
    KeepAlnumAppend("##", "#");
    assert "#" + "#" == "##";
    assert "##" + "#" == "###";
  }
}
