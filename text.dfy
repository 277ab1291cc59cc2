/**
 * The few Python `str` operations the backend applies to file names and captions:
 * `str.isspace`, `str.lower`, `str.strip`, `str.capitalize` and `str.rsplit(sep, 1)`.
 * Case mapping is restricted to ASCII letters; every other character is left alone.
 */
module Text {
  import opened Wrappers

  /** The characters for which Python's `str.isspace()` is true. */
  predicate IsSpace(c: char) {
    || '\t' <= c <= '\r'
    || '\U{1C}' <= c <= ' '
    || c == '\U{85}' || c == '\U{A0}' || c == '\U{1680}'
    || '\U{2000}' <= c <= '\U{200A}'
    || c == '\U{2028}' || c == '\U{2029}' || c == '\U{202F}' || c == '\U{205F}' || c == '\U{3000}'
  }

  predicate IsAsciiUpper(c: char) {
    'A' <= c <= 'Z'
  }

  predicate IsAsciiLower(c: char) {
    'a' <= c <= 'z'
  }

  function LowerChar(c: char): (r: char)
    ensures !IsAsciiUpper(r)
    ensures IsSpace(r) <==> IsSpace(c)
    ensures IsAsciiUpper(c) ==> IsAsciiLower(r) && r as int == c as int + 32
    ensures IsAsciiUpper(c) || r == c
  {
    if IsAsciiUpper(c) then (c as int + 32) as char else c
  }

  function UpperChar(c: char): (r: char)
    ensures !IsAsciiLower(r)
    ensures IsSpace(r) <==> IsSpace(c)
    ensures IsAsciiLower(c) ==> IsAsciiUpper(r) && r as int == c as int - 32
    ensures IsAsciiLower(c) || r == c
    ensures LowerChar(r) == LowerChar(c)
  {
    if IsAsciiLower(c) then (c as int - 32) as char else c
  }

  /** `s.lower()`: each of `A`..`Z` becomes its lower-case letter, nothing else changes. */
  function Lower(s: string): (r: string)
    ensures |r| == |s|
    ensures forall k :: 0 <= k < |r| ==> !IsAsciiUpper(r[k])
    ensures forall k :: 0 <= k < |s| && IsAsciiUpper(s[k]) ==> r[k] == (s[k] as int + 32) as char
    ensures forall k :: 0 <= k < |s| && !IsAsciiUpper(s[k]) ==> r[k] == s[k]
  {
    seq(|s|, k requires 0 <= k < |s| => LowerChar(s[k]))
  }

  /** `s.lstrip()`: the longest suffix of `s` that does not start with whitespace. */
  function StripLeft(s: string): (r: string)
    ensures |r| <= |s| && r == s[|s| - |r|..]
    ensures forall k :: 0 <= k < |s| - |r| ==> IsSpace(s[k])
    ensures r == [] || !IsSpace(r[0])
  {
    if s != [] && IsSpace(s[0]) then StripLeft(s[1..]) else s
  }

  /** `s.rstrip()`: the longest prefix of `s` that does not end with whitespace. */
  function StripRight(s: string): (r: string)
    ensures |r| <= |s| && r == s[..|r|]
    ensures forall k :: |r| <= k < |s| ==> IsSpace(s[k])
    ensures r == [] || !IsSpace(r[|r| - 1])
  {
    if s != [] && IsSpace(s[|s| - 1]) then StripRight(s[..|s| - 1]) else s
  }

  /** `s[i..j]` is `s` with whitespace only around it. */
  ghost predicate Trims(s: string, i: int, j: int) {
    && 0 <= i <= j <= |s|
    && (forall k :: 0 <= k < i ==> IsSpace(s[k]))
    && (forall k :: j <= k < |s| ==> IsSpace(s[k]))
  }

  /**
   * `s.strip()`: a slice of `s` with whitespace only around it, neither starting nor
   * ending with whitespace, and empty exactly when `s` is all whitespace.
   */
  function Strip(s: string): (r: string)
    ensures exists i, j :: Trims(s, i, j) && r == s[i..j]
    ensures r == [] || (!IsSpace(r[0]) && !IsSpace(r[|r| - 1]))
    ensures r == [] <==> forall k :: 0 <= k < |s| ==> IsSpace(s[k])
  {
    var t := StripLeft(s);
    StripBoth(s, t, StripRight(t));
    StripRight(t)
  }

  /** Stripping the left and then the right leaves a slice with whitespace only around it. */
  lemma StripBoth(s: string, t: string, u: string)
    requires |t| <= |s| && t == s[|s| - |t|..]
    requires forall k :: 0 <= k < |s| - |t| ==> IsSpace(s[k])
    requires |u| <= |t| && u == t[..|u|]
    requires forall k :: |u| <= k < |t| ==> IsSpace(t[k])
    ensures Trims(s, |s| - |t|, |s| - |t| + |u|) && u == s[|s| - |t|..|s| - |t| + |u|]
    ensures u == [] ==> forall k :: 0 <= k < |s| ==> IsSpace(s[k])
  {
    var i := |s| - |t|;
    forall k | i + |u| <= k < |s| ensures IsSpace(s[k]) {
      assert s[k] == t[k - i];
    }
    assert u == s[i..i + |u|];
    if u == [] {
      forall k | 0 <= k < |s| ensures IsSpace(s[k]) {
        if k >= i {
          assert s[k] == t[k - i];
        }
      }
    }
  }

  /**
   * The partner of `Strip`: any slice of `s` with whitespace only around it that neither
   * starts nor ends with whitespace is what `Strip` returns.
   */
  lemma StripUnique(s: string, i: int, j: int)
    requires Trims(s, i, j)
    requires i == j || (!IsSpace(s[i]) && !IsSpace(s[j - 1]))
    ensures Strip(s) == s[i..j]
  {
    var r := Strip(s);
    var i', j' :| Trims(s, i', j') && r == s[i'..j'];
    if i == j {
      assert forall k :: 0 <= k < |s| ==> IsSpace(s[k]);
    } else {
      assert r != [] by {
        assert !IsSpace(s[i]);
      }
      assert s[i'] == r[0] && s[j' - 1] == r[|r| - 1];
      assert i' == i && j' == j;
    }
  }

  /**
   * `s.capitalize()`: the same text up to case, starting with a character that is not
   * a lower-case letter and with no upper-case letter after it.
   */
  function Capitalize(s: string): (r: string)
    ensures |r| == |s|
    ensures Lower(r) == Lower(s)
    ensures r == [] || !IsAsciiLower(r[0])
    ensures forall k :: 1 <= k < |r| ==> !IsAsciiUpper(r[k])
    ensures forall k :: 0 <= k < |r| ==> (IsSpace(r[k]) <==> IsSpace(s[k]))
  {
    if s == [] then [] else
      var r := [UpperChar(s[0])] + Lower(s[1..]);
      SameUpToCase(s, r);
      r
  }

  /** Upper-casing the first character and lower-casing the rest keeps the text up to case. */
  lemma SameUpToCase(s: string, r: string)
    requires s != [] && r == [UpperChar(s[0])] + Lower(s[1..])
    ensures |r| == |s| && Lower(r) == Lower(s)
    ensures forall k :: 0 <= k < |r| ==> (IsSpace(r[k]) <==> IsSpace(s[k]))
  {
    forall k | 1 <= k < |r|
      ensures r[k] == LowerChar(s[k]) && LowerChar(r[k]) == LowerChar(s[k])
    {
      assert r[k] == Lower(s[1..])[k - 1];
    }
    assert Lower(r)[0] == Lower(s)[0];
  }

  /**
   * `s.rsplit(sep, 1)`: `None` when `sep` does not occur in `s` (Python then returns a
   * one-element list), otherwise the text before and after the LAST `sep`.
   */
  function SplitAtLast(s: string, sep: char): (r: Option<(string, string)>)
    ensures r.None? <==> sep !in s
    ensures r.Some? ==> s == r.value.0 + [sep] + r.value.1 && sep !in r.value.1
  {
    if s == [] then None
    else if s[|s| - 1] == sep then Some((s[..|s| - 1], ""))
    else
      match SplitAtLast(s[..|s| - 1], sep)
      case None =>
        assert s == s[..|s| - 1] + [s[|s| - 1]];
        None
      case Some((before, after)) =>
        assert s == s[..|s| - 1] + [s[|s| - 1]];
        Some((before, after + [s[|s| - 1]]))
  }

  /** Two strings equal up to case are equal when their letters have the same case. */
  lemma {:induction false} SameCaseShape(a: string, b: string)
    requires |a| == |b| && Lower(a) == Lower(b)
    requires a == [] || (!IsAsciiLower(a[0]) && !IsAsciiLower(b[0]))
    requires forall k :: 1 <= k < |a| ==> !IsAsciiUpper(a[k]) && !IsAsciiUpper(b[k])
    ensures a == b
  {
    forall k | 0 <= k < |a| ensures a[k] == b[k] {
      assert LowerChar(a[k]) == Lower(a)[k] == Lower(b)[k] == LowerChar(b[k]);
    }
  }

  /**
   * The partner of `Capitalize`: a string equal to `s` up to case, starting with a
   * character that is not a lower-case letter and with no upper-case letter after it,
   * is `s.capitalize()`.
   */
  lemma CapitalizeUnique(s: string, r: string)
    requires Lower(r) == Lower(s)
    requires r == [] || !IsAsciiLower(r[0])
    requires forall k :: 1 <= k < |r| ==> !IsAsciiUpper(r[k])
    ensures r == Capitalize(s)
  {
    SameCaseShape(r, Capitalize(s));
  }

  /** Splitting at the last separator finds the one split whose tail has no separator. */
  lemma {:induction false} SplitAtLastUnique(before: string, sep: char, after: string)
    requires sep !in after
    ensures SplitAtLast(before + [sep] + after, sep) == Some((before, after))
  {
    var s := before + [sep] + after;
    if after == [] {
      assert s[..|s| - 1] == before;
    } else {
      var shorter := after[..|after| - 1];
      assert s[..|s| - 1] == before + [sep] + shorter;
      assert after == shorter + [after[|after| - 1]];
      SplitAtLastUnique(before, sep, shorter);
    }
  }

  /** Capitalizing twice is capitalizing once. */
  lemma CapitalizeIdempotent(s: string)
    ensures Capitalize(Capitalize(s)) == Capitalize(s)
  {
  }
}
