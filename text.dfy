/**
 * Python's `str.strip()` with no argument, as pandas' `Index.str.strip()`
 * applies it to every column header.
 */
module Text {

  /** Python's `str.isspace()` for one character: the ASCII whitespace
      characters, the four information separators, NEL, and the Unicode
      space, line and paragraph separators. */
  predicate IsSpace(c: char) {
    || c == ' '
    || ('\t' <= c <= '\r')
    || ('\U{1C}' <= c <= '\U{1F}')
    || c == '\U{85}'
    || c == '\U{A0}'
    || c == '\U{1680}'
    || ('\U{2000}' <= c <= '\U{200A}')
    || c == '\U{2028}'
    || c == '\U{2029}'
    || c == '\U{202F}'
    || c == '\U{205F}'
    || c == '\U{3000}'
  }

  /** Every character of `s` at a position in `[i, j)` is whitespace. */
  predicate SpacesIn(s: string, i: int, j: int) {
    forall k :: i <= k < j && 0 <= k < |s| ==> IsSpace(s[k])
  }

  /** Neither the first nor the last character is whitespace. */
  predicate IsTrimmed(s: string) {
    s == [] || (!IsSpace(s[0]) && !IsSpace(s[|s| - 1]))
  }

  /** `r` is what is left of `s` after removing a run of whitespace at each
      end, and no whitespace is left at either end. */
  ghost predicate IsStripOf(r: string, s: string) {
    exists i, j :: 0 <= i <= j <= |s| && r == s[i..j] && SpacesIn(s, 0, i) && SpacesIn(s, j, |s|) && IsTrimmed(r)
  }

  /** Where `lstrip` stops when it starts at `i`: the first position from
      `i` on that is not whitespace, or the end. */
  function SkipSpaces(s: string, i: nat): (e: nat)
    requires i <= |s|
    ensures i <= e <= |s|
    ensures SpacesIn(s, i, e)
    ensures e == |s| || !IsSpace(s[e])
    decreases |s| - i
  {
    if i < |s| && IsSpace(s[i]) then SkipSpaces(s, i + 1) else i
  }

  /** Where `rstrip` stops when it starts at `j` and may go back to `lo`:
      the last position down to `lo` after which there is only whitespace. */
  function BackSpaces(s: string, lo: nat, j: nat): (b: nat)
    requires lo <= j <= |s|
    ensures lo <= b <= j
    ensures SpacesIn(s, b, j)
    ensures b == lo || !IsSpace(s[b - 1])
    decreases j
  {
    if j > lo && IsSpace(s[j - 1]) then BackSpaces(s, lo, j - 1) else j
  }

  /** `str.strip()`. */
  function Strip(s: string): (r: string)
    ensures IsStripOf(r, s)
  {
    var i := SkipSpaces(s, 0);
    var j := BackSpaces(s, i, |s|);
    var r := s[i..j];
    assert IsTrimmed(r) by {
      if i < j {
        assert r[0] == s[i];
        assert r[|r| - 1] == s[j - 1];
      }
    }
    assert 0 <= i <= j <= |s| && r == s[i..j] && SpacesIn(s, 0, i) && SpacesIn(s, j, |s|) && IsTrimmed(r);
    r
  }

  /** `Index.str.strip()`: strips every name, keeping their order. */
  function StripAll(names: seq<string>): (r: seq<string>)
    ensures |r| == |names|
    ensures forall k :: 0 <= k < |names| ==> r[k] == Strip(names[k])
  {
    seq(|names|, k requires 0 <= k < |names| => Strip(names[k]))
  }

  /** Stripping is determined uniquely by IsStripOf: whatever satisfies it
      for `s` is `Strip(s)`. */
  lemma StripOfUnique(r: string, s: string)
    requires IsStripOf(r, s)
    ensures r == Strip(s)
  {
    var i, j :| 0 <= i <= j <= |s| && r == s[i..j] && SpacesIn(s, 0, i) && SpacesIn(s, j, |s|) && IsTrimmed(r);
    if i < j {
      TrimmedEnds(s, i, j);
      SkipSpacesAt(s, 0, i);
      BackSpacesAt(s, i, |s|, j);
      assert Strip(s) == s[i..BackSpaces(s, i, |s|)];
    } else {
      assert SpacesIn(s, 0, |s|);
      SkipSpacesAt(s, 0, |s|);
      assert Strip(s) == s[|s|..BackSpaces(s, |s|, |s|)];
    }
  }

  /** The ends of a trimmed slice are not whitespace. */
  lemma TrimmedEnds(s: string, i: nat, j: nat)
    requires i < j <= |s| && IsTrimmed(s[i..j])
    ensures !IsSpace(s[i]) && !IsSpace(s[j - 1])
  {
    assert s[i..j][0] == s[i];
    assert s[i..j][j - 1 - i] == s[j - 1];
  }

  /** `lstrip` from `m` stops at the first non-whitespace position. */
  lemma {:induction false} SkipSpacesAt(s: string, m: nat, i: nat)
    requires m <= i <= |s|
    requires SpacesIn(s, m, i) && (i == |s| || !IsSpace(s[i]))
    ensures SkipSpaces(s, m) == i
    decreases i - m
  {
    if m < i {
      assert IsSpace(s[m]);
      SkipSpacesAt(s, m + 1, i);
    }
  }

  /** `rstrip` from `j` stops after the last non-whitespace position. */
  lemma {:induction false} BackSpacesAt(s: string, lo: nat, j: nat, b: nat)
    requires lo <= b <= j <= |s|
    requires SpacesIn(s, b, j) && (b == lo || !IsSpace(s[b - 1]))
    ensures BackSpaces(s, lo, j) == b
    decreases j - b
  {
    if b < j {
      assert IsSpace(s[j - 1]);
      BackSpacesAt(s, lo, j - 1, b);
    }
  }

  /** `strip` changes nothing on a string that is already trimmed, so
      stripping twice is the same as stripping once. */
  lemma StripTrimmed(s: string)
    requires IsTrimmed(s)
    ensures Strip(s) == s
  {
    assert SkipSpaces(s, 0) == 0;
    if s != [] {
      assert BackSpaces(s, 0, |s|) == |s|;
    }
  }

  lemma StripIdempotent(s: string)
    ensures Strip(Strip(s)) == Strip(s)
  {
    var r := Strip(s);
    var i, j :| 0 <= i <= j <= |s| && r == s[i..j] && SpacesIn(s, 0, i) && SpacesIn(s, j, |s|) && IsTrimmed(r);
    StripTrimmed(r);
  }
}
