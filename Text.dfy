/**
 * Rust's `str::trim`: it strips every leading and trailing character for
 * which `char::is_whitespace` holds, that is, every character with the
 * Unicode White_Space property.
 */
module Text {

  /** `char::is_whitespace`: the Unicode White_Space property. */
  predicate IsWhitespace(c: char) {
    ('\t' <= c <= '\r') || c == ' ' || c == '\U{85}' || c == '\U{A0}' || c == '\U{1680}'
    || ('\U{2000}' <= c <= '\U{200A}') || c == '\U{2028}' || c == '\U{2029}'
    || c == '\U{202F}' || c == '\U{205F}' || c == '\U{3000}'
  }

  /** A string made of whitespace only (the empty string included). */
  predicate IsBlank(s: string) {
    forall i :: 0 <= i < |s| ==> IsWhitespace(s[i])
  }

  /** `str::trim_start`: drops the leading whitespace. */
  function TrimStart(s: string): string
    decreases |s|
  {
    if s != [] && IsWhitespace(s[0]) then TrimStart(s[1..]) else s
  }

  /** `str::trim_end`: drops the trailing whitespace. */
  function TrimEnd(s: string): string
    decreases |s|
  {
    if s != [] && IsWhitespace(s[|s| - 1]) then TrimEnd(s[..|s| - 1]) else s
  }

  /** `str::trim`. */
  function Trim(s: string): string {
    TrimEnd(TrimStart(s))
  }

  /**
   * `TrimStart(s)` is the suffix of `s` left after a blank prefix, and it
   * does not start with whitespace: the longest such suffix.
   */
  lemma {:induction false} TrimStartSpec(s: string)
    ensures |TrimStart(s)| <= |s| && TrimStart(s) == s[|s| - |TrimStart(s)|..]
    ensures IsBlank(s[..|s| - |TrimStart(s)|])
    ensures TrimStart(s) != [] ==> !IsWhitespace(TrimStart(s)[0])
    decreases |s|
  {
    if s != [] && IsWhitespace(s[0]) {
      var tail := s[1..];
      TrimStartSpec(tail);
      assert TrimStart(s) == TrimStart(tail);
      var k := |s| - |TrimStart(s)|;
      assert IsBlank(tail[..k - 1]);
      forall i | 0 <= i < k ensures IsWhitespace(s[..k][i]) {
        if i == 0 {
          assert s[..k][0] == s[0];
        } else {
          assert s[..k][i] == tail[..k - 1][i - 1];
        }
      }
    }
  }

  /**
   * `TrimEnd(s)` is the prefix of `s` left before a blank suffix, and it
   * does not end with whitespace: the longest such prefix.
   */
  lemma {:induction false} TrimEndSpec(s: string)
    ensures |TrimEnd(s)| <= |s| && TrimEnd(s) == s[..|TrimEnd(s)|]
    ensures IsBlank(s[|TrimEnd(s)|..])
    ensures TrimEnd(s) != [] ==> !IsWhitespace(TrimEnd(s)[|TrimEnd(s)| - 1])
    decreases |s|
  {
    if s != [] && IsWhitespace(s[|s| - 1]) {
      var p := s[..|s| - 1];
      TrimEndSpec(p);
      var k := |TrimEnd(s)|;
      forall j | 0 <= j < |s| - k ensures IsWhitespace(s[k..][j]) {
        if j < |p| - k { assert s[k..][j] == p[k..][j]; }
      }
    }
  }

  /** Trimming the front of a string that starts with a non-whitespace character changes nothing. */
  lemma TrimStartKeeps(s: string)
    requires s != [] && !IsWhitespace(s[0])
    ensures TrimStart(s) == s
  {
  }

  /** Trimming the end of a string that ends with a non-whitespace character changes nothing. */
  lemma TrimEndKeeps(s: string)
    requires s != [] && !IsWhitespace(s[|s| - 1])
    ensures TrimEnd(s) == s
  {
  }

  /** Leading whitespace is dropped: trimming `w + s` for a blank `w` is trimming `s`. */
  lemma {:induction false} TrimStartBlankPrefix(w: string, s: string)
    requires IsBlank(w)
    ensures TrimStart(w + s) == TrimStart(s)
    decreases |w|
  {
    if w == [] {
      assert w + s == s;
    } else {
      assert (w + s)[0] == w[0] && IsWhitespace(w[0]);
      assert (w + s)[1..] == w[1..] + s;
      assert IsBlank(w[1..]) by {
        forall i | 0 <= i < |w| - 1 ensures IsWhitespace(w[1..][i]) { assert w[1..][i] == w[i + 1]; }
      }
      TrimStartBlankPrefix(w[1..], s);
    }
  }

  /**
   * Trimming the end of `a + b` only touches `b` when `b` holds a
   * non-whitespace character, and swallows all of `b` when it does not.
   */
  lemma {:induction false} TrimEndAppend(a: string, b: string)
    ensures !IsBlank(b) ==> TrimEnd(a + b) == a + TrimEnd(b)
    ensures IsBlank(b) ==> TrimEnd(a + b) == TrimEnd(a)
    decreases |b|
  {
    if b == [] {
      assert a + b == a;
    } else {
      var n := |b| - 1;
      assert (a + b)[..|a + b| - 1] == a + b[..n];
      if IsWhitespace(b[n]) {
        TrimEndAppend(a, b[..n]);
        assert IsBlank(b) <==> IsBlank(b[..n]) by {
          if IsBlank(b[..n]) {
            forall i | 0 <= i < |b| ensures IsWhitespace(b[i]) {
              if i < n { assert b[i] == b[..n][i]; }
            }
          }
          if IsBlank(b) {
            forall i | 0 <= i < n ensures IsWhitespace(b[..n][i]) {
              assert b[..n][i] == b[i];
            }
          }
        }
      } else {
        assert !IsBlank(b);
      }
    }
  }
}
