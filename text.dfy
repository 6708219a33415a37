/** The string operations the planner's search and de-duplication use:
    lower-casing, substring search and the whitespace test behind `trim()`. */
module Text {

  /** Lower-cases one character; only the ASCII letters A-Z are mapped. */
  function LowerChar(c: char): (r: char)
    ensures 'A' <= c <= 'Z' ==> 'a' <= r <= 'z'
    ensures !('A' <= c <= 'Z') ==> r == c
  {
    if 'A' <= c <= 'Z' then (c as int + 32) as char else c
  }

  /** `toLowerCase()` restricted to ASCII. */
  function Lower(s: string): (r: string)
    ensures |r| == |s|
    ensures forall i :: 0 <= i < |s| ==> r[i] == LowerChar(s[i])
  {
    seq(|s|, i requires 0 <= i < |s| => LowerChar(s[i]))
  }

  predicate IsPrefix(p: string, s: string)
  {
    |p| <= |s| && s[..|p|] == p
  }

  /** `hay.includes(needle)`: needle occurs in hay as a contiguous substring. */
  predicate Contains(hay: string, needle: string)
  {
    IsPrefix(needle, hay) || (hay != [] && Contains(hay[1..], needle))
  }

  /** Contains agrees with the positional reading of a substring test. */
  lemma {:induction false} ContainsAt(hay: string, needle: string)
    ensures Contains(hay, needle) <==>
      exists i :: 0 <= i && i + |needle| <= |hay| && IsPrefix(needle, hay[i..])
  {
    assert hay[0..] == hay;
    if hay != [] {
      ContainsAt(hay[1..], needle);
      if Contains(hay[1..], needle) {
        var i :| 0 <= i && i + |needle| <= |hay[1..]| && IsPrefix(needle, hay[1..][i..]);
        assert hay[1..][i..] == hay[i + 1..];
      }
      if exists i :: 0 <= i && i + |needle| <= |hay| && IsPrefix(needle, hay[i..]) {
        var i :| 0 <= i && i + |needle| <= |hay| && IsPrefix(needle, hay[i..]);
        if i > 0 {
          assert hay[1..][i - 1..] == hay[i..];
        }
      }
    }
  }

  /** A needle longer than the haystack never occurs in it. */
  lemma {:induction false} ContainsNeedsRoom(hay: string, needle: string)
    requires |hay| < |needle|
    ensures !Contains(hay, needle)
  {
    if hay != [] {
      ContainsNeedsRoom(hay[1..], needle);
    }
  }

  /**
   * A needle whose k-th character appears nowhere the k-th character of a
   * match could sit does not occur.
   */
  lemma {:induction false} MissingAtOffset(hay: string, needle: string, k: nat)
    requires k < |needle|
    requires forall j :: k <= j <= |hay| - |needle| + k ==> hay[j] != needle[k]
    ensures !Contains(hay, needle)
  {
    if |hay| < |needle| {
      ContainsNeedsRoom(hay, needle);
    } else {
      assert hay[..|needle|][k] == hay[k];
      forall j | k <= j <= |hay[1..]| - |needle| + k
        ensures hay[1..][j] != needle[k]
      {
        assert hay[1..][j] == hay[j + 1];
      }
      MissingAtOffset(hay[1..], needle, k);
    }
  }

  /** A match survives lower-casing both sides: the search is case-insensitive. */
  lemma {:induction false} ContainsLower(hay: string, needle: string)
    requires Contains(hay, needle)
    ensures Contains(Lower(hay), Lower(needle))
  {
    if IsPrefix(needle, hay) {
      assert Lower(hay)[..|needle|] == Lower(needle);
    } else {
      ContainsLower(hay[1..], needle);
      assert Lower(hay)[1..] == Lower(hay[1..]);
    }
  }

  /** The characters `String.prototype.trim` removes: ECMAScript WhiteSpace
      and LineTerminator. */
  predicate IsTrimmedSpace(c: char)
  {
    c == '\t' || c == '\n' || c == '\U{000B}' || c == '\U{000C}' || c == '\r' || c == ' '
    || c == '\U{00A0}' || c == '\U{1680}' || ('\U{2000}' <= c <= '\U{200A}')
    || c == '\U{2028}' || c == '\U{2029}' || c == '\U{202F}' || c == '\U{205F}'
    || c == '\U{3000}' || c == '\U{FEFF}'
  }

  /** `!s.trim()`: the string is empty after trimming. */
  predicate IsBlank(s: string)
  {
    forall i :: 0 <= i < |s| ==> IsTrimmedSpace(s[i])
  }
}
