/** The two functions of Go's strings package the handlers rely on:
    strings.TrimSpace (custom codes) and strings.TrimRight (the base URL). */
module Strings {

  /** unicode.IsSpace: the Latin-1 spaces \t \n \v \f \r, space, U+0085 and
      U+00A0, and above Latin-1 the White_Space property. */
  predicate IsSpace(c: char) {
    var n := c as int;
    || 0x09 <= n <= 0x0D
    || n == 0x20 || n == 0x85 || n == 0xA0
    || n == 0x1680
    || 0x2000 <= n <= 0x200A
    || n == 0x2028 || n == 0x2029 || n == 0x202F || n == 0x205F
    || n == 0x3000
  }

  /** The number of leading characters of s that satisfy p. */
  function LeadingCount(s: string, p: char -> bool): (n: nat)
    ensures n <= |s|
    ensures forall k | 0 <= k < n :: p(s[k])
    ensures n < |s| ==> !p(s[n])
  {
    if s == [] || !p(s[0]) then 0 else 1 + LeadingCount(s[1..], p)
  }

  /** The number of trailing characters of s that satisfy p. */
  function TrailingCount(s: string, p: char -> bool): (n: nat)
    ensures n <= |s|
    ensures forall k | |s| - n <= k < |s| :: p(s[k])
    ensures n < |s| ==> !p(s[|s| - 1 - n])
  {
    if s == [] || !p(s[|s| - 1]) then 0 else 1 + TrailingCount(s[..|s| - 1], p)
  }

  function TrimLeftFunc(s: string, p: char -> bool): string {
    s[LeadingCount(s, p)..]
  }

  function TrimRightFunc(s: string, p: char -> bool): string {
    s[..|s| - TrailingCount(s, p)]
  }

  /** strings.TrimSpace: drops leading and trailing white space. */
  function TrimSpace(s: string): string {
    TrimRightFunc(TrimLeftFunc(s, IsSpace), IsSpace)
  }

  /** strings.TrimRight: drops every trailing character that occurs in cutset. */
  function TrimRight(s: string, cutset: string): string {
    TrimRightFunc(s, c => c in cutset)
  }

  predicate AllSpace(s: string) {
    forall k | 0 <= k < |s| :: IsSpace(s[k])
  }

  /** TrimSpace(s) is s with a white-space prefix and a white-space suffix
      removed, and neither end of what remains is white space: the trimmed
      parts are as long as they can be. */
  lemma TrimSpaceShape(s: string)
    ensures exists i, j ::
              0 <= i <= j <= |s| && TrimSpace(s) == s[i..j] && AllSpace(s[..i]) && AllSpace(s[j..])
    ensures TrimSpace(s) != [] ==> !IsSpace(TrimSpace(s)[0]) && !IsSpace(TrimSpace(s)[|TrimSpace(s)| - 1])
    ensures TrimSpace(s) == [] <==> AllSpace(s)
  {
    var i := LeadingCount(s, IsSpace);
    var t := s[i..];
    var m := TrailingCount(t, IsSpace);
    var j := i + |t| - m;
    assert TrimSpace(s) == s[i..j];
    assert AllSpace(s[..i]);
    assert AllSpace(s[j..]) by {
      forall k | 0 <= k < |s[j..]| ensures IsSpace(s[j..][k]) {
        assert s[j..][k] == t[|t| - m + k];
      }
    }
  }

  /** Trimming white space a second time changes nothing. */
  lemma TrimSpaceIdempotent(s: string)
    ensures TrimSpace(TrimSpace(s)) == TrimSpace(s)
  {
    var r := TrimSpace(s);
    TrimSpaceShape(s);
    if r != [] {
      assert LeadingCount(r, IsSpace) == 0;
      assert TrailingCount(r, IsSpace) == 0;
    }
  }

  /** TrimRight(s, cutset) is a prefix of s, what it drops is made of cutset
      characters only, and it does not itself end in one of them. */
  lemma TrimRightShape(s: string, cutset: string)
    ensures TrimRight(s, cutset) <= s
    ensures forall k | |TrimRight(s, cutset)| <= k < |s| :: s[k] in cutset
    ensures TrimRight(s, cutset) != [] ==> TrimRight(s, cutset)[|TrimRight(s, cutset)| - 1] !in cutset
  {
  }

  /** Trimming a cutset from the right a second time changes nothing. */
  lemma TrimRightIdempotent(s: string, cutset: string)
    ensures TrimRight(TrimRight(s, cutset), cutset) == TrimRight(s, cutset)
  {
    var r := TrimRight(s, cutset);
    TrimRightShape(s, cutset);
    if r != [] {
      assert TrailingCount(r, c => c in cutset) == 0;
    }
  }

  /** A string that neither starts nor ends with white space is left as it is. */
  lemma TrimSpaceKeeps(s: string)
    requires s != [] && !IsSpace(s[0]) && !IsSpace(s[|s| - 1])
    ensures TrimSpace(s) == s
  {
    assert LeadingCount(s, IsSpace) == 0;
    assert TrailingCount(s, IsSpace) == 0;
  }
}
