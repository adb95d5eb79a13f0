/**
 * The three string operations of the JavaScript runtime the front end
 * relies on: `toLowerCase` (restricted to ASCII letters), `includes` and
 * `trim`.
 */
module Strings {

  /** Lower-cases an ASCII capital letter and leaves every other character alone. */
  function LowerChar(c: char): (r: char)
    ensures 'A' <= c <= 'Z' ==> r as int == c as int + 32
    ensures !('A' <= c <= 'Z') ==> r == c
    ensures !('A' <= r <= 'Z')
  {
    if 'A' <= c <= 'Z' then (c as int + 32) as char else c
  }

  /** `s.toLowerCase()`, character by character. */
  function Lower(s: string): (r: string)
    ensures |r| == |s|
    ensures forall i :: 0 <= i < |s| ==> r[i] == LowerChar(s[i])
  {
    seq(|s|, i requires 0 <= i < |s| => LowerChar(s[i]))
  }

  /** Lower-casing twice is lower-casing once. */
  lemma LowerIdempotent(s: string)
    ensures Lower(Lower(s)) == Lower(s)
  {
    var once := Lower(s);
    forall i | 0 <= i < |s|
      ensures Lower(once)[i] == once[i]
    {
      assert !('A' <= once[i] <= 'Z');
    }
  }

  /** `s.includes(q)`: `q` occurs in `s` as a prefix of some suffix. */
  predicate Includes(s: string, q: string)
    ensures q <= s ==> Includes(s, q)
    ensures Includes(s, q) ==> |q| <= |s|
    decreases |s|
  {
    q <= s || (|s| > 0 && Includes(s[1..], q))
  }

  /** The recursive search agrees with the position-based definition of an occurrence. */
  lemma {:induction false} IncludesIffOccurs(s: string, q: string)
    ensures Includes(s, q) <==> exists i :: 0 <= i <= |s| && q <= s[i..]
    decreases |s|
  {
    if q <= s {
      assert s[0..] == s;
    } else if |s| == 0 {
      assert forall i :: 0 <= i <= |s| ==> s[i..] == s;
    } else {
      IncludesIffOccurs(s[1..], q);
      if Includes(s[1..], q) {
        var i :| 0 <= i <= |s[1..]| && q <= s[1..][i..];
        assert s[1..][i..] == s[i + 1..];
      } else {
        forall i | 1 <= i <= |s|
          ensures !(q <= s[i..])
        {
          assert s[1..][i - 1..] == s[i..];
        }
      }
    }
  }

  /** Every string includes the empty string. */
  lemma IncludesEmpty(s: string)
    ensures Includes(s, "")
  {
  }

  /**
   * The ECMAScript WhiteSpace and LineTerminator code points, which `trim`
   * removes: tab, line feed, vertical tab, form feed, carriage return,
   * space, no-break space, the Unicode space separators (U+1680,
   * U+2000 to U+200A, U+202F, U+205F, U+3000), the line and paragraph
   * separators and the byte order mark.
   */
  predicate IsWhitespace(c: char)
    ensures c == ' ' || c == '\t' || c == '\n' || c == '\r' ==> IsWhitespace(c)
    ensures IsWhitespace(c) ==> !('a' <= c <= 'z' || 'A' <= c <= 'Z' || '0' <= c <= '9')
  {
    var n := c as int;
    (0x9 <= n <= 0xD) || n == 0x20 || n == 0xA0 || n == 0x1680 || (0x2000 <= n <= 0x200A)
    || n == 0x2028 || n == 0x2029 || n == 0x202F || n == 0x205F || n == 0x3000 || n == 0xFEFF
  }

  /** The first position at or after `i` that holds no whitespace, or `|s|`. */
  function SkipLeading(s: string, i: nat): (k: nat)
    requires i <= |s|
    ensures i <= k <= |s|
    ensures forall j :: i <= j < k ==> IsWhitespace(s[j])
    ensures k < |s| ==> !IsWhitespace(s[k])
    decreases |s| - i
  {
    if i < |s| && IsWhitespace(s[i]) then SkipLeading(s, i + 1) else i
  }

  /** The end of `s[lo..j]` once its trailing whitespace is dropped. */
  function SkipTrailing(s: string, lo: nat, j: nat): (k: nat)
    requires lo <= j <= |s|
    ensures lo <= k <= j
    ensures forall m :: k <= m < j ==> IsWhitespace(s[m])
    ensures k > lo ==> !IsWhitespace(s[k - 1])
    decreases j - lo
  {
    if j > lo && IsWhitespace(s[j - 1]) then SkipTrailing(s, lo, j - 1) else j
  }

  /** Where the trimmed text starts. */
  function TrimLo(s: string): nat
    ensures TrimLo(s) <= |s|
  {
    SkipLeading(s, 0)
  }

  /** Where the trimmed text ends. */
  function TrimHi(s: string): nat
    ensures TrimLo(s) <= TrimHi(s) <= |s|
  {
    SkipTrailing(s, TrimLo(s), |s|)
  }

  /** `s.trim()`: what remains neither starts nor ends with whitespace. */
  function Trim(s: string): (r: string)
    ensures |r| <= |s|
    ensures r != [] ==> !IsWhitespace(r[0]) && !IsWhitespace(r[|r| - 1])
  {
    s[TrimLo(s)..TrimHi(s)]
  }

  /**
   * Trimming cuts only whitespace: the result is a slice of `s`, everything
   * before it and everything after it is whitespace, and (when it is not
   * empty) it starts and ends on a character that is not.
   */
  lemma TrimCutsOnlyWhitespace(s: string)
    ensures var lo, hi := TrimLo(s), TrimHi(s);
            && lo <= hi <= |s| && Trim(s) == s[lo..hi]
            && (forall i :: 0 <= i < lo ==> IsWhitespace(s[i]))
            && (forall i :: hi <= i < |s| ==> IsWhitespace(s[i]))
            && (lo < hi ==> !IsWhitespace(s[lo]) && !IsWhitespace(s[hi - 1]))
  {
  }

  /** Trimming leaves nothing exactly when the string is all whitespace. */
  lemma TrimEmptyIffAllWhitespace(s: string)
    ensures Trim(s) == [] <==> forall i :: 0 <= i < |s| ==> IsWhitespace(s[i])
  {
    TrimCutsOnlyWhitespace(s);
    if Trim(s) != [] {
      assert !IsWhitespace(s[TrimLo(s)]);
    }
  }

  /** Trimming a trimmed string changes nothing. */
  lemma TrimIdempotent(s: string)
    ensures Trim(Trim(s)) == Trim(s)
  {
    var r := Trim(s);
    if r != [] {
      assert TrimLo(r) == 0;
      assert TrimHi(r) == |r|;
      assert r[0..|r|] == r;
    }
  }
}
