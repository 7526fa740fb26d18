/**
 * The few Kotlin standard-library string operations the core relies on:
 * `isBlank`, `startsWith`, `endsWith`, `contains`, `replace` and `java.io.File.name`.
 * Strings are sequences of Unicode scalar values.
 */
module Text {

  /**
   * Kotlin's `Char.isWhitespace()` on the JVM: `Character.isWhitespace` or
   * `Character.isSpaceChar`, written out as the set of code points it accepts.
   */
  predicate IsWhitespace(c: char) {
    var n := c as int;
    (0x09 <= n <= 0x0D) || (0x1C <= n <= 0x20) || n == 0xA0 || n == 0x1680
    || (0x2000 <= n <= 0x200A) || n == 0x2028 || n == 0x2029 || n == 0x202F
    || n == 0x205F || n == 0x3000
  }

  /** `isBlank()`: empty, or whitespace only. */
  predicate IsBlank(s: string) {
    forall i :: 0 <= i < |s| ==> IsWhitespace(s[i])
  }

  predicate StartsWith(s: string, prefix: string) {
    prefix <= s
  }

  predicate EndsWith(s: string, suffix: string) {
    |suffix| <= |s| && s[|s| - |suffix|..] == suffix
  }

  /** `s` holds `sub` at position `i`. */
  ghost predicate OccursAt(s: string, sub: string, i: int) {
    0 <= i && i + |sub| <= |s| && s[i..i + |sub|] == sub
  }

  /** `contains(sub)`: a left-to-right search for an occurrence of `sub`. */
  function Contains(s: string, sub: string): (r: bool)
    ensures r <==> exists i :: OccursAt(s, sub, i)
    decreases |s|
  {
    if |s| < |sub| then
      assert forall i :: !OccursAt(s, sub, i);
      false
    else if sub <= s then
      assert OccursAt(s, sub, 0);
      true
    else
      var rest := Contains(s[1..], sub);
      assert forall i :: OccursAt(s[1..], sub, i) ==> OccursAt(s, sub, i + 1) by {
        forall i | OccursAt(s[1..], sub, i) ensures OccursAt(s, sub, i + 1) {
          assert s[1..][i..i + |sub|] == s[i + 1..i + 1 + |sub|];
        }
      }
      assert forall i :: OccursAt(s, sub, i) ==> i == 0 || OccursAt(s[1..], sub, i - 1) by {
        forall i | OccursAt(s, sub, i) && i != 0 ensures OccursAt(s[1..], sub, i - 1) {
          assert s[1..][i - 1..i - 1 + |sub|] == s[i..i + |sub|];
        }
      }
      rest
  }

  /** `replace(c.toString(), rep)`: every occurrence of the character `c` becomes `rep`. */
  function ReplaceChar(s: string, c: char, rep: string): (r: string)
    ensures c !in s ==> r == s
    ensures forall x :: x in r ==> x in rep || (x in s && x != c)
  {
    if s == [] then []
    else (if s[0] == c then rep else [s[0]]) + ReplaceChar(s[1..], c, rep)
  }

  /** The slash-free tail of `p`: everything after its last `/`. */
  function LastComponent(p: string): (r: string)
    ensures '/' !in r && EndsWith(p, r)
    ensures |r| == |p| || p[|p| - |r| - 1] == '/'
  {
    if p == [] || p[|p| - 1] == '/' then []
    else
      var r := LastComponent(p[..|p| - 1]);
      assert p[..|p| - 1][|p| - 1 - |r|..] == r;
      assert p[|p| - (|r| + 1)..] == r + [p[|p| - 1]];
      r + [p[|p| - 1]]
  }

  /** `p` without the `/` characters at its end. */
  function StripTrailingSlashes(p: string): (r: string)
    ensures r <= p && (r == [] || r[|r| - 1] != '/')
    ensures forall i :: |r| <= i < |p| ==> p[i] == '/'
  {
    if p != [] && p[|p| - 1] == '/' then StripTrailingSlashes(p[..|p| - 1]) else p
  }

  /**
   * `java.io.File(p).name` with Unix separators: the file's path is normalised
   * (trailing separators dropped) and its name is the part after the last separator.
   */
  function FileName(p: string): (r: string)
    ensures '/' !in r
    ensures EndsWith(StripTrailingSlashes(p), r)
  {
    LastComponent(StripTrailingSlashes(p))
  }
}
