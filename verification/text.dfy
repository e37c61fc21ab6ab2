/** Kotlin's blank-string test on the JVM. */
module Text {

  /** `Char.isWhitespace()`: Java's `Character.isWhitespace` or `Character.isSpaceChar`,
      i.e. the ASCII controls TAB..CR and FS..US plus every Unicode space, line and
      paragraph separator. */
  predicate IsWhitespace(c: char)
  {
    var n := c as int;
    || 0x09 <= n <= 0x0D
    || 0x1C <= n <= 0x20
    || n == 0xA0
    || n == 0x1680
    || 0x2000 <= n <= 0x200A
    || n == 0x2028 || n == 0x2029
    || n == 0x202F || n == 0x205F
    || n == 0x3000
  }

  /** `CharSequence.isBlank()`: empty, or whitespace only. */
  predicate IsBlank(s: string)
  {
    forall i :: 0 <= i < |s| ==> IsWhitespace(s[i])
  }
}
