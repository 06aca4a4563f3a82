/**
  The character classes the setlist parser rests on, as Python defines them on
  str: white space (`\s`, strip) and line boundaries (splitlines).
 */
module SetlistChars {
  import opened Decimals

  const MIDDLE_DOT := '\U{00B7}'
  const EN_DASH := '\U{2013}'

  predicate IsSpace(c: char) {
    var n := c as int;
    || 0x09 <= n <= 0x0D || 0x1C <= n <= 0x20 || n == 0x85 || n == 0xA0 || n == 0x1680
    || 0x2000 <= n <= 0x200A || n == 0x2028 || n == 0x2029 || n == 0x202F || n == 0x205F || n == 0x3000
  }

  predicate IsLineBreak(c: char) {
    var n := c as int;
    0x0A <= n <= 0x0D || 0x1C <= n <= 0x1E || n == 0x85 || n == 0x2028 || n == 0x2029
  }

  predicate IsSeparator(c: char) {
    c == MIDDLE_DOT || c == '-'
  }

  /** The characters of a time. */
  predicate IsClockChar(c: char) {
    IsDigit(c) || c == ':'
  }

  lemma SpacesAreNotDigits(c: char)
    ensures IsSpace(c) ==> !IsDigit(c) && c != ':' && !IsSeparator(c) && c != EN_DASH && c != 't'
    ensures IsLineBreak(c) ==> IsSpace(c)
  {}

  lemma MarksAreNotDigits(c: char)
    ensures IsSeparator(c) || c == EN_DASH || c == 't' || c == 'o' || c == ':' || c == '#' ==> !IsDigit(c) && !IsSpace(c)
  {}
}
