/** Character handling shared by the text-driven programs. */
module Text {
  /**
   * `str.upper` on one character, as far as the programs' tables can see
   * it: ASCII letters, plus the two non-ASCII letters whose upper case is
   * an ASCII letter (dotless i and long s). Every other character is left
   * as is. A character whose upper case is several characters (the
   * ligature U+FB00 becomes "FF") is not expanded.
   */
  function Upper(c: char): (u: char)
    ensures 'a' <= c <= 'z' ==> u as int == c as int - 32
    ensures !('a' <= c <= 'z') && c != '\U{0131}' && c != '\U{017F}' ==> u == c
  {
    if 'a' <= c <= 'z' then (c as int - 32) as char
    else if c == '\U{0131}' then 'I'
    else if c == '\U{017F}' then 'S'
    else c
  }
}
