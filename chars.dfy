/**
 * The character classes of <ctype.h> in the "C" locale, as the game uses them.
 * A `char` stands for one byte of a C string; bytes outside 7-bit ASCII
 * belong to none of the classes.
 */
module Chars {
  predicate IsUpper(c: char) { 'A' <= c <= 'Z' }

  predicate IsLower(c: char) { 'a' <= c <= 'z' }

  /** isalpha */
  predicate IsAlpha(c: char) { IsUpper(c) || IsLower(c) }

  /** isblank: space and horizontal tab */
  predicate IsBlank(c: char) { c == ' ' || c == '\t' }

  /** isgraph: printable and not a space */
  predicate IsGraph(c: char) { '!' <= c <= '~' }

  predicate IsDigit(c: char) { '0' <= c <= '9' }

  /** tolower */
  function ToLower(c: char): (r: char)
    ensures IsUpper(c) ==> IsLower(r) && r as int == c as int + 32
    ensures !IsUpper(c) ==> r == c
  {
    if IsUpper(c) then (c as int + 32) as char else c
  }

  /** The upper-case letter of a zero-based player index. */
  function Letter(i: int): (r: char)
    requires 0 <= i < 26
    ensures IsUpper(r) && r as int - 'A' as int == i
  {
    ('A' as int + i) as char
  }
}
