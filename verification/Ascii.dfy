/** Locale-independent character classes and case mapping (utils/ascii.h). */
module Ascii {

  predicate IsAlphaLower(c: char) { 'a' <= c <= 'z' }

  predicate IsAlphaUpper(c: char) { 'A' <= c <= 'Z' }

  predicate IsAlpha(c: char) { IsAlphaLower(c) || IsAlphaUpper(c) }

  function ToLower(c: char): char {
    if IsAlphaUpper(c) then c + ('a' - 'A') else c
  }

  function ToUpper(c: char): char {
    if IsAlphaLower(c) then c - ('a' - 'A') else c
  }

  /** The same letter, of whatever case, or the same other character. */
  predicate SameLetter(c: char, d: char) {
    || c == d
    || (IsAlphaLower(c) && IsAlphaUpper(d) && c as int - 'a' as int == d as int - 'A' as int)
    || (IsAlphaUpper(c) && IsAlphaLower(d) && c as int - 'A' as int == d as int - 'a' as int)
  }

  lemma SameLetterIff(c: char, d: char)
    ensures ToLower(c) == ToLower(d) <==> SameLetter(c, d)
    ensures ToUpper(c) == ToUpper(d) <==> SameLetter(c, d)
    ensures !IsAlphaUpper(ToLower(c)) && !IsAlphaLower(ToUpper(c))
  {
  }
}
