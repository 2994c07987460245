// What several parts share: the larger of two numbers, and classes of characters in the C locale.

module Basics {

  function Max(a: int, b: int): int { if a < b then b else a }

  predicate IsBlank(ch: char) { ch == ' ' || ch == '\t' }

  predicate IsUpper(ch: char) { 'A' <= ch <= 'Z' }

  predicate IsDigit(ch: char) { '0' <= ch <= '9' }

  predicate IsSpace(ch: char) { ch == ' ' || '\t' <= ch <= '\r' }

  /** The classes by character codes. */
  lemma ClassesByCode(ch: char)
    ensures IsBlank(ch) <==> ch as int == 9 || ch as int == 32
    ensures IsUpper(ch) <==> 65 <= ch as int <= 90
    ensures IsDigit(ch) <==> 48 <= ch as int <= 57
    ensures IsSpace(ch) <==> 9 <= ch as int <= 13 || ch as int == 32
  {}
}
