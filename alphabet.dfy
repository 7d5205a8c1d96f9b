/**
 * The 26-letter alphabet in the C locale: `isalpha` after `tolower` accepts
 * exactly 'a'..'z', and a letter `c` indexes the tables at `c - 'a'`.
 */
module Alphabet {

  /** The character 0, which the counting loop uses for "no letter yet". */
  const NUL: char := '\0'

  predicate IsLetter(c: char) {
    'a' <= c <= 'z'
  }

  predicate IsUpper(c: char) {
    'A' <= c <= 'Z'
  }

  /** C-locale `tolower`. */
  function ToLower(c: char): (r: char)
    ensures IsUpper(c) ==> IsLetter(r)
    ensures !IsUpper(c) ==> r == c
  {
    if IsUpper(c) then (c as int + 32) as char else c
  }

  /** C-locale `toupper`. */
  function ToUpper(c: char): (r: char)
    ensures IsLetter(c) ==> IsUpper(r)
    ensures !IsLetter(c) ==> r == c
  {
    if IsLetter(c) then (c as int - 32) as char else c
  }

  /** `c - 'a'`, the table index of a letter. */
  function Ix(c: char): (i: int)
    requires IsLetter(c)
    ensures 0 <= i < 26
  {
    c as int - 'a' as int
  }

  /** `(char)i + 'a'`, the letter of a table index. */
  function LetterOf(i: int): (c: char)
    requires 0 <= i < 26
    ensures IsLetter(c) && Ix(c) == i
  {
    ('a' as int + i) as char
  }

  /** The row of the two-letter tables `xxc` and `xxC` for the context `[x][y]`. */
  function Pair(x: char, y: char): (r: int)
    requires IsLetter(x) && IsLetter(y)
    ensures 0 <= r < 676
  {
    26 * Ix(x) + Ix(y)
  }

  /** A word: a run of lower-case letters. */
  ghost predicate IsWord(w: seq<char>) {
    forall i | 0 <= i < |w| :: IsLetter(w[i])
  }
}
