/**
 * Name validation: Python's `str.isalpha()`, which decides whether a first or
 * last name is accepted (Assignment07.py, the `Person` setters and
 * `IO.input_student_data`).
 */
module Names {

  /**
   * Whether one character is alphabetic. Python consults the Unicode database;
   * this model classifies the ASCII letters as alphabetic and nothing else.
   * Every property below relies only on digits, spaces and punctuation not
   * being alphabetic, which holds under both readings.
   */
  predicate IsAlphaChar(c: char)
  {
    'A' <= c <= 'Z' || 'a' <= c <= 'z'
  }

  /**
   * `s.isalpha()`: at least one character, and every character alphabetic.
   * An accepted name is never empty and never contains the space that
   * separates words in the printed sentences.
   */
  predicate IsAlpha(s: string)
    ensures IsAlpha(s) ==> s != [] && ' ' !in s
  {
    |s| > 0 && forall i :: 0 <= i < |s| ==> IsAlphaChar(s[i])
  }

  /** `isalpha` rejects the empty string. */
  lemma EmptyNameRejected()
    ensures !IsAlpha([])
  {
  }

  /**
   * `isalpha` rejects any string holding a digit, a space or any other
   * printable ASCII character that is not a letter (punctuation and symbols).
   */
  lemma RejectedNames(s: string, i: nat)
    requires i < |s|
    ensures (s[i] == ' ' || '!' <= s[i] <= '@' || '[' <= s[i] <= '`' || '{' <= s[i] <= '~') ==> !IsAlpha(s)
  {
  }
}
