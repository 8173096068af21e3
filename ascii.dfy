/**
  ASCII case folding: the only folding the client relies on.  `requests`
  keeps header names in a `CaseInsensitiveDict`, and strptime reads `%p`
  without regard to case; here both fold the 26 ASCII letters and nothing
  else.
*/
module Ascii {
  predicate IsUpper(c: char) { 'A' <= c <= 'Z' }

  /** `a` and `b` are the same character, or one ASCII letter in its two cases. */
  predicate SameUpToCase(a: char, b: char) {
    || a == b
    || (IsUpper(a) && b as int == a as int + 32)
    || (IsUpper(b) && a as int == b as int + 32)
  }

  /** `x` and `y` spell the same name up to ASCII case. */
  predicate CaseVariant(x: string, y: string) {
    |x| == |y| && forall i | 0 <= i < |x| :: SameUpToCase(x[i], y[i])
  }

  /** The lower-case form of a character: the same letter in lower case, never an upper-case letter. */
  function LowerChar(c: char): (r: char)
    ensures !IsUpper(r)
    ensures SameUpToCase(c, r)
  {
    if IsUpper(c) then (c as int + 32) as char else c
  }

  /** Folding a folded character changes nothing. */
  lemma LowerCharIdempotent(c: char)
    ensures LowerChar(LowerChar(c)) == LowerChar(c)
  {
  }

  /** Two characters fold alike exactly when they are the same up to case. */
  lemma LowerCharAgrees(a: char, b: char)
    ensures LowerChar(a) == LowerChar(b) <==> SameUpToCase(a, b)
  {
  }

  /** The ASCII-lower-cased name: the same name up to case, with no upper-case letter left. */
  function Lower(s: string): (r: string)
    ensures CaseVariant(s, r)
    ensures forall i | 0 <= i < |r| :: !IsUpper(r[i])
  {
    seq(|s|, i requires 0 <= i < |s| => LowerChar(s[i]))
  }

  /** The contract of `Lower` leaves no choice: it is the only case variant without upper-case letters. */
  lemma LowerIsUnique(s: string, r: string)
    requires CaseVariant(s, r)
    requires forall i | 0 <= i < |r| :: !IsUpper(r[i])
    ensures r == Lower(s)
  {
    forall i | 0 <= i < |s|
      ensures r[i] == Lower(s)[i]
    {
      assert SameUpToCase(s[i], r[i]);
    }
  }

  /** Lower-casing a lower-cased name changes nothing. */
  lemma LowerIdempotent(s: string)
    ensures Lower(Lower(s)) == Lower(s)
  {
    LowerIsUnique(Lower(s), Lower(s));
  }

  /** Two names fold to the same name exactly when they differ only in ASCII case. */
  lemma LowerAgrees(a: string, b: string)
    ensures Lower(a) == Lower(b) <==> CaseVariant(a, b)
  {
    if CaseVariant(a, b) {
      forall i | 0 <= i < |a|
        ensures Lower(a)[i] == Lower(b)[i]
      {
        LowerCharAgrees(a[i], b[i]);
      }
    }
    if Lower(a) == Lower(b) {
      forall i | 0 <= i < |a|
        ensures SameUpToCase(a[i], b[i])
      {
        LowerCharAgrees(a[i], b[i]);
      }
    }
  }
}
