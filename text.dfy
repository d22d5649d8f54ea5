/**
 * `String.prototype.toLowerCase`, which the store uses to compare slugs and
 * e-mail addresses without regard to case. Only the ASCII letters are mapped.
 */
module Text {

  function LowerChar(c: char): char {
    if 'A' <= c <= 'Z' then (c as int - 'A' as int + 'a' as int) as char else c
  }

  /**
   * `s.toLowerCase()`: the same length, no capital letter left, every
   * capital replaced by its small letter, and every other character kept.
   */
  function Lower(s: string): (r: string)
    ensures |r| == |s|
    ensures forall i :: 0 <= i < |r| ==> !('A' <= r[i] <= 'Z')
    ensures forall i :: 0 <= i < |s| && 'A' <= s[i] <= 'Z' ==> r[i] as int == s[i] as int + 32
    ensures forall i :: 0 <= i < |s| && !('A' <= s[i] <= 'Z') ==> r[i] == s[i]
  {
    seq(|s|, i requires 0 <= i < |s| => LowerChar(s[i]))
  }

  /** `a.toLowerCase() === b.toLowerCase()`: only strings of the same length compare equal. */
  predicate SameIgnoringCase(a: string, b: string)
    ensures SameIgnoringCase(a, b) ==> |a| == |b|
  {
    Lower(a) == Lower(b)
  }

  /** Strings of different lengths never compare equal ignoring case. */
  lemma DifferentLengthsDiffer(a: string, b: string)
    requires |a| != |b|
    ensures !SameIgnoringCase(a, b)
  {
  }
}
