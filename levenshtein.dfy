/**
 * Levenshtein edit distance: the least number of single-character insertions,
 * deletions and substitutions that turn one string into the other. It stands
 * for the distance computed by the Levenshtein C library.
 */
module Levenshtein {

  function Min3(x: nat, y: nat, z: nat): nat {
    if x <= y && x <= z then x else if y <= z then y else z
  }

  function Max(x: nat, y: nat): nat {
    if x <= y then y else x
  }

  /**
   * The distance, defined on the first characters: substitute (or keep) the
   * first character of both, delete the first character of `a`, or insert the
   * first character of `b`. It lies between the difference and the larger of
   * the two lengths.
   */
  function EditDistance(a: string, b: string): (d: nat)
    ensures d <= Max(|a|, |b|)
    ensures |a| - |b| <= d && |b| - |a| <= d
    decreases |a| + |b|
  {
    if |a| == 0 then |b|
    else if |b| == 0 then |a|
    else
      var substitute := EditDistance(a[1..], b[1..]) + (if a[0] == b[0] then 0 else 1);
      var delete := EditDistance(a[1..], b) + 1;
      var insert := EditDistance(a, b[1..]) + 1;
      Min3(substitute, delete, insert)
  }

  /** The distance does not depend on the order of its arguments. */
  lemma {:induction false} EditDistanceSymmetric(a: string, b: string)
    ensures EditDistance(a, b) == EditDistance(b, a)
    decreases |a| + |b|
  {
    if |a| != 0 && |b| != 0 {
      EditDistanceSymmetric(a[1..], b[1..]);
      EditDistanceSymmetric(a[1..], b);
      EditDistanceSymmetric(a, b[1..]);
    }
  }

  /** The distance is zero exactly when the two strings are equal. */
  lemma {:induction false} EditDistanceZeroIff(a: string, b: string)
    ensures EditDistance(a, b) == 0 <==> a == b
    decreases |a| + |b|
  {
    if |a| != 0 && |b| != 0 {
      EditDistanceZeroIff(a[1..], b[1..]);
      if a == b {
        assert a[1..] == b[1..];
      }
    }
  }
}
