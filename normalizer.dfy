/**
 * The phone normaliser: a candidate is accepted when its decimal text has
 * at least ten characters, and it is stored as its last ten characters.
 */
module Normalizer {
  import opened Tables

  /** `len(str(number)) >= 10` */
  predicate Accepted(s: string) {
    |s| >= NUMBER_LENGTH
  }

  /** `s[-10:]`: the last ten characters, or all of `s` when it is shorter. */
  function Last10(s: string): (r: string)
    ensures |r| == if |s| < NUMBER_LENGTH then |s| else NUMBER_LENGTH
    ensures r == s[|s| - |r|..]
  {
    if |s| <= NUMBER_LENGTH then s else s[|s| - NUMBER_LENGTH..]
  }

  /** The stored form of each candidate, in order. */
  function Normalized(xs: seq<string>): (r: seq<string>)
    ensures |r| == |xs|
    ensures forall k | 0 <= k < |xs| :: r[k] == Last10(xs[k])
  {
    seq(|xs|, k requires 0 <= k < |xs| => Last10(xs[k]))
  }

  /** An accepted candidate is stored in the form the CHECK constraint admits. */
  lemma StoredFormFits(s: string)
    requires Accepted(s)
    ensures |Last10(s)| == NUMBER_LENGTH && Accepted(Last10(s))
  {
  }

  /** Normalising twice is normalising once; a ten-character text is its own stored form. */
  lemma Last10Idempotent(s: string)
    ensures Last10(Last10(s)) == Last10(s)
    ensures |s| == NUMBER_LENGTH ==> Last10(s) == s
  {
  }

  /** A twelve-digit candidate loses its first two digits. */
  lemma Last10OfTwelve()
    ensures Last10("799912345670") == "9912345670"
  {
  }

  /**
   * Storing a batch of accepted candidates: every stored form has the
   * length the CHECK constraint demands and is accepted again, and storing
   * the stored forms changes nothing.
   */
  lemma NormalizedFits(xs: seq<string>)
    requires forall s | s in xs :: Accepted(s)
    ensures forall n | n in Normalized(xs) :: |n| == NUMBER_LENGTH && Accepted(n)
    ensures Normalized(Normalized(xs)) == Normalized(xs)
  {
    forall n | n in Normalized(xs) ensures |n| == NUMBER_LENGTH {
      var k :| 0 <= k < |Normalized(xs)| && Normalized(xs)[k] == n;
      assert xs[k] in xs;
    }
    forall k | 0 <= k < |xs| ensures Normalized(Normalized(xs))[k] == Normalized(xs)[k] {
      Last10Idempotent(xs[k]);
    }
  }
}
