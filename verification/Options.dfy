/** What several of the models share. */
module Options {
  /** A pointer that may be NULL, or a call that may find nothing. */
  datatype Option<+T> = None | Some(value: T)

  /** Keeps the verifier from checking a conjunction part by part wherever it is required. */
  predicate AsOne(b: bool) {
    b == true
  }

  /** What a change between lo and hi leaves as it was. */
  lemma SlicesSame<T>(before: seq<T>, after: seq<T>, lo: nat, hi: nat)
    requires lo <= hi <= |before| == |after| && after[..lo] == before[..lo] && after[hi..] == before[hi..]
    ensures forall c :: 0 <= c < |after| && (c < lo || c >= hi) ==> after[c] == before[c]
  {
    forall c | 0 <= c < |after| && (c < lo || c >= hi) ensures after[c] == before[c] {
      if c < lo {
        assert after[..lo][c] == before[..lo][c];
      } else {
        assert after[hi..][c - hi] == before[hi..][c - hi];
      }
    }
  }
}
