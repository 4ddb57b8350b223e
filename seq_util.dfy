/** Facts about sequences shared by the loop proofs of every module. */
module SeqUtil {

  /** Regrouping a concatenation; used where a loop appends to a sequence
      whose remainder is described by a specification function. */
  lemma AppendAssociates<T>(a: seq<T>, b: seq<T>, c: seq<T>)
    ensures (a + b) + c == a + (b + c)
  {
  }
}
