/** Result types and small notions shared by the models. */
module Common {
  /** The number of 64-bit words. */
  const WORD: nat := 0x1_0000_0000_0000_0000

  datatype Option<+T> = None | Some(value: T)

  /** Error stands for a Go `error` return; the models never look inside it. */
  datatype Result<+T> = Ok(value: T) | Error

  ghost predicate NoRepeats<T>(s: seq<T>) {
    forall i, j | 0 <= i < j < |s| :: s[i] != s[j]
  }

  lemma SubsetSize<T>(a: set<T>, b: set<T>)
    requires a <= b
    ensures |a| <= |b|
    ensures |a| == |b| ==> a == b
  {
    assert b == a + (b - a);
  }
}
