/**
 What several modules share.
 */
module Common {
  datatype Option<+T> = None | Some(value: T)

  lemma {:induction false} SubsetSize<T>(A: set<T>, B: set<T>)
    requires A <= B
    ensures |A| <= |B|
  {
    if A != {} {
      var x :| x in A;
      SubsetSize(A - {x}, B - {x});
    }
  }
}
