/** Types and constants shared by the models. */
module Common {

  datatype Option<T> = None | Some(value: T)

  /** The largest 64-bit int. */
  const INT_MAX: int := 0x7FFF_FFFF_FFFF_FFFF

  /** There is always an identifier that is not in use. */
  lemma {:induction false} FreshId(used: set<nat>) returns (id: nat)
    ensures id !in used && forall u :: u in used ==> u < id
  {
    if used == {} {
      id := 0;
    } else {
      var u :| u in used;
      var v := FreshId(used - {u});
      id := if u < v then v else u + 1;
      assert forall w :: w in used ==> w == u || w in used - {u};
    }
  }
}
