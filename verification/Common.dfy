/** Small shared datatypes. */
module Common {
  datatype Option<+T> = None | Some(value: T)

  /** One more than the greatest 64-bit number: addresses wrap around here. */
  const UINT64: nat := 0x1_0000_0000_0000_0000

  /** A C++ call that either returns or throws. */
  datatype Result<+T> = Ok(value: T) | Throw

  lemma {:induction false} SubsetSize<A>(xs: set<A>, ys: set<A>)
    requires xs <= ys
    ensures |xs| <= |ys|
  {
    if xs != {} {
      var x :| x in xs;
      SubsetSize(xs - {x}, ys - {x});
    }
  }
}
