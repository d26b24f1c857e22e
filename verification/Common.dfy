/** What several modules share. */
module Common {

  datatype Option<T> = None | Some(value: T)

  /** Multiplying by a natural number keeps the order. */
  lemma {:induction false} MulLe(a: int, b: int, c: nat)
    requires a <= b
    ensures a * c <= b * c
  {
  }
}
