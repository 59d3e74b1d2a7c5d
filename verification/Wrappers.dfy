// Small helper types shared by the models.
module Wrappers {
  datatype Option<+T> = None | Some(value: T)

  datatype Result<+T, +E> = Ok(value: T) | Err(error: E)

  // A truth value as a number, for counting.
  function B(b: bool): nat { if b then 1 else 0 }

  // max(0, n)
  function Max0(n: int): nat { if n < 0 then 0 else n }

  lemma SubsetSize<T>(a: set<T>, b: set<T>)
    requires a <= b
    ensures |a| <= |b|
  {
    assert b == a + (b - a);
  }
}
