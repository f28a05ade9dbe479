// What several of the models share.
module Basics {
  type byte = x: int | 0 <= x < 256

  datatype Option<+T> = None | Some(value: T)

  lemma Associates<T>(a: seq<T>, b: seq<T>, c: seq<T>)
    ensures (a + b) + c == a + (b + c)
  {
  }

  lemma OneMore(n: nat, size: nat)
    ensures (n + 1) * size == n * size + size
  {
  }

  lemma {:induction false} MoreIsMore(a: nat, b: nat, size: nat)
    requires a <= b
    ensures a * size <= b * size
  {
    if a < b {
      MoreIsMore(a, b - 1, size);
      OneMore(b - 1, size);
    }
  }
}
