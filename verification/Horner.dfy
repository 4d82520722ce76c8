/** Horner's rule, as the verifier uses it to combine constraints with powers of `y` and
    lookup expressions with powers of `theta`. */
module Horner {
  function Pow(b: int, n: nat): int {
    if n == 0 then 1 else Pow(b, n - 1) * b
  }

  // The loop form: one multiplication and one addition per value.
  function Fold(acc: int, values: seq<int>, y: int): int
    decreases values
  {
    if values == [] then acc else Fold(acc * y + values[0], values[1..], y)
  }

  // The sum form: values[i] is weighted with y^(n - 1 - i).
  function PowerSum(values: seq<int>, y: int): int {
    if values == [] then 0 else values[0] * Pow(y, |values| - 1) + PowerSum(values[1..], y)
  }

  lemma {:induction false} FoldIsPowerSum(acc: int, values: seq<int>, y: int)
    ensures Fold(acc, values, y) == acc * Pow(y, |values|) + PowerSum(values, y)
    decreases values
  {
    if values != [] {
      var n := |values| - 1;
      FoldIsPowerSum(acc * y + values[0], values[1..], y);
      assert (acc * y + values[0]) * Pow(y, n) == acc * (Pow(y, n) * y) + values[0] * Pow(y, n) by {
        Distribute(acc, y, values[0], Pow(y, n));
      }
    }
  }

  lemma Distribute(a: int, y: int, v: int, p: int)
    ensures (a * y + v) * p == a * (p * y) + v * p
  {
    assert (a * y) * p == a * (p * y);
  }

  lemma {:induction false} FoldSnoc(acc: int, values: seq<int>, v: int, y: int)
    ensures Fold(acc, values + [v], y) == Fold(acc, values, y) * y + v
    decreases values
  {
    if values == [] {
      assert [v][1..] == [];
      assert values + [v] == [v];
    } else {
      assert (values + [v])[1..] == values[1..] + [v];
      FoldSnoc(acc * y + values[0], values[1..], v, y);
    }
  }
}
