/**
  256-bit EVM words, the word operations that the emitted code uses (Appendix H.2 of the
  Ethereum Yellow Paper), and congruence modulo the order of the BN254 scalar field.
 */
module Words {
  const WORD_SIZE: int := 0x1_0000_0000_0000_0000_0000_0000_0000_0000_0000_0000_0000_0000_0000_0000_0000_0000

  // The modulus called `r` by the verifier and `F` by the Poseidon2 generator.
  const R: int := 21888242871839275222246405745257275088548364400416034343698204186575808495617

  function Add(a: int, b: int): int {
    (a + b) % WORD_SIZE
  }

  function Sub(a: int, b: int): int {
    (a - b) % WORD_SIZE
  }

  function Reduce(a: int): int {
    a % R
  }

  // addmod and mulmod do not wrap in between: the sum and the product are exact.
  function AddMod(a: int, b: int): int {
    Reduce(a + b)
  }

  function MulMod(a: int, b: int): int {
    Reduce(a * b)
  }

  ghost predicate Cong(a: int, b: int) {
    a % R == b % R
  }

  // Five reduced values fit in a word, six need not.
  lemma FiveModuliFit()
    ensures 5 * R <= WORD_SIZE < 6 * R
  {
  }

  lemma ModOfShift(a: int, k: int, m: int)
    requires m > 0
    ensures (a + k * m) % m == a % m
  {
    var q := (a + k * m) / m;
    var d := q - k - a / m;
    assert (a + k * m) % m - a % m == -d * m by {
      assert (a + k * m) == q * m + (a + k * m) % m;
      assert a == (a / m) * m + a % m;
      assert d * m == q * m - k * m - (a / m) * m;
    }
    MultipleWithin(-d, m, (a + k * m) % m - a % m);
  }

  lemma MultipleWithin(d: int, m: int, x: int)
    requires m > 0 && x == d * m && -m < x < m
    ensures d == 0 && x == 0
  {
    assert d >= 1 ==> d * m >= m;
    assert d <= -1 ==> d * m <= -m;
  }

  lemma SmallMod(a: int, m: int)
    requires 0 <= a < m
    ensures a % m == a
  {
  }

  lemma CongReduce(a: int)
    ensures Cong(a % R, a)
    ensures 0 <= a % R < R
  {
  }

  lemma CongAdd(a: int, a': int, b: int, b': int)
    requires Cong(a, a') && Cong(b, b')
    ensures Cong(a + b, a' + b')
  {
    var i, j := a / R - a' / R, b / R - b' / R;
    assert a + b == a' + b' + (i + j) * R;
    ModOfShift(a' + b', i + j, R);
  }

  lemma CongNeg(a: int, a': int)
    requires Cong(a, a')
    ensures Cong(-a, -a') && Cong(R - a, -a')
  {
    var i := a' / R - a / R;
    assert -a == -a' + i * R;
    assert R - a == -a' + (i + 1) * R;
    ModOfShift(-a', i, R);
    ModOfShift(-a', i + 1, R);
  }

  lemma CongMul(a: int, a': int, b: int, b': int)
    requires Cong(a, a') && Cong(b, b')
    ensures Cong(a * b, a' * b')
  {
    MulShift(a, a', b, R);
    MulShift(b, b', a', R);
    assert a' * b == b * a' && b' * a' == a' * b';
  }

  lemma MulShift(a: int, a': int, b: int, m: int)
    requires m > 0 && a % m == a' % m
    ensures (a * b) % m == (a' * b) % m
  {
    var i := a / m - a' / m;
    assert a == a' + i * m by {
      assert a == (a / m) * m + a % m;
      assert a' == (a' / m) * m + a' % m;
      assert i * m == (a / m) * m - (a' / m) * m;
    }
    assert a * b == a' * b + (i * b) * m by {
      assert (a' + i * m) * b == a' * b + (i * m) * b;
      assert (i * m) * b == (i * b) * m;
    }
    ModOfShift(a' * b, i * b, m);
  }

  // The word operations are the ring operations up to congruence, and stay canonical.
  lemma AddModCong(a: int, a': int, b: int, b': int)
    requires Cong(a, a') && Cong(b, b')
    ensures Cong(AddMod(a, b), a' + b') && 0 <= AddMod(a, b) < R
  {
    CongAdd(a, a', b, b');
    CongReduce(a + b);
  }

  lemma MulModCong(a: int, a': int, b: int, b': int)
    requires Cong(a, a') && Cong(b, b')
    ensures Cong(MulMod(a, b), a' * b') && 0 <= MulMod(a, b) < R
  {
    CongMul(a, a', b, b');
    CongReduce(a * b);
  }

  // sub(r, v) is exact for v <= r. It is the non-canonical r itself when v is zero.
  lemma SubCong(a: int, a': int)
    requires 0 <= a <= R && Cong(a, a')
    ensures Cong(Sub(R, a), -a') && 0 <= Sub(R, a) <= R
  {
    SmallMod(R - a, WORD_SIZE);
    CongNeg(a, a');
  }
}
