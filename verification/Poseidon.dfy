/**
  The Poseidon2 permutation over eight field elements, and the 256-bit memory program that
  the generator prints for it: bare `add` instead of `addmod` where a word has room, in-place
  matrix multiplication, scratch slots, and an argument copy with overlapping slots.
 */
module Poseidon {
  import opened Words
  import opened Horner

  // -------- the permutation --------

  const T: nat := 8
  const ALPHA: nat := 7
  const ROUNDS_F: nat := 8
  const ROUNDS_P: nat := 48
  const ROUNDS: nat := ROUNDS_F + ROUNDS_P

  // The last element of the initial state.
  const CAPACITY: int := 129127208515966861312

  const M: seq<seq<int>> := [
    [10, 14, 2, 6, 5, 7, 1, 3],
    [8, 12, 2, 2, 4, 6, 1, 1],
    [2, 6, 10, 14, 1, 3, 5, 7],
    [2, 2, 8, 12, 1, 1, 4, 6],
    [5, 7, 1, 3, 10, 14, 2, 6],
    [4, 6, 1, 1, 8, 12, 2, 2],
    [1, 3, 5, 7, 2, 6, 10, 14],
    [1, 1, 4, 6, 2, 2, 8, 12]]

  // The round constants C and the diagonal D of the internal matrix.
  datatype Constants = Constants(c: seq<int>, d: seq<int>)

  // Reduced constants, and in partial rounds a constant for the first element only.
  ghost predicate ValidConstants(k: Constants) {
    && |k.c| == T * ROUNDS && |k.d| == T
    && (forall i :: 0 <= i < |k.c| ==> 0 <= k.c[i] < R)
    && (forall i :: 0 <= i < T ==> 0 <= k.d[i] < R)
    && (forall j :: T * 4 <= j < T * 52 && j % T != 0 ==> k.c[j] == 0)
  }

  ghost predicate Reduced(s: seq<int>) {
    |s| == T && forall i :: 0 <= i < T ==> 0 <= s[i] < R
  }

  ghost function Dot(a: seq<int>, b: seq<int>): int
    requires |a| == T && |b| == T
  {
    a[0] * b[0] + a[1] * b[1] + a[2] * b[2] + a[3] * b[3] + a[4] * b[4] + a[5] * b[5] + a[6] * b[6] + a[7] * b[7]
  }

  ghost function Total(a: seq<int>): int
    requires |a| == T
  {
    a[0] + a[1] + a[2] + a[3] + a[4] + a[5] + a[6] + a[7]
  }

  ghost function Row(i: nat, s: seq<int>): int
    requires i < T && |s| == T
  {
    Reduce(Dot(M[i], s))
  }

  ghost function External(s: seq<int>): (t: seq<int>)
    requires |s| == T
    ensures |t| == T
  {
    [Row(0, s), Row(1, s), Row(2, s), Row(3, s), Row(4, s), Row(5, s), Row(6, s), Row(7, s)]
  }

  ghost function Internal(s: seq<int>, d: seq<int>): (t: seq<int>)
    requires |s| == T && |d| == T
    ensures |t| == T
  {
    var sum := Total(s);
    [Reduce(d[0] * s[0] + sum), Reduce(d[1] * s[1] + sum), Reduce(d[2] * s[2] + sum), Reduce(d[3] * s[3] + sum),
     Reduce(d[4] * s[4] + sum), Reduce(d[5] * s[5] + sum), Reduce(d[6] * s[6] + sum), Reduce(d[7] * s[7] + sum)]
  }

  ghost function SBox(x: int): int {
    Reduce(Pow(x, ALPHA))
  }

  ghost function SBoxes(s: seq<int>): (t: seq<int>)
    requires |s| == T
    ensures |t| == T
  {
    [SBox(s[0]), SBox(s[1]), SBox(s[2]), SBox(s[3]), SBox(s[4]), SBox(s[5]), SBox(s[6]), SBox(s[7])]
  }

  ghost function AddConstants(s: seq<int>, c: seq<int>): (t: seq<int>)
    requires |s| == T && |c| == T
    ensures |t| == T
  {
    [Reduce(s[0] + c[0]), Reduce(s[1] + c[1]), Reduce(s[2] + c[2]), Reduce(s[3] + c[3]),
     Reduce(s[4] + c[4]), Reduce(s[5] + c[5]), Reduce(s[6] + c[6]), Reduce(s[7] + c[7])]
  }

  ghost predicate IsFull(r: nat) {
    r < ROUNDS_F / 2 || r >= ROUNDS_F / 2 + ROUNDS_P
  }

  // Every round adds its eight constants. A full round applies the S-box to all elements and
  // then the external matrix, a partial round applies it to the first element and then the
  // internal matrix.
  ghost function Round(s: seq<int>, r: nat, k: Constants): (t: seq<int>)
    requires |s| == T && ValidConstants(k) && r < ROUNDS
    ensures |t| == T
  {
    var x := AddConstants(s, k.c[T * r..T * r + T]);
    if IsFull(r) then External(SBoxes(x))
    else Internal(x[0 := SBox(x[0])], k.d)
  }

  // The state before round r.
  ghost function Before(s: seq<int>, r: nat, k: Constants): (t: seq<int>)
    requires |s| == T && ValidConstants(k) && r <= ROUNDS
    ensures |t| == T
  {
    if r == 0 then External(s) else Round(Before(s, r - 1, k), r - 1, k)
  }

  ghost function Permutation(s: seq<int>, k: Constants): (t: seq<int>)
    requires |s| == T && ValidConstants(k)
    ensures |t| == T
  {
    Before(s, ROUNDS, k)
  }

  // -------- memory --------

  // Word i of memory is at address 32 * i. The state is at 0x00, 0x20, 0x80 .. 0x120, the
  // swap slots start at 0x140, and the arguments are at 0x80 .. 0x140.
  const SWP: nat := 10
  const ARG: nat := 4
  const WORDS: nat := 18

  ghost function StateIn(mem: array<int>): (s: seq<int>)
    requires mem.Length == WORDS
    reads mem
    ensures |s| == T
  {
    [mem[0], mem[1], mem[4], mem[5], mem[6], mem[7], mem[8], mem[9]]
  }

  // `add` without reduction. Its precondition says that the word does not wrap.
  function LazyAdd(a: int, b: int): (s: int)
    requires 0 <= a && 0 <= b && a + b < WORD_SIZE
    ensures s == a + b
  {
    SmallMod(a + b, WORD_SIZE);
    Add(a, b)
  }

  ghost predicate Small(x: int) {
    0 <= x < R
  }

  ghost predicate SlotsReduced(mem: array<int>)
    requires mem.Length == WORDS
    reads mem
  {
    && Small(mem[0]) && Small(mem[1]) && Small(mem[4]) && Small(mem[5])
    && Small(mem[6]) && Small(mem[7]) && Small(mem[8]) && Small(mem[9])
  }

  lemma SlotsOfState(mem: array<int>)
    requires mem.Length == WORDS
    ensures SlotsReduced(mem) <==> Reduced(StateIn(mem))
  {
    var s := StateIn(mem);
    assert s[0] == mem[0] && s[1] == mem[1] && s[2] == mem[4] && s[3] == mem[5];
    assert s[4] == mem[6] && s[5] == mem[7] && s[6] == mem[8] && s[7] == mem[9];
  }

  // -------- the printed functions --------

  method Sum(mem: array<int>)
    requires mem.Length == WORDS && SlotsReduced(mem)
    modifies mem
    ensures mem[SWP] == Reduce(Total(old(StateIn(mem))))
    ensures forall i :: 0 <= i < WORDS && i != SWP ==> mem[i] == old(mem[i])
  {
    FiveModuliFit();
    ghost var s := StateIn(mem);
    var five := LazyAdd(mem[0], LazyAdd(mem[1], LazyAdd(mem[4], LazyAdd(mem[5], mem[6]))));
    var six := AddMod(five, mem[7]);
    mem[SWP] := AddMod(LazyAdd(six, mem[8]), mem[9]);
    SumIsTotal(s);
  }

  lemma SumIsTotal(s: seq<int>)
    requires |s| == T
    ensures AddMod(AddMod(s[0] + (s[1] + (s[2] + (s[3] + s[4]))), s[5]) + s[6], s[7]) == Reduce(Total(s))
  {
    var six := s[0] + (s[1] + (s[2] + (s[3] + s[4]))) + s[5];
    CongReduce(six);
    CongAdd(six % R, six, s[6] + s[7], s[6] + s[7]);
  }

  function Mix0(a: int, b: int, c: int, d: int): int {
    5 * a + 7 * b + c + 3 * d
  }

  function Mix1(a: int, b: int, c: int, d: int): int {
    4 * a + 6 * b + c + d
  }

  // Two rows of the 4 by 4 matrix that M is built from, as the program computes them.
  lemma MixRow(a: int, b: int, c: int, d: int)
    ensures var t0, t1 := a + b, c + d;
            var t2, t3 := b + (b + t1), d + (d + t0);
            var t5 := AddMod(AddMod(t0 + t0, t0 + t0), t2);
            t5 == Reduce(Mix1(a, b, c, d)) && AddMod(t3, t5) == Reduce(Mix0(a, b, c, d))
  {
    var t0, t1 := a + b, c + d;
    var t2, t3 := b + (b + t1), d + (d + t0);
    CongReduce(4 * t0);
    CongAdd((4 * t0) % R, 4 * t0, t2, t2);
    CongReduce((4 * t0) % R + t2);
    CongAdd(t3, t3, ((4 * t0) % R + t2) % R, 4 * t0 + t2);
  }

  // Multiplication of four slots, in place.
  method Mm4(mem: array<int>, a: nat, b: nat, c: nat, d: nat)
    requires a < b < c < d < mem.Length
    requires Small(mem[a]) && Small(mem[b]) && Small(mem[c]) && Small(mem[d])
    modifies mem
    ensures mem[a] == Reduce(Mix0(old(mem[a]), old(mem[b]), old(mem[c]), old(mem[d])))
    ensures mem[b] == Reduce(Mix1(old(mem[a]), old(mem[b]), old(mem[c]), old(mem[d])))
    ensures mem[c] == Reduce(Mix0(old(mem[c]), old(mem[d]), old(mem[a]), old(mem[b])))
    ensures mem[d] == Reduce(Mix1(old(mem[c]), old(mem[d]), old(mem[a]), old(mem[b])))
    ensures forall i :: 0 <= i < mem.Length && i != a && i != b && i != c && i != d ==> mem[i] == old(mem[i])
  {
    FiveModuliFit();
    hide AddMod, Mix0, Mix1, Reduce;
    var t0 := LazyAdd(mem[a], mem[b]);
    var t1 := LazyAdd(mem[c], mem[d]);
    var t2 := LazyAdd(mem[b], LazyAdd(mem[b], t1));
    var t3 := LazyAdd(mem[d], LazyAdd(mem[d], t0));
    var t4 := LazyAdd(t1, t1);
    t4 := AddMod(t4, t4);
    t4 := AddMod(t4, t3);
    var t5 := LazyAdd(t0, t0);
    t5 := AddMod(t5, t5);
    t5 := AddMod(t5, t2);
    MixRow(mem[a], mem[b], mem[c], mem[d]);
    MixRow(mem[c], mem[d], mem[a], mem[b]);
    mem[a] := AddMod(t3, t5);
    mem[b] := t5;
    mem[c] := AddMod(t2, t4);
    mem[d] := t4;
  }

  // A slot plus the unreduced sum of itself and its partner.
  function WithSum(a: int, b: int): int {
    AddMod(a, a + b)
  }

  lemma WithSumOfReduced(x: int, y: int)
    ensures Small(Reduce(x)) && Small(Reduce(y))
    ensures WithSum(Reduce(x), Reduce(y)) == Reduce(2 * x + y)
    ensures WithSum(Reduce(y), Reduce(x)) == Reduce(2 * y + x)
  {
    CongReduce(x);
    CongReduce(y);
    CongAdd(x % R, x, y % R, y);
    CongAdd(x % R, x, x % R + y % R, x + y);
    CongAdd(y % R, y, x % R + y % R, x + y);
  }

  // The second half of fr_mm: every slot plus the sum of the two halves.
  method AddHalves(mem: array<int>)
    requires mem.Length == WORDS && SlotsReduced(mem)
    modifies mem
    ensures mem[0] == WithSum(old(mem[0]), old(mem[6])) && mem[6] == WithSum(old(mem[6]), old(mem[0]))
    ensures mem[1] == WithSum(old(mem[1]), old(mem[7])) && mem[7] == WithSum(old(mem[7]), old(mem[1]))
    ensures mem[4] == WithSum(old(mem[4]), old(mem[8])) && mem[8] == WithSum(old(mem[8]), old(mem[4]))
    ensures mem[5] == WithSum(old(mem[5]), old(mem[9])) && mem[9] == WithSum(old(mem[9]), old(mem[5]))
  {
    FiveModuliFit();
    hide AddMod;
    mem[SWP] := LazyAdd(mem[0], mem[6]);
    mem[SWP + 1] := LazyAdd(mem[1], mem[7]);
    mem[SWP + 2] := LazyAdd(mem[4], mem[8]);
    mem[SWP + 3] := LazyAdd(mem[5], mem[9]);
    mem[0] := AddMod(mem[0], mem[SWP]);
    mem[1] := AddMod(mem[1], mem[SWP + 1]);
    mem[4] := AddMod(mem[4], mem[SWP + 2]);
    mem[5] := AddMod(mem[5], mem[SWP + 3]);
    mem[6] := AddMod(mem[6], mem[SWP]);
    mem[7] := AddMod(mem[7], mem[SWP + 1]);
    mem[8] := AddMod(mem[8], mem[SWP + 2]);
    mem[9] := AddMod(mem[9], mem[SWP + 3]);
  }

  // The state after the two 4 by 4 multiplications.
  ghost function Mixed(s: seq<int>): (t: seq<int>)
    requires |s| == T
    ensures |t| == T
  {
    [Reduce(Mix0(s[0], s[1], s[2], s[3])), Reduce(Mix1(s[0], s[1], s[2], s[3])),
     Reduce(Mix0(s[2], s[3], s[0], s[1])), Reduce(Mix1(s[2], s[3], s[0], s[1])),
     Reduce(Mix0(s[4], s[5], s[6], s[7])), Reduce(Mix1(s[4], s[5], s[6], s[7])),
     Reduce(Mix0(s[6], s[7], s[4], s[5])), Reduce(Mix1(s[6], s[7], s[4], s[5]))]
  }

  lemma MixedHalves(s: seq<int>)
    requires |s| == T
    ensures var x := Mixed(s);
            && Reduced(x)
            && WithSum(x[0], x[4]) == Row(0, s) && WithSum(x[4], x[0]) == Row(4, s)
            && WithSum(x[1], x[5]) == Row(1, s) && WithSum(x[5], x[1]) == Row(5, s)
            && WithSum(x[2], x[6]) == Row(2, s) && WithSum(x[6], x[2]) == Row(6, s)
            && WithSum(x[3], x[7]) == Row(3, s) && WithSum(x[7], x[3]) == Row(7, s)
  {
    hide WithSum, Mix0, Mix1, Row, Reduce;
    WithSumOfReduced(Mix0(s[0], s[1], s[2], s[3]), Mix0(s[4], s[5], s[6], s[7]));
    WithSumOfReduced(Mix1(s[0], s[1], s[2], s[3]), Mix1(s[4], s[5], s[6], s[7]));
    WithSumOfReduced(Mix0(s[2], s[3], s[0], s[1]), Mix0(s[6], s[7], s[4], s[5]));
    WithSumOfReduced(Mix1(s[2], s[3], s[0], s[1]), Mix1(s[6], s[7], s[4], s[5]));
    UpperRows(s);
    LowerRows(s);
  }

  // The first half of fr_mm.
  method MixHalves(mem: array<int>)
    requires mem.Length == WORDS && SlotsReduced(mem)
    modifies mem
    ensures StateIn(mem) == Mixed(old(StateIn(mem))) && SlotsReduced(mem)
  {
    ghost var s := StateIn(mem);
    hide Mix0, Mix1, Reduce;
    Mm4(mem, 0, 1, 4, 5);
    Mm4(mem, 6, 7, 8, 9);
    assert StateIn(mem) == Mixed(s);
    hide Mixed;
    MixedHalves(s);
    SlotsOfState(mem);
  }

  method FrMm(mem: array<int>)
    requires mem.Length == WORDS && SlotsReduced(mem)
    modifies mem
    ensures StateIn(mem) == External(old(StateIn(mem))) && SlotsReduced(mem)
  {
    ghost var s := StateIn(mem);
    hide WithSum, Mixed, Row, Reduce;
    MixHalves(mem);
    AddHalves(mem);
    MixedHalves(s);
    ExternalReduced(s);
    assert StateIn(mem) == External(s);
    SlotsOfState(mem);
  }

  lemma ExternalReduced(s: seq<int>)
    requires |s| == T
    ensures Reduced(External(s))
  {
  }

  // The 8 by 8 matrix is two copies of the 4 by 4 one, doubled on the diagonal blocks.
  lemma UpperRows(s: seq<int>)
    requires |s| == T
    ensures Row(0, s) == Reduce(2 * Mix0(s[0], s[1], s[2], s[3]) + Mix0(s[4], s[5], s[6], s[7]))
    ensures Row(1, s) == Reduce(2 * Mix1(s[0], s[1], s[2], s[3]) + Mix1(s[4], s[5], s[6], s[7]))
    ensures Row(2, s) == Reduce(2 * Mix0(s[2], s[3], s[0], s[1]) + Mix0(s[6], s[7], s[4], s[5]))
    ensures Row(3, s) == Reduce(2 * Mix1(s[2], s[3], s[0], s[1]) + Mix1(s[6], s[7], s[4], s[5]))
  {
    hide Reduce;
    assert M[0] == [10, 14, 2, 6, 5, 7, 1, 3];
    assert M[1] == [8, 12, 2, 2, 4, 6, 1, 1];
    assert M[2] == [2, 6, 10, 14, 1, 3, 5, 7];
    assert M[3] == [2, 2, 8, 12, 1, 1, 4, 6];
  }

  lemma LowerRows(s: seq<int>)
    requires |s| == T
    ensures Row(4, s) == Reduce(2 * Mix0(s[4], s[5], s[6], s[7]) + Mix0(s[0], s[1], s[2], s[3]))
    ensures Row(5, s) == Reduce(2 * Mix1(s[4], s[5], s[6], s[7]) + Mix1(s[0], s[1], s[2], s[3]))
    ensures Row(6, s) == Reduce(2 * Mix0(s[6], s[7], s[4], s[5]) + Mix0(s[2], s[3], s[0], s[1]))
    ensures Row(7, s) == Reduce(2 * Mix1(s[6], s[7], s[4], s[5]) + Mix1(s[2], s[3], s[0], s[1]))
  {
    hide Reduce;
    assert M[4] == [5, 7, 1, 3, 10, 14, 2, 6];
    assert M[5] == [4, 6, 1, 1, 8, 12, 2, 2];
    assert M[6] == [1, 3, 5, 7, 2, 6, 10, 14];
    assert M[7] == [1, 1, 4, 6, 2, 2, 8, 12];
  }

  // -------- the rounds --------

  // pow7_store: x^7 by two squarings and two multiplications.
  function Pow7(x: int): int {
    var x2 := MulMod(x, x);
    var x4 := MulMod(x2, x2);
    MulMod(MulMod(x4, x2), x)
  }

  lemma Pow7IsSBox(x: int)
    ensures Pow7(x) == SBox(x) && Small(Pow7(x))
  {
    var x2 := MulMod(x, x);
    var x4 := MulMod(x2, x2);
    MulModCong(x, x, x, x);
    MulModCong(x2, x * x, x2, x * x);
    MulModCong(x4, (x * x) * (x * x), x2, x * x);
    MulModCong(MulMod(x4, x2), (x * x) * (x * x) * (x * x), x, x);
    Power7(x);
    CongReduce(Pow(x, 7));
    CongReduce(MulMod(x4, x2) * x);
  }

  lemma Power7(x: int)
    ensures Pow(x, 7) == (x * x) * (x * x) * (x * x) * x
  {
    assert Pow(x, 1) == x;
    assert Pow(x, 2) == x * x;
    assert Pow(x, 3) == x * x * x;
    assert Pow(x, 4) == (x * x) * (x * x);
    assert Pow(x, 5) == (x * x) * (x * x) * x;
    assert Pow(x, 6) == (x * x) * (x * x) * (x * x);
    assert Pow(x, 7) == Pow(x, 6) * x;
  }

  // The S-box does not care whether its argument was reduced.
  lemma SBoxOfReduced(x: int)
    ensures SBox(x) == SBox(Reduce(x))
  {
    var y := Reduce(x);
    CongReduce(x);
    Power7(x);
    Power7(y);
    CongMul(y, x, y, x);
    CongMul(y * y, x * x, y * y, x * x);
    CongMul((y * y) * (y * y), (x * x) * (x * x), y * y, x * x);
    CongMul((y * y) * (y * y) * (y * y), (x * x) * (x * x) * (x * x), y, x);
  }

  // `let state := add(mload(at), c)` and pow7_store into the same slot.
  method SBoxSlot(mem: array<int>, at: nat, c: int)
    requires at < mem.Length && Small(mem[at]) && Small(c)
    modifies mem
    ensures mem[at] == SBox(Reduce(old(mem[at]) + c)) && Small(mem[at])
    ensures forall i :: 0 <= i < mem.Length && i != at ==> mem[i] == old(mem[i])
  {
    FiveModuliFit();
    var state := LazyAdd(mem[at], c);
    var var2 := MulMod(state, state);
    var var4 := MulMod(var2, var2);
    Pow7IsSBox(state);
    SBoxOfReduced(state);
    hide SBox, MulMod, Reduce;
    mem[at] := MulMod(MulMod(var4, var2), state);
  }

  method FrIntro(mem: array<int>, c: seq<int>)
    requires mem.Length == WORDS && SlotsReduced(mem) && |c| == T && forall i :: 0 <= i < T ==> Small(c[i])
    modifies mem
    ensures StateIn(mem) == SBoxes(AddConstants(old(StateIn(mem)), c)) && SlotsReduced(mem)
  {
    hide SBox, Reduce;
    SBoxSlot(mem, 0, c[0]);
    SBoxSlot(mem, 1, c[1]);
    SBoxSlot(mem, 4, c[2]);
    SBoxSlot(mem, 5, c[3]);
    SBoxSlot(mem, 6, c[4]);
    SBoxSlot(mem, 7, c[5]);
    SBoxSlot(mem, 8, c[6]);
    SBoxSlot(mem, 9, c[7]);
  }

  method FullRound(mem: array<int>, r: nat, k: Constants)
    requires mem.Length == WORDS && SlotsReduced(mem) && ValidConstants(k) && r < ROUNDS && IsFull(r)
    modifies mem
    ensures StateIn(mem) == Round(old(StateIn(mem)), r, k) && SlotsReduced(mem)
  {
    hide External, SBoxes, AddConstants;
    FrIntro(mem, k.c[T * r..T * r + T]);
    FrMm(mem);
  }

  // One element through the internal matrix.
  method InternalSlot(mem: array<int>, at: nat, d: int)
    requires mem.Length == WORDS && at < SWP
    modifies mem
    ensures mem[at] == AddMod(MulMod(d, old(mem[at])), mem[SWP])
    ensures forall i :: 0 <= i < mem.Length && i != at ==> mem[i] == old(mem[i])
  {
    hide AddMod, MulMod;
    mem[at] := AddMod(MulMod(d, mem[at]), mem[SWP]);
  }

  lemma InternalElement(d: int, x: int, sum: int)
    ensures AddMod(MulMod(d, x), Reduce(sum)) == Reduce(d * x + sum) && Small(Reduce(d * x + sum))
  {
    CongReduce(d * x);
    CongReduce(sum);
    CongAdd(MulMod(d, x), d * x, Reduce(sum), sum);
  }

  lemma InternalElements(s: seq<int>, d: seq<int>)
    requires |s| == T && |d| == T
    ensures var sum, t := Reduce(Total(s)), Internal(s, d);
            && Reduced(t)
            && AddMod(MulMod(d[0], s[0]), sum) == t[0] && AddMod(MulMod(d[1], s[1]), sum) == t[1]
            && AddMod(MulMod(d[2], s[2]), sum) == t[2] && AddMod(MulMod(d[3], s[3]), sum) == t[3]
            && AddMod(MulMod(d[4], s[4]), sum) == t[4] && AddMod(MulMod(d[5], s[5]), sum) == t[5]
            && AddMod(MulMod(d[6], s[6]), sum) == t[6] && AddMod(MulMod(d[7], s[7]), sum) == t[7]
  {
    hide AddMod, MulMod, Reduce, Total;
    InternalElement(d[0], s[0], Total(s));
    InternalElement(d[1], s[1], Total(s));
    InternalElement(d[2], s[2], Total(s));
    InternalElement(d[3], s[3], Total(s));
    InternalElement(d[4], s[4], Total(s));
    InternalElement(d[5], s[5], Total(s));
    InternalElement(d[6], s[6], Total(s));
    InternalElement(d[7], s[7], Total(s));
  }

  method SumAndDiagonal(mem: array<int>, d: seq<int>)
    requires mem.Length == WORDS && SlotsReduced(mem) && |d| == T
    modifies mem
    ensures StateIn(mem) == Internal(old(StateIn(mem)), d) && SlotsReduced(mem)
  {
    ghost var s := StateIn(mem);
    hide AddMod, MulMod, Reduce, Internal, Total;
    Sum(mem);
    InternalSlot(mem, 0, d[0]);
    InternalSlot(mem, 1, d[1]);
    InternalSlot(mem, 4, d[2]);
    InternalSlot(mem, 5, d[3]);
    InternalSlot(mem, 6, d[4]);
    InternalSlot(mem, 7, d[5]);
    InternalSlot(mem, 8, d[6]);
    InternalSlot(mem, 9, d[7]);
    InternalElements(s, d);
    assert StateIn(mem) == Internal(s, d);
    SlotsOfState(mem);
  }

  // The program adds only the first constant of a partial round. The others are zero.
  method PartialRound(mem: array<int>, r: nat, k: Constants)
    requires mem.Length == WORDS && SlotsReduced(mem) && ValidConstants(k) && r < ROUNDS && !IsFull(r)
    modifies mem
    ensures StateIn(mem) == Round(old(StateIn(mem)), r, k) && SlotsReduced(mem)
  {
    ghost var s := StateIn(mem);
    SlotsOfState(mem);
    PartialConstants(s, r, k);
    hide SBox, Reduce, Internal, AddConstants, Reduced;
    SBoxSlot(mem, 0, k.c[T * r]);
    ghost var x := AddConstants(s, k.c[T * r..T * r + T]);
    assert StateIn(mem) == x[0 := SBox(x[0])];
    SumAndDiagonal(mem, k.d);
  }

  lemma PartialConstants(s: seq<int>, r: nat, k: Constants)
    requires Reduced(s) && ValidConstants(k) && r < ROUNDS && !IsFull(r)
    ensures Small(k.c[T * r])
    ensures AddConstants(s, k.c[T * r..T * r + T]) == s[0 := Reduce(s[0] + k.c[T * r])]
  {
    var c := k.c[T * r..T * r + T];
    assert c[0] == k.c[T * r];
    forall i | 1 <= i < T
      ensures c[i] == 0 && Reduce(s[i] + c[i]) == s[i]
    {
      assert c[i] == k.c[T * r + i] && (T * r + i) % T == i;
      SmallMod(s[i], R);
    }
  }

  // -------- the whole program --------

  // The copy of the arguments: every source slot is read before it is overwritten.
  method Init(mem: array<int>)
    requires mem.Length == WORDS && forall i :: ARG <= i < ARG + 7 ==> Small(mem[i])
    modifies mem
    ensures StateIn(mem) == External(old(mem[ARG..ARG + 7]) + [CAPACITY]) && SlotsReduced(mem)
  {
    ghost var s := mem[ARG..ARG + 7] + [CAPACITY];
    mem[0] := mem[ARG];
    mem[1] := mem[ARG + 1];
    mem[4] := mem[ARG + 2];
    mem[5] := mem[ARG + 3];
    mem[6] := mem[ARG + 4];
    mem[7] := mem[ARG + 5];
    mem[8] := mem[ARG + 6];
    mem[9] := CAPACITY;
    assert StateIn(mem) == s;
    hide External;
    FrMm(mem);
  }

  method FullRounds(mem: array<int>, lo: nat, hi: nat, ghost s: seq<int>, k: Constants)
    requires mem.Length == WORDS && ValidConstants(k) && |s| == T && lo <= hi <= ROUNDS
    requires forall r :: lo <= r < hi ==> IsFull(r)
    requires StateIn(mem) == Before(s, lo, k) && SlotsReduced(mem)
    modifies mem
    ensures StateIn(mem) == Before(s, hi, k) && SlotsReduced(mem)
  {
    hide Round, External, SlotsReduced, StateIn;
    for r := lo to hi
      invariant StateIn(mem) == Before(s, r, k) && SlotsReduced(mem)
    {
      FullRound(mem, r, k);
    }
  }

  method PartialRounds(mem: array<int>, lo: nat, hi: nat, ghost s: seq<int>, k: Constants)
    requires mem.Length == WORDS && ValidConstants(k) && |s| == T && lo <= hi <= ROUNDS
    requires forall r :: lo <= r < hi ==> !IsFull(r)
    requires StateIn(mem) == Before(s, lo, k) && SlotsReduced(mem)
    modifies mem
    ensures StateIn(mem) == Before(s, hi, k) && SlotsReduced(mem)
  {
    hide Round, External, SlotsReduced, StateIn;
    for r := lo to hi
      invariant StateIn(mem) == Before(s, r, k) && SlotsReduced(mem)
    {
      PartialRound(mem, r, k);
    }
  }

  // For all seven arguments below the modulus, the program returns the first element of the
  // permutation. No `add` in it wraps: that is the precondition of LazyAdd at every use.
  method Hash(mem: array<int>, k: Constants) returns (h: int)
    requires mem.Length == WORDS && ValidConstants(k) && forall i :: ARG <= i < ARG + 7 ==> Small(mem[i])
    modifies mem
    ensures h == Permutation(old(mem[ARG..ARG + 7]) + [CAPACITY], k)[0] && 0 <= h < R
  {
    ghost var s := mem[ARG..ARG + 7] + [CAPACITY];
    var partialRoundsBegin := ROUNDS_F / 2;
    var partialRoundsEnd := partialRoundsBegin + ROUNDS_P;
    hide External, Round, ValidConstants;
    Init(mem);
    assert Before(s, 0, k) == External(s);
    hide Before;
    FullRounds(mem, 0, partialRoundsBegin, s, k);
    PartialRounds(mem, partialRoundsBegin, partialRoundsEnd, s, k);
    FullRounds(mem, partialRoundsEnd, ROUNDS, s, k);
    h := mem[0];
    assert StateIn(mem)[0] == h;
  }
}
