/**
  The protocol fee. It is computed from the gross amount by the contract and from the net
  amount by a client that wants the receiver to get a given amount; both round up.
 */
module ProtocolFee {
  import opened Words
  import opened Common

  const MAX_BPS: nat := 10000

  // None is a panic: the fee does not fit in 256 bits.
  function FromGross(amount: nat, bps: nat): Option<nat> {
    var r := (amount * bps + (MAX_BPS - 1)) / MAX_BPS;
    if r >= WORD_SIZE then None else Some(r)
  }

  // None is a panic: a division by zero at 100 %, or a fee that does not fit in 256 bits.
  function FromNet(amount: nat, bps: nat): Option<nat>
    requires bps <= MAX_BPS
  {
    var denom := MAX_BPS - bps;
    if denom == 0 then None else
    var r := (amount * bps + denom - 1) / denom;
    if r >= WORD_SIZE then None else Some(r)
  }

  // The least fee that is at least the exact fraction.
  function CeilDiv(a: nat, d: nat): nat
    requires d > 0
  {
    (a + d - 1) / d
  }

  function Gross(g: nat, b: nat): nat {
    CeilDiv(g * b, MAX_BPS)
  }

  function Net(n: nat, b: nat): nat
    requires b < MAX_BPS
  {
    CeilDiv(n * b, MAX_BPS - b)
  }

  lemma CeilDivLeast(a: nat, d: nat, c: int)
    requires d > 0
    ensures CeilDiv(a, d) <= c <==> a <= c * d
  {
    var q := CeilDiv(a, d);
    assert q * d <= a + d - 1 < q * d + d;
    if q <= c {
      assert q * d <= c * d by { MulMonotone(q, c, d); }
    } else {
      assert (c + 1) * d <= q * d by { MulMonotone(c + 1, q, d); }
      assert (c + 1) * d == c * d + d;
    }
  }

  lemma MulMonotone(x: int, y: int, d: nat)
    requires x <= y
    ensures x * d <= y * d
  {
    assert y * d == x * d + (y - x) * d;
  }

  // Up to 100 %, the fee of a gross amount never exceeds it, so the gross formula never panics.
  lemma GrossFits(g: nat, b: nat)
    requires b <= MAX_BPS && g < WORD_SIZE
    ensures Gross(g, b) <= g && FromGross(g, b) == Some(Gross(g, b))
  {
    GrossAtMost(g, b);
  }

  // At any rate, the gross formula panics exactly when the amount times the rate exceeds the
  // largest fee.
  lemma GrossPanics(g: nat, b: nat)
    ensures FromGross(g, b).None? <==> g * b > (WORD_SIZE - 1) * 10000
    ensures FromGross(g, b).Some? ==> FromGross(g, b).value == Gross(g, b)
  {
    CeilDivLeast(g * b, MAX_BPS, WORD_SIZE - 1);
  }

  // The net formula panics exactly at 100 %, where it divides by zero, and where the amount
  // times the rate exceeds what the largest fee allows; otherwise it rounds up.
  lemma NetFits(n: nat, b: nat)
    requires b <= MAX_BPS
    ensures FromNet(n, b).None? <==> b == 10000 || n * b > (WORD_SIZE - 1) * (10000 - b)
    ensures FromNet(n, b).Some? ==> b < MAX_BPS && FromNet(n, b).value == Net(n, b)
  {
    if b < MAX_BPS {
      CeilDivLeast(n * b, MAX_BPS - b, WORD_SIZE - 1);
    }
  }

  // Both sides say that n * 10000 <= g * (10000 - b).
  lemma GrossSide(n: nat, g: nat, b: nat)
    requires b < MAX_BPS
    ensures n <= g - Gross(g, b) <==> n * MAX_BPS <= g * (MAX_BPS - b)
  {
    CeilDivLeast(g * b, MAX_BPS, g - n);
    assert (g - n) * MAX_BPS == g * MAX_BPS - n * MAX_BPS;
    assert g * (MAX_BPS - b) == g * MAX_BPS - g * b;
  }

  lemma NetSide(n: nat, g: nat, b: nat)
    requires b < MAX_BPS
    ensures n + Net(n, b) <= g <==> n * MAX_BPS <= g * (MAX_BPS - b)
  {
    var d := MAX_BPS - b;
    CeilDivLeast(n * b, d, g - n);
    assert (g - n) * d == g * d - n * d;
    assert n * d == n * MAX_BPS - n * b;
  }

  // Adding the fee to a net amount and subtracting it from a gross amount form a Galois
  // connection.
  lemma Galois(n: nat, g: nat, b: nat)
    requires b < MAX_BPS
    ensures n + Net(n, b) <= g <==> n <= g - Gross(g, b)
  {
    GrossSide(n, g, b);
    NetSide(n, g, b);
  }

  lemma NetMonotone(n: nat, m: nat, b: nat)
    requires b < MAX_BPS && n <= m
    ensures Net(n, b) <= Net(m, b)
  {
    CeilDivLeast(m * b, MAX_BPS - b, Net(m, b));
    MulMonotone(n, m, b);
    CeilDivLeast(n * b, MAX_BPS - b, Net(m, b));
  }

  // A client that adds the net fee is charged exactly that fee.
  lemma NetThenGross(n: nat, b: nat)
    requires b < MAX_BPS
    ensures Gross(n + Net(n, b), b) == Net(n, b)
  {
    var g := n + Net(n, b);
    Galois(n, g, b);
    if Gross(g, b) < Net(n, b) {
      Galois(n + 1, g, b);
      NetMonotone(n, n + 1, b);
    }
  }

  // In the other direction the fee comes back unless the exact fee exceeds the one below by
  // at most b / 10000; then the net formula gives strictly less.
  lemma GrossThenNet(g: nat, b: nat)
    requires b < MAX_BPS
    ensures Gross(g, b) <= g
    ensures var r := (g * b) % MAX_BPS;
            && Net(g - Gross(g, b), b) <= Gross(g, b)
            && (Net(g - Gross(g, b), b) < Gross(g, b) <==> 0 < r <= b)
  {
    hide Gross, CeilDiv;
    var f, r := Gross(g, b), (g * b) % MAX_BPS;
    GrossAtMost(g, b);
    var n := g - f;
    Galois(n, g, b);
    CeilDivLeast(n * b, MAX_BPS - b, f - 1);
    Expand(f, g, b);
    GrossTimes(g, b);
    Compare(g * b, f * MAX_BPS, f * b, n * b, (f - 1) * (MAX_BPS - b), b, r);
  }

  // The comparison of the two fees, with every product named.
  lemma Compare(gb: int, fm: int, fb: int, nb: int, fd: int, b: nat, r: int)
    requires nb == gb - fb && fd == fm - fb - (MAX_BPS - b) && b < MAX_BPS
    requires 0 <= r < MAX_BPS && fm == if r == 0 then gb else gb + MAX_BPS - r
    ensures nb <= fd <==> 0 < r <= b
  {
  }

  lemma GrossAtMost(g: nat, b: nat)
    requires b <= MAX_BPS
    ensures Gross(g, b) <= g
  {
    MulMonotone(b, MAX_BPS, g);
    assert g * b == b * g && g * MAX_BPS == MAX_BPS * g;
    CeilDivLeast(g * b, MAX_BPS, g);
  }

  lemma Expand(f: int, g: int, b: int)
    ensures (g - f) * b == g * b - f * b
    ensures (f - 1) * (MAX_BPS - b) == f * MAX_BPS - f * b - (MAX_BPS - b)
  {
  }

  lemma GrossTimes(g: nat, b: nat)
    ensures var r := (g * b) % MAX_BPS;
            Gross(g, b) * MAX_BPS == if r == 0 then g * b else g * b + MAX_BPS - r
  {
    CeilTimes(g * b);
  }

  lemma CeilTimes(a: nat)
    ensures CeilDiv(a, MAX_BPS) * MAX_BPS == if a % MAX_BPS == 0 then a else a + MAX_BPS - a % MAX_BPS
  {
  }
}
