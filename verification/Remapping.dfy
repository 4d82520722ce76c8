/**
  The remapping of advice columns and challenges by phase: a counting sort whose result
  gives every column its position in calldata.
 */
module Remapping {
  // How many of the first n entries are below p, and how many equal p.
  function Below(phase: seq<nat>, p: nat, n: nat): (c: nat)
    requires n <= |phase|
    ensures c <= n
  {
    if n == 0 then 0 else Below(phase, p, n - 1) + if phase[n - 1] < p then 1 else 0
  }

  function Equal(phase: seq<nat>, p: nat, n: nat): (c: nat)
    requires n <= |phase|
    ensures c <= n
  {
    if n == 0 then 0 else Equal(phase, p, n - 1) + if phase[n - 1] == p then 1 else 0
  }

  // The position of entry i: everything of an earlier phase, then the earlier entries of
  // the same phase.
  function Position(phase: seq<nat>, i: nat): nat
    requires i < |phase|
  {
    Below(phase, phase[i], |phase|) + Equal(phase, phase[i], i)
  }

  function Positions(phase: seq<nat>): (s: seq<nat>)
    ensures |s| == |phase|
  {
    seq(|phase|, i requires 0 <= i < |phase| => Position(phase, i))
  }

  function Counts(phase: seq<nat>, numPhase: nat): (s: seq<nat>)
    ensures |s| == numPhase
  {
    seq(numPhase, p requires 0 <= p < numPhase => Equal(phase, p, |phase|))
  }

  lemma {:induction false} BelowNext(phase: seq<nat>, p: nat, n: nat)
    requires n <= |phase|
    ensures Below(phase, p + 1, n) == Below(phase, p, n) + Equal(phase, p, n)
  {
    if n > 0 {
      BelowNext(phase, p, n - 1);
    }
  }

  lemma {:induction false} BelowZero(phase: seq<nat>, n: nat)
    requires n <= |phase|
    ensures Below(phase, 0, n) == 0
  {
    if n > 0 {
      BelowZero(phase, n - 1);
    }
  }

  lemma {:induction false} EqualGrows(phase: seq<nat>, p: nat, m: nat, n: nat)
    requires m <= n <= |phase|
    ensures Equal(phase, p, m) <= Equal(phase, p, n)
    ensures m < n && phase[m] == p ==> Equal(phase, p, m) < Equal(phase, p, n)
    decreases n - m
  {
    if m < n {
      EqualGrows(phase, p, m + 1, n);
    }
  }

  lemma {:induction false} BelowGrows(phase: seq<nat>, p: nat, q: nat, n: nat)
    requires p <= q && n <= |phase|
    ensures Below(phase, p, n) <= Below(phase, q, n)
  {
    if n > 0 {
      BelowGrows(phase, p, q, n - 1);
    }
  }

  // The three folds of the remapping: how many entries each phase has,
  method CountPhases(phase: seq<nat>, numPhase: nat) returns (nums: seq<nat>)
    requires forall i :: 0 <= i < |phase| ==> phase[i] < numPhase
    ensures nums == Counts(phase, numPhase)
  {
    nums := seq(numPhase, _ => 0);
    for i := 0 to |phase|
      invariant |nums| == numPhase
      invariant forall p :: 0 <= p < numPhase ==> nums[p] == Equal(phase, p, i)
    {
      nums := nums[phase[i] := nums[phase[i]] + 1];
    }
  }

  // where each phase starts,
  method Offsets(phase: seq<nat>, nums: seq<nat>) returns (offsets: seq<nat>)
    requires |nums| >= 1 && nums == Counts(phase, |nums|)
    ensures |offsets| == |nums| && forall p :: 0 <= p < |nums| ==> offsets[p] == Below(phase, p, |phase|)
  {
    offsets := [0];
    BelowZero(phase, |phase|);
    for p := 0 to |nums| - 1
      invariant |offsets| == p + 1
      invariant forall q :: 0 <= q <= p ==> offsets[q] == Below(phase, q, |phase|)
    {
      BelowNext(phase, p, |phase|);
      offsets := offsets + [offsets[|offsets| - 1] + nums[p]];
    }
  }

  // and where each entry goes, one place after the last one of its phase.
  method Remap(phase: seq<nat>, numPhase: nat) returns (nums: seq<nat>, index: seq<nat>)
    requires numPhase >= 1 && forall i :: 0 <= i < |phase| ==> phase[i] < numPhase
    ensures nums == Counts(phase, numPhase)
    ensures index == Positions(phase)
  {
    nums := CountPhases(phase, numPhase);
    var state := Offsets(phase, nums);
    index := [];
    for i := 0 to |phase|
      invariant |state| == numPhase && |index| == i
      invariant forall p :: 0 <= p < numPhase ==> state[p] == Below(phase, p, |phase|) + Equal(phase, p, i)
      invariant forall j :: 0 <= j < i ==> index[j] == Position(phase, j)
    {
      index := index + [state[phase[i]]];
      state := state[phase[i] := state[phase[i]] + 1];
    }
  }

  // Positions order by phase first and by original position second.
  lemma PositionOrder(phase: seq<nat>, i: nat, j: nat)
    requires i < |phase| && j < |phase|
    ensures Position(phase, i) < Position(phase, j) <==>
            phase[i] < phase[j] || (phase[i] == phase[j] && i < j)
  {
    if phase[i] < phase[j] {
      PhaseFirst(phase, i, j);
    } else if phase[j] < phase[i] {
      PhaseFirst(phase, j, i);
    } else if i < j {
      EqualGrows(phase, phase[i], i, j);
    } else {
      EqualGrows(phase, phase[i], j, i);
    }
  }

  lemma PhaseFirst(phase: seq<nat>, i: nat, j: nat)
    requires i < |phase| && j < |phase| && phase[i] < phase[j]
    ensures Position(phase, i) < Position(phase, j)
  {
    EqualGrows(phase, phase[i], i, |phase|);
    BelowNext(phase, phase[i], |phase|);
    BelowGrows(phase, phase[i] + 1, phase[j], |phase|);
  }

  lemma {:induction false} TotalCount(phase: seq<nat>, p: nat, n: nat)
    requires n <= |phase|
    ensures Below(phase, p, n) + Equal(phase, p, n) <= n
    ensures (forall i :: 0 <= i < n ==> phase[i] < p) ==> Below(phase, p, n) == n
  {
    if n > 0 {
      TotalCount(phase, p, n - 1);
    }
  }

  // The positions are a permutation of 0 .. n - 1.
  lemma PositionsArePermutation(phase: seq<nat>)
    ensures forall i, j :: 0 <= i < j < |phase| ==> Positions(phase)[i] != Positions(phase)[j]
    ensures forall v: nat :: v < |phase| <==> v in Positions(phase)
  {
    var s := Positions(phase);
    forall i, j | 0 <= i < j < |phase|
      ensures s[i] != s[j]
    {
      PositionOrder(phase, i, j);
      PositionOrder(phase, j, i);
    }
    forall i | 0 <= i < |phase|
      ensures s[i] < |phase|
    {
      EqualGrows(phase, phase[i], i, |phase|);
      TotalCount(phase, phase[i], |phase|);
    }
    InjectionIsOnto(s, |phase|);
  }

  lemma InjectionIsOnto(s: seq<nat>, n: nat)
    requires |s| == n && (forall i :: 0 <= i < n ==> s[i] < n)
    requires forall i, j :: 0 <= i < j < n ==> s[i] != s[j]
    ensures forall v: nat :: v < n ==> v in s
  {
    DistinctCardinality(s);
    forall v: nat | v < n
      ensures v in s
    {
      if v !in s {
        SubsetCardinality(Elements(s), Range(n) - {v});
      }
    }
  }

  lemma {:induction false} DistinctCardinality(s: seq<nat>)
    requires forall i, j :: 0 <= i < j < |s| ==> s[i] != s[j]
    ensures |Elements(s)| == |s|
  {
    if s != [] {
      var n := |s| - 1;
      DistinctCardinality(s[..n]);
      assert s == s[..n] + [s[n]];
      assert Elements(s) == Elements(s[..n]) + {s[n]};
    }
  }

  ghost function Elements(s: seq<nat>): set<nat> {
    set v | v in s
  }

  ghost function Range(n: nat): (r: set<nat>)
    ensures |r| == n && forall v: nat :: v in r <==> v < n
  {
    if n == 0 then {} else Range(n - 1) + {n - 1}
  }

  lemma {:induction false} SubsetCardinality(a: set<nat>, b: set<nat>)
    requires a <= b
    ensures |a| <= |b|
  {
    if a != {} {
      var x :| x in a;
      SubsetCardinality(a - {x}, b - {x});
    }
  }

  function SumOf(s: seq<nat>): nat {
    if s == [] then 0 else SumOf(s[..|s| - 1]) + s[|s| - 1]
  }

  // The counts of all phases sum to the number of entries.
  lemma CountsSum(phase: seq<nat>, numPhase: nat)
    requires forall i :: 0 <= i < |phase| ==> phase[i] < numPhase
    ensures SumOf(Counts(phase, numPhase)) == |phase|
  {
    CountsSumBelow(phase, numPhase);
    TotalCount(phase, numPhase, |phase|);
  }

  lemma {:induction false} CountsSumBelow(phase: seq<nat>, p: nat)
    ensures SumOf(Counts(phase, p)) == Below(phase, p, |phase|)
  {
    if p == 0 {
      BelowZero(phase, |phase|);
    } else {
      CountsSumBelow(phase, p - 1);
      BelowNext(phase, p - 1, |phase|);
      assert Counts(phase, p)[..p - 1] == Counts(phase, p - 1);
    }
  }
}
