/**
  The commitments of a proof: they lie in the order in which the proof lists them, every
  evaluation is opened against the commitment and rotation of its role, and no commitment is
  opened twice at the same rotation.
 */
module Commitments {
  import opened Yul
  import opened Evaluation
  import opened Constraints
  import opened Layout
  import opened Openings
  import Remapping

  // -------- the order in calldata --------

  function FlattenPairs(pairs: seq<(EcPoint, EcPoint)>): (s: seq<EcPoint>)
    ensures |s| == 2 * |pairs|
  {
    if pairs == [] then [] else
    var n := |pairs| - 1;
    FlattenPairs(pairs[..n]) + [pairs[n].0, pairs[n].1]
  }

  lemma {:induction false} PairsInOrder(pairs: seq<(EcPoint, EcPoint)>, p: Ptr)
    requires p.value.Integer?
    requires forall i :: 0 <= i < |pairs| ==> pairs[i] == (PointAt(Plus(p, 4 * i)), PointAt(Plus(p, 4 * i + 2)))
    ensures FlattenPairs(pairs) == PointRange(p, 2 * |pairs|)
  {
    if pairs != [] {
      PairsInOrder(pairs[..|pairs| - 1], p);
    }
  }

  lemma PointRangeConcat(p: Ptr, m: nat, n: nat)
    requires p.value.Integer?
    ensures PointRange(p, m + n) == PointRange(p, m) + PointRange(Plus(p, 2 * m), n)
  {
  }

  // Where the generator places the commitments of the proof.
  ghost predicate Committed(cs: ConstraintSystem, proofCptr: Ptr, meta: Meta, data: Data) {
    && proofCptr.value.Integer?
    && |data.adviceComms| == |cs.advicePhase|
    && (forall i :: 0 <= i < |cs.advicePhase| ==>
          data.adviceComms[i] == PointAt(Plus(proofCptr, 2 * Remapping.Positions(cs.advicePhase)[i])))
    && var p, l, z := Plus(proofCptr, 2 * |cs.advicePhase|), cs.numLookups, meta.numPermutationZs;
       && |data.lookupPermutedComms| == l
       && (forall i :: 0 <= i < l ==>
             data.lookupPermutedComms[i] == (PointAt(Plus(p, 4 * i)), PointAt(Plus(p, 4 * i + 2))))
       && data.permutationZComms == PointRange(Plus(p, 2 * (2 * l)), z)
       && data.lookupZComms == PointRange(Plus(p, 2 * (2 * l + z)), l)
       && data.randomComm == PointAt(Plus(p, 2 * (2 * l + z + l)))
       && data.quotientCommCptr == Plus(p, 2 * (2 * l + z + l + 1))
       && data.evalCptr == Plus(data.quotientCommCptr, 2 * meta.numQuotients)
  }

  lemma GeneratedCommitted(cs: ConstraintSystem, vk: VerifyingKey, vkMptr: Ptr, proofCptr: Ptr, meta: Meta, data: Data)
    requires Generated(cs, vk, vkMptr, proofCptr, meta, data)
    ensures Committed(cs, proofCptr, meta, data)
  {
    hide NewPlaces, NewEvalPtrs, NoDuplicates, RotationList, NumChunks, PointMap, Remapping.Counts, Remapping.Positions;
    var l := cs.numLookups;
    assert meta.numLookupPermuteds == 2 * l && meta.numLookupZs == l;
  }

  // The advice commitments fill the first points of the proof, ordered by phase and then by
  // column; behind them, one after the other, come the permuted lookups in pairs, the
  // permutation products, the lookup products, the random commitment, the quotients and the
  // evaluations.
  lemma CommitmentsInOrder(cs: ConstraintSystem, vk: VerifyingKey, vkMptr: Ptr, proofCptr: Ptr, meta: Meta, data: Data)
    requires Generated(cs, vk, vkMptr, proofCptr, meta, data)
    ensures var n := |cs.advicePhase|;
            && |data.adviceComms| == n
            && (forall c :: c in data.adviceComms <==> c in PointRange(proofCptr, n))
            && (forall i, j :: 0 <= i < n && 0 <= j < n ==>
                  data.adviceComms[i].x.value.Integer? && data.adviceComms[j].x.value.Integer?
                  && (data.adviceComms[i].x.value.n < data.adviceComms[j].x.value.n <==>
                      cs.advicePhase[i] < cs.advicePhase[j] || (cs.advicePhase[i] == cs.advicePhase[j] && i < j)))
    ensures var n, m := |cs.advicePhase|, 3 * cs.numLookups + meta.numPermutationZs + 1;
            && FlattenPairs(data.lookupPermutedComms) + data.permutationZComms + data.lookupZComms + [data.randomComm]
               == PointRange(Plus(proofCptr, 2 * n), m)
            && data.quotientCommCptr == Plus(proofCptr, 2 * (n + m))
            && data.evalCptr == Plus(data.quotientCommCptr, 2 * meta.numQuotients)
  {
    GeneratedCommitted(cs, vk, vkMptr, proofCptr, meta, data);
    hide Generated, Committed, PointRange, FlattenPairs;
    AdviceInOrder(cs, proofCptr, meta, data);
    ArgumentsInOrder(cs, proofCptr, meta, data);
  }

  lemma AdviceInOrder(cs: ConstraintSystem, proofCptr: Ptr, meta: Meta, data: Data)
    requires Committed(cs, proofCptr, meta, data)
    ensures var n := |cs.advicePhase|;
            && |data.adviceComms| == n
            && (forall c :: c in data.adviceComms <==> c in PointRange(proofCptr, n))
            && (forall i, j :: 0 <= i < n && 0 <= j < n ==>
                  data.adviceComms[i].x.value.Integer? && data.adviceComms[j].x.value.Integer?
                  && (data.adviceComms[i].x.value.n < data.adviceComms[j].x.value.n <==>
                      cs.advicePhase[i] < cs.advicePhase[j] || (cs.advicePhase[i] == cs.advicePhase[j] && i < j)))
  {
    var phase, comms := cs.advicePhase, data.adviceComms;
    AdvicePoints(phase, comms, proofCptr);
    forall i, j | 0 <= i < |phase| && 0 <= j < |phase|
      ensures comms[i].x.value.Integer? && comms[j].x.value.Integer?
      ensures comms[i].x.value.n < comms[j].x.value.n <==>
              phase[i] < phase[j] || (phase[i] == phase[j] && i < j)
    {
      Remapping.PositionOrder(phase, i, j);
    }
  }

  lemma AdvicePoints(phase: seq<nat>, comms: seq<EcPoint>, p: Ptr)
    requires p.value.Integer? && |comms| == |phase|
    requires forall i :: 0 <= i < |phase| ==> comms[i] == PointAt(Plus(p, 2 * Remapping.Positions(phase)[i]))
    ensures forall c :: c in comms <==> c in PointRange(p, |phase|)
  {
    var positions, points := Remapping.Positions(phase), PointRange(p, |phase|);
    Remapping.PositionsArePermutation(phase);
    hide Remapping.Positions;
    forall c | c in comms
      ensures c in points
    {
      var i :| 0 <= i < |comms| && comms[i] == c;
      assert positions[i] in positions;
      assert points[positions[i]] == c;
    }
    forall c | c in points
      ensures c in comms
    {
      var v :| 0 <= v < |points| && points[v] == c;
      assert v in positions;
      var i :| 0 <= i < |positions| && positions[i] == v;
      assert comms[i] == c;
    }
  }

  lemma ArgumentsInOrder(cs: ConstraintSystem, proofCptr: Ptr, meta: Meta, data: Data)
    requires Committed(cs, proofCptr, meta, data)
    ensures var n, m := |cs.advicePhase|, 3 * cs.numLookups + meta.numPermutationZs + 1;
            && FlattenPairs(data.lookupPermutedComms) + data.permutationZComms + data.lookupZComms + [data.randomComm]
               == PointRange(Plus(proofCptr, 2 * n), m)
            && data.quotientCommCptr == Plus(proofCptr, 2 * (n + m))
            && data.evalCptr == Plus(data.quotientCommCptr, 2 * meta.numQuotients)
  {
    var n, l, z := |cs.advicePhase|, cs.numLookups, meta.numPermutationZs;
    var p := Plus(proofCptr, 2 * n);
    hide FlattenPairs;
    PairsInOrder(data.lookupPermutedComms, p);
    PointRangeConcat(p, 2 * l, z);
    PointRangeConcat(p, 2 * l + z, l);
    PointRangeConcat(p, 2 * l + z + l, 1);
    assert PointRange(Plus(p, 2 * (2 * l + z + l)), 1) == [data.randomComm];
  }

  // -------- the role of an evaluation --------

  lemma {:induction false} ZsOpened(comms: seq<EcPoint>, evals: seq<ZEvals>, last: int, i: nat)
    requires |comms| == |evals| && i < |evals|
    ensures Opening(comms[i], 0, evals[i].cur) in ZOpenings(comms, evals)
    ensures Opening(comms[i], 1, evals[i].next) in ZOpenings(comms, evals)
    ensures i + 1 < |evals| ==> Opening(comms[i], last, evals[i].last) in ZLastOpenings(comms, evals, last)
  {
    var n := |evals| - 1;
    if i < n {
      ZsOpened(comms[..n], evals[..n], last, i);
    } else {
      assert [Opening(comms[n], 0, evals[n].cur), Opening(comms[n], 1, evals[n].next)][0]
             == Opening(comms[n], 0, evals[n].cur);
      assert [Opening(comms[n], 0, evals[n].cur), Opening(comms[n], 1, evals[n].next)][1]
             == Opening(comms[n], 1, evals[n].next);
    }
  }

  ghost predicate LookupOpened(permuted: (EcPoint, EcPoint), z: EcPoint, v: LookupEvals, os: seq<Opening>) {
    && Opening(z, 0, v.z) in os && Opening(z, 1, v.zNext) in os
    && Opening(permuted.0, 0, v.pInput) in os && Opening(permuted.0, -1, v.pInputPrev) in os
    && Opening(permuted.1, 0, v.pTable) in os
  }

  lemma {:induction false} LookupsOpened(permuted: seq<(EcPoint, EcPoint)>, zs: seq<EcPoint>, evals: seq<LookupEvals>, i: nat)
    requires |permuted| == |zs| == |evals| && i < |evals|
    ensures LookupOpened(permuted[i], zs[i], evals[i], LookupOpenings(permuted, zs, evals))
  {
    var n := |evals| - 1;
    var five := [Opening(zs[n], 0, evals[n].z), Opening(permuted[n].0, 0, evals[n].pInput),
                 Opening(permuted[n].1, 0, evals[n].pTable), Opening(permuted[n].0, -1, evals[n].pInputPrev),
                 Opening(zs[n], 1, evals[n].zNext)];
    if i < n {
      LookupsOpened(permuted[..n], zs[..n], evals[..n], i);
    } else {
      assert five[0] in five && five[1] in five && five[2] in five && five[3] in five && five[4] in five;
    }
  }

  lemma {:induction false} CountOfEqual(s: seq<Ptr>, i: nat, j: nat)
    requires i < j < |s| && s[i] == s[j]
    ensures multiset(s)[s[i]] >= 2
  {
    assert s == s[..j] + [s[j]] + s[j + 1..];
    assert s[i] in s[..j];
  }

  lemma WordsCountedOnce(p: Ptr, n: nat, q: Ptr, x: Ptr)
    requires p.value.Integer? && q.value.Identifier?
    ensures (multiset(WordRange(p, n)) + multiset([q]))[x] <= 1
  {
    var ws := WordRange(p, n);
    assert multiset([q])[x] == if x == q then 1 else 0;
    WordCount(p, n, x);
  }

  lemma {:induction false} WordCount(p: Ptr, n: nat, x: Ptr)
    requires p.value.Integer?
    ensures multiset(WordRange(p, n))[x] <= 1
    ensures multiset(WordRange(p, n))[x] == 1 ==>
              x.value.Integer? && p.value.n <= x.value.n < p.value.n + 0x20 * n
  {
    if n == 0 {
      assert WordRange(p, 0) == [];
    } else {
      WordCount(p, n - 1, x);
      assert WordRange(p, n) == WordRange(p, n - 1) + [Plus(p, n - 1)];
    }
  }

  // No word is opened twice.
  lemma OneOpeningPerWord(cs: ConstraintSystem, vk: VerifyingKey, vkMptr: Ptr, proofCptr: Ptr, meta: Meta, data: Data,
                          i: nat, j: nat)
    requires Generated(cs, vk, vkMptr, proofCptr, meta, data) && QueriesCovered(meta, data)
    requires i < |Queries(meta, data)| && j < |Queries(meta, data)|
    requires Queries(meta, data)[i].eval == Queries(meta, data)[j].eval
    ensures i == j
  {
    EveryWordOpenedOnce(cs, vk, vkMptr, proofCptr, meta, data);
    hide Generated, QueriesCovered, Queries, WordRange;
    var evals := Evals(Queries(meta, data));
    if i != j {
      WordsCountedOnce(data.evalCptr, meta.numEvals, Named(QUOTIENT_EVAL_MPTR), evals[i]);
      CountOfEqual(evals, if i < j then i else j, if i < j then j else i);
    }
  }

  ghost predicate LookupOpenedOnly(permuted: (EcPoint, EcPoint), z: EcPoint, v: LookupEvals, os: seq<Opening>) {
    && OpenedOnlyAs(os, Opening(z, 0, v.z)) && OpenedOnlyAs(os, Opening(z, 1, v.zNext))
    && OpenedOnlyAs(os, Opening(permuted.0, 0, v.pInput)) && OpenedOnlyAs(os, Opening(permuted.0, -1, v.pInputPrev))
    && OpenedOnlyAs(os, Opening(permuted.1, 0, v.pTable))
  }

  // The word is opened, and only in this way.
  ghost predicate OpenedOnlyAs(qs: seq<Opening>, o: Opening) {
    o in qs && forall p :: p in qs && p.eval == o.eval ==> p == o
  }

  lemma OpenedMeansOnly(cs: ConstraintSystem, vk: VerifyingKey, vkMptr: Ptr, proofCptr: Ptr, meta: Meta, data: Data, o: Opening)
    requires Generated(cs, vk, vkMptr, proofCptr, meta, data) && QueriesCovered(meta, data) && o in Queries(meta, data)
    ensures OpenedOnlyAs(Queries(meta, data), o)
  {
    hide Generated, QueriesCovered, Queries;
    var qs := Queries(meta, data);
    forall p | p in qs && p.eval == o.eval
      ensures p == o
    {
      var i: nat :| i < |qs| && qs[i] == o;
      var j: nat :| j < |qs| && qs[j] == p;
      OneOpeningPerWord(cs, vk, vkMptr, proofCptr, meta, data, i, j);
    }
  }

  ghost predicate ColumnsInRole(meta: Meta, data: Data)
    requires QueriesCovered(meta, data)
  {
    var qs, places := Queries(meta, data), data.places;
    && (forall i :: 0 <= i < |meta.adviceQueries| ==>
          var q := meta.adviceQueries[i];
          OpenedOnlyAs(qs, Opening(data.adviceComms[q.0], q.1, places.places.advice[q])))
    && (forall i :: 0 <= i < |meta.fixedQueries| ==>
          var q := meta.fixedQueries[i];
          OpenedOnlyAs(qs, Opening(data.fixedComms[q.0], q.1, places.places.fixed[q])))
    && (forall i :: 0 <= i < |meta.permutationColumns| ==>
          var c := meta.permutationColumns[i];
          OpenedOnlyAs(qs, Opening(data.permutationComms[c], 0, places.permutation[c])))
  }

  ghost predicate ZsInRole(meta: Meta, data: Data, rotationLast: int)
    requires QueriesCovered(meta, data)
  {
    var qs, zs := Queries(meta, data), data.places.permutationZs;
    forall i :: 0 <= i < |zs| ==>
      && OpenedOnlyAs(qs, Opening(data.permutationZComms[i], 0, zs[i].cur))
      && OpenedOnlyAs(qs, Opening(data.permutationZComms[i], 1, zs[i].next))
      && (i + 1 < |zs| ==> OpenedOnlyAs(qs, Opening(data.permutationZComms[i], rotationLast, zs[i].last)))
  }

  ghost predicate LookupsInRole(meta: Meta, data: Data)
    requires QueriesCovered(meta, data)
  {
    forall i :: 0 <= i < |data.places.lookups| ==>
      LookupOpenedOnly(data.lookupPermutedComms[i], data.lookupZComms[i], data.places.lookups[i], Queries(meta, data))
  }

  // Every word that the constraint code reads is opened against the commitment of the column
  // or argument it stands for, at the rotation at which the constraints use it, and against
  // nothing else. The last row of a grand product is at rotation -(blinding factors + 1).
  lemma WordsOpenedInRole(cs: ConstraintSystem, vk: VerifyingKey, vkMptr: Ptr, proofCptr: Ptr, meta: Meta, data: Data)
    requires Generated(cs, vk, vkMptr, proofCptr, meta, data)
    ensures QueriesCovered(meta, data)
    ensures ColumnsInRole(meta, data) && ZsInRole(meta, data, -(cs.blindingFactors + 1)) && LookupsInRole(meta, data)
    ensures OpenedOnlyAs(Queries(meta, data), Opening(data.randomComm, 0, data.randomEval))
    ensures OpenedOnlyAs(Queries(meta, data), Opening(data.computedQuotientComm, 0, data.computedQuotientEval))
  {
    hide Generated, Queries, OpenedOnlyAs, ColumnsInRole, ZsInRole, LookupsInRole, QueriesCovered;
    DataCovers(cs, vk, vkMptr, proofCptr, meta, data);
    LastRotation(cs, vk, vkMptr, proofCptr, meta, data);
    forall o | o in Queries(meta, data)
      ensures OpenedOnlyAs(Queries(meta, data), o)
    {
      OpenedMeansOnly(cs, vk, vkMptr, proofCptr, meta, data, o);
    }
    assert AllOnly(Queries(meta, data));
    LastOpened(meta, data);
    ColumnsRole(meta, data);
    ZsRole(meta, data);
    LookupsRole(meta, data);
  }

  lemma LastRotation(cs: ConstraintSystem, vk: VerifyingKey, vkMptr: Ptr, proofCptr: Ptr, meta: Meta, data: Data)
    requires Generated(cs, vk, vkMptr, proofCptr, meta, data)
    ensures meta.rotationLast == -(cs.blindingFactors + 1)
  {
    hide NewData, NoDuplicates, RotationList, MaxOf, NumChunks;
  }

  ghost predicate AllOnly(qs: seq<Opening>) {
    forall o :: o in qs ==> OpenedOnlyAs(qs, o)
  }

  lemma ColumnsRole(meta: Meta, data: Data)
    requires QueriesCovered(meta, data) && AllOnly(Queries(meta, data))
    ensures ColumnsInRole(meta, data)
  {
    hide Queries, OpenedOnlyAs;
    ColumnsOpened(meta, data);
  }

  lemma ZsRole(meta: Meta, data: Data)
    requires QueriesCovered(meta, data) && AllOnly(Queries(meta, data))
    ensures ZsInRole(meta, data, meta.rotationLast)
  {
    hide Queries, OpenedOnlyAs, LookupOpened;
    ArgumentsOpened(meta, data);
  }

  lemma LookupsRole(meta: Meta, data: Data)
    requires QueriesCovered(meta, data) && AllOnly(Queries(meta, data))
    ensures LookupsInRole(meta, data)
  {
    hide Queries, OpenedOnlyAs, LookupOpened;
    ArgumentsOpened(meta, data);
    forall i | 0 <= i < |data.places.lookups|
      ensures LookupOpenedOnly(data.lookupPermutedComms[i], data.lookupZComms[i], data.places.lookups[i], Queries(meta, data))
    {
      LookupRole(data.lookupPermutedComms[i], data.lookupZComms[i], data.places.lookups[i], Queries(meta, data));
    }
  }

  lemma LookupRole(permuted: (EcPoint, EcPoint), z: EcPoint, v: LookupEvals, qs: seq<Opening>)
    requires LookupOpened(permuted, z, v, qs) && AllOnly(qs)
    ensures LookupOpenedOnly(permuted, z, v, qs)
  {
    hide OpenedOnlyAs;
  }

  lemma LastOpened(meta: Meta, data: Data)
    requires QueriesCovered(meta, data)
    ensures Opening(data.randomComm, 0, data.randomEval) in Queries(meta, data)
    ensures Opening(data.computedQuotientComm, 0, data.computedQuotientEval) in Queries(meta, data)
  {
    var two := [Opening(data.computedQuotientComm, 0, data.computedQuotientEval), Opening(data.randomComm, 0, data.randomEval)];
    assert two[0] in two && two[1] in two;
    hide AdviceOpenings, ZOpenings, ZLastOpenings, LookupOpenings, FixedOpenings, PermutationOpenings;
  }

  // The word that the permutation code reads for an advice or fixed column is opened against
  // the commitment of that column at the current row, and against nothing else.
  lemma PermutationWordsInRole(cs: ConstraintSystem, vk: VerifyingKey, vkMptr: Ptr, proofCptr: Ptr, meta: Meta, data: Data,
                               c: Column)
    requires Generated(cs, vk, vkMptr, proofCptr, meta, data)
    requires c in cs.permutationColumns && KnownColumn(c, data.places)
    ensures QueriesCovered(meta, data)
    ensures c.kind.AdviceColumn? ==>
              c.index < |data.adviceComms|
              && OpenedOnlyAs(Queries(meta, data), Opening(data.adviceComms[c.index], 0, ColumnEval(c, data.places)))
    ensures c.kind.FixedColumn? ==>
              c.index < |data.fixedComms|
              && OpenedOnlyAs(Queries(meta, data), Opening(data.fixedComms[c.index], 0, ColumnEval(c, data.places)))
    ensures c.kind.InstanceColumn? ==> ColumnEval(c, data.places) == Named(INSTANCE_EVAL_MPTR)
  {
    hide Generated, Queries, OpenedOnlyAs;
    DataCovers(cs, vk, vkMptr, proofCptr, meta, data);
    ColumnsOpened(meta, data);
    QueriedKeys(cs, vk, vkMptr, proofCptr, meta, data);
    match c.kind
    case AdviceColumn =>
      var i :| 0 <= i < |meta.adviceQueries| && meta.adviceQueries[i] == (c.index, 0);
      OpenedMeansOnly(cs, vk, vkMptr, proofCptr, meta, data, Opening(data.adviceComms[c.index], 0, ColumnEval(c, data.places)));
    case FixedColumn =>
      var i :| 0 <= i < |meta.fixedQueries| && meta.fixedQueries[i] == (c.index, 0);
      OpenedMeansOnly(cs, vk, vkMptr, proofCptr, meta, data, Opening(data.fixedComms[c.index], 0, ColumnEval(c, data.places)));
    case InstanceColumn =>
  }

  lemma QueriedKeys(cs: ConstraintSystem, vk: VerifyingKey, vkMptr: Ptr, proofCptr: Ptr, meta: Meta, data: Data)
    requires Generated(cs, vk, vkMptr, proofCptr, meta, data)
    ensures forall q :: q in data.places.places.advice ==> q in meta.adviceQueries
    ensures forall q :: q in data.places.places.fixed ==> q in meta.fixedQueries
    ensures data.places.places.instance_ == Named(INSTANCE_EVAL_MPTR)
  {
    GeneratedWellPlaced(cs, vk, vkMptr, proofCptr, meta, data);
    hide Generated, WordRange, NewEvalPtrs, NoDuplicates;
  }

  lemma ColumnsOpened(meta: Meta, data: Data)
    requires QueriesCovered(meta, data)
    ensures var qs, places := Queries(meta, data), data.places;
            && (forall i :: 0 <= i < |meta.adviceQueries| ==>
                  var q := meta.adviceQueries[i]; Opening(data.adviceComms[q.0], q.1, places.places.advice[q]) in qs)
            && (forall i :: 0 <= i < |meta.fixedQueries| ==>
                  var q := meta.fixedQueries[i]; Opening(data.fixedComms[q.0], q.1, places.places.fixed[q]) in qs)
            && (forall i :: 0 <= i < |meta.permutationColumns| ==>
                  var c := meta.permutationColumns[i]; Opening(data.permutationComms[c], 0, places.permutation[c]) in qs)
  {
    var a, f, p := AdviceOpenings(meta, data), FixedOpenings(meta, data), PermutationOpenings(meta, data);
    var qs := Queries(meta, data);
    assert forall o :: o in a || o in f || o in p ==> o in qs;
    hide Queries;
    forall i | 0 <= i < |meta.adviceQueries|
      ensures var q := meta.adviceQueries[i]; Opening(data.adviceComms[q.0], q.1, data.places.places.advice[q]) in qs
    {
      assert a[i] in a;
    }
    forall i | 0 <= i < |meta.fixedQueries|
      ensures var q := meta.fixedQueries[i]; Opening(data.fixedComms[q.0], q.1, data.places.places.fixed[q]) in qs
    {
      assert f[i] in f;
    }
    forall i | 0 <= i < |meta.permutationColumns|
      ensures var c := meta.permutationColumns[i]; Opening(data.permutationComms[c], 0, data.places.permutation[c]) in qs
    {
      assert p[i] in p;
    }
  }

  lemma ArgumentsOpened(meta: Meta, data: Data)
    requires QueriesCovered(meta, data)
    ensures var qs, zs := Queries(meta, data), data.places.permutationZs;
            forall i :: 0 <= i < |zs| ==>
              && Opening(data.permutationZComms[i], 0, zs[i].cur) in qs
              && Opening(data.permutationZComms[i], 1, zs[i].next) in qs
              && (i + 1 < |zs| ==> Opening(data.permutationZComms[i], meta.rotationLast, zs[i].last) in qs)
    ensures forall i :: 0 <= i < |data.places.lookups| ==>
              LookupOpened(data.lookupPermutedComms[i], data.lookupZComms[i], data.places.lookups[i], Queries(meta, data))
  {
    var zs, comms, last := data.places.permutationZs, data.permutationZComms, meta.rotationLast;
    var permuted, lzs, evals := data.lookupPermutedComms, data.lookupZComms, data.places.lookups;
    var qs := Queries(meta, data);
    assert forall o :: o in ZOpenings(comms, zs) ==> o in qs;
    assert forall o :: o in ZLastOpenings(comms, zs, last) ==> o in qs;
    assert forall o :: o in LookupOpenings(permuted, lzs, evals) ==> o in qs;
    hide Queries, ZOpenings, ZLastOpenings, LookupOpenings;
    forall i | 0 <= i < |zs|
      ensures Opening(comms[i], 0, zs[i].cur) in qs && Opening(comms[i], 1, zs[i].next) in qs
      ensures i + 1 < |zs| ==> Opening(comms[i], last, zs[i].last) in qs
    {
      ZsOpened(comms, zs, last, i);
    }
    forall i | 0 <= i < |evals|
      ensures LookupOpened(permuted[i], lzs[i], evals[i], qs)
    {
      LookupsOpened(permuted, lzs, evals, i);
    }
  }

  // -------- no commitment is opened twice at one rotation --------

  function Key(o: Opening): (EcPoint, int) {
    (o.comm, o.rot)
  }

  ghost predicate DistinctKeys(os: seq<Opening>) {
    forall i, j :: 0 <= i < j < |os| ==> Key(os[i]) != Key(os[j])
  }

  // The commitment is one of the n points from p on.
  ghost predicate PointWithin(c: EcPoint, p: Ptr, n: int)
    requires p.value.Integer?
  {
    c.x.loc == p.loc && c.x.value.Integer? && p.value.n <= c.x.value.n < p.value.n + 0x40 * n
  }

  lemma DistinctConcat(a: seq<Opening>, b: seq<Opening>)
    requires DistinctKeys(a) && DistinctKeys(b)
    requires forall x, y :: x in a && y in b ==> Key(x) != Key(y)
    ensures DistinctKeys(a + b)
  {
    forall i, j | 0 <= i < j < |a + b|
      ensures Key((a + b)[i]) != Key((a + b)[j])
    {
      if i < |a| <= j {
        assert (a + b)[i] in a && (a + b)[j] in b;
      }
    }
  }

  lemma {:induction false} ZsDistinct(comms: seq<EcPoint>, evals: seq<ZEvals>, p: Ptr)
    requires |comms| == |evals| && p.value.Integer?
    requires forall i :: 0 <= i < |comms| ==> comms[i] == PointAt(Plus(p, 2 * i))
    ensures DistinctKeys(ZOpenings(comms, evals))
    ensures forall o :: o in ZOpenings(comms, evals) ==> PointWithin(o.comm, p, |comms|) && o.rot >= 0
  {
    if evals != [] {
      var n := |evals| - 1;
      ZsDistinct(comms[..n], evals[..n], p);
      var pair := [Opening(comms[n], 0, evals[n].cur), Opening(comms[n], 1, evals[n].next)];
      assert forall o :: o in pair ==> o.comm == PointAt(Plus(p, 2 * n));
      DistinctConcat(ZOpenings(comms[..n], evals[..n]), pair);
    }
  }

  lemma {:induction false} ZLastDistinct(comms: seq<EcPoint>, evals: seq<ZEvals>, last: int, p: Ptr)
    requires |comms| == |evals| && p.value.Integer?
    requires forall i :: 0 <= i < |comms| ==> comms[i] == PointAt(Plus(p, 2 * i))
    ensures DistinctKeys(ZLastOpenings(comms, evals, last))
    ensures forall o :: o in ZLastOpenings(comms, evals, last) ==> PointWithin(o.comm, p, |comms| - 1) && o.rot == last
  {
    if |evals| >= 2 {
      var n := |evals| - 2;
      ZLastDistinct(comms[..n + 1], evals[..n + 1], last, p);
      var one := [Opening(comms[n], last, evals[n].last)];
      assert forall o :: o in one ==> o.comm == PointAt(Plus(p, 2 * n));
      DistinctConcat(one, ZLastOpenings(comms[..n + 1], evals[..n + 1], last));
    }
  }

  lemma {:induction false} LookupsDistinct(permuted: seq<(EcPoint, EcPoint)>, zs: seq<EcPoint>, evals: seq<LookupEvals>,
                                           p: Ptr, q: Ptr)
    requires |permuted| == |zs| == |evals| && p.value.Integer? && q.value.Integer?
    requires q.loc == p.loc && q.value.n >= p.value.n + 0x40 * (2 * |evals|)
    requires forall i :: 0 <= i < |evals| ==> permuted[i] == (PointAt(Plus(p, 4 * i)), PointAt(Plus(p, 4 * i + 2)))
    requires forall i :: 0 <= i < |evals| ==> zs[i] == PointAt(Plus(q, 2 * i))
    ensures DistinctKeys(LookupOpenings(permuted, zs, evals))
    ensures forall o :: o in LookupOpenings(permuted, zs, evals) ==>
              PointWithin(o.comm, p, 2 * |evals|) || PointWithin(o.comm, q, |evals|)
  {
    if evals != [] {
      var n := |evals| - 1;
      LookupsDistinct(permuted[..n], zs[..n], evals[..n], p, q);
      var five := [Opening(zs[n], 0, evals[n].z), Opening(permuted[n].0, 0, evals[n].pInput),
                   Opening(permuted[n].1, 0, evals[n].pTable), Opening(permuted[n].0, -1, evals[n].pInputPrev),
                   Opening(zs[n], 1, evals[n].zNext)];
      FiveDistinct(permuted[n], zs[n], evals[n], p, q, n, five);
      var init := LookupOpenings(permuted[..n], zs[..n], evals[..n]);
      assert LookupOpenings(permuted, zs, evals) == init + five;
      hide LookupOpenings;
      FiveApart(init, five, p, q, n);
      DistinctConcat(init, five);
    }
  }

  ghost predicate OneOfThree(c: EcPoint, p: Ptr, q: Ptr, n: nat)
    requires p.value.Integer? && q.value.Integer?
  {
    c == PointAt(Plus(p, 4 * n)) || c == PointAt(Plus(p, 4 * n + 2)) || c == PointAt(Plus(q, 2 * n))
  }

  lemma FiveDistinct(permuted: (EcPoint, EcPoint), z: EcPoint, v: LookupEvals, p: Ptr, q: Ptr, n: nat, five: seq<Opening>)
    requires p.value.Integer? && q.value.Integer? && q.value.n >= p.value.n + 0x40 * (2 * (n + 1))
    requires permuted == (PointAt(Plus(p, 4 * n)), PointAt(Plus(p, 4 * n + 2))) && z == PointAt(Plus(q, 2 * n))
    requires five == [Opening(z, 0, v.z), Opening(permuted.0, 0, v.pInput), Opening(permuted.1, 0, v.pTable),
                      Opening(permuted.0, -1, v.pInputPrev), Opening(z, 1, v.zNext)]
    ensures DistinctKeys(five) && forall o :: o in five ==> OneOfThree(o.comm, p, q, n)
  {
  }

  lemma FiveApart(init: seq<Opening>, five: seq<Opening>, p: Ptr, q: Ptr, n: nat)
    requires p.value.Integer? && q.value.Integer? && q.loc == p.loc && q.value.n >= p.value.n + 0x40 * (2 * (n + 1))
    requires forall o :: o in init ==> PointWithin(o.comm, p, 2 * n) || PointWithin(o.comm, q, n)
    requires forall o :: o in five ==> OneOfThree(o.comm, p, q, n)
    ensures forall x, y :: x in init && y in five ==> Key(x) != Key(y)
    ensures forall o :: o in init + five ==> PointWithin(o.comm, p, 2 * (n + 1)) || PointWithin(o.comm, q, n + 1)
  {
  }

  lemma {:induction false} PointMapAt(keys: seq<Column>, p: Ptr, i: nat)
    requires p.value.Integer? && NoDuplicates(keys) && i < |keys|
    ensures keys[i] in PointMap(keys, p) && PointMap(keys, p)[keys[i]] == PointAt(Plus(p, 2 * i))
  {
    var n := |keys| - 1;
    if i < n {
      PointMapAt(keys[..n], p, i);
    }
  }

  lemma AdviceDistinct(cs: ConstraintSystem, proofCptr: Ptr, meta: Meta, data: Data)
    requires Committed(cs, proofCptr, meta, data) && QueriesCovered(meta, data) && NoDuplicates(meta.adviceQueries)
    ensures DistinctKeys(AdviceOpenings(meta, data))
    ensures forall o :: o in AdviceOpenings(meta, data) ==> PointWithin(o.comm, proofCptr, |cs.advicePhase|)
  {
    var phase, comms, qs := cs.advicePhase, data.adviceComms, meta.adviceQueries;
    Remapping.PositionsArePermutation(phase);
    forall i | 0 <= i < |phase|
      ensures PointWithin(comms[i], proofCptr, |phase|)
    {
      assert Remapping.Positions(phase)[i] in Remapping.Positions(phase);
    }
    forall i, j | 0 <= i < j < |phase|
      ensures comms[i] != comms[j]
    {
      assert Remapping.Positions(phase)[i] != Remapping.Positions(phase)[j];
    }
    hide Committed, PointWithin;
    ApartByQuery(AdviceOpenings(meta, data), qs, comms);
  }

  // Openings of duplicate-free queries against distinct commitments.
  lemma ApartByQuery(os: seq<Opening>, qs: seq<Query>, comms: seq<EcPoint>)
    requires NoDuplicates(qs) && |os| == |qs| && (forall i :: 0 <= i < |qs| ==> qs[i].0 < |comms|)
    requires forall i, j :: 0 <= i < j < |comms| ==> comms[i] != comms[j]
    requires forall i :: 0 <= i < |qs| ==> Key(os[i]) == (comms[qs[i].0], qs[i].1)
    ensures DistinctKeys(os)
  {
    forall i, j | 0 <= i < j < |os|
      ensures Key(os[i]) != Key(os[j])
    {
      assert qs[i] != qs[j];
      if qs[i].0 < qs[j].0 {
        assert comms[qs[i].0] != comms[qs[j].0];
      } else if qs[j].0 < qs[i].0 {
        assert comms[qs[j].0] != comms[qs[i].0];
      }
    }
  }

  lemma FixedDistinct(meta: Meta, data: Data, p: Ptr)
    requires QueriesCovered(meta, data) && NoDuplicates(meta.fixedQueries) && p.value.Integer?
    requires data.fixedComms == PointRange(p, meta.numFixeds)
    ensures DistinctKeys(FixedOpenings(meta, data))
    ensures forall o :: o in FixedOpenings(meta, data) ==> PointWithin(o.comm, p, meta.numFixeds)
  {
    ApartByQuery(FixedOpenings(meta, data), meta.fixedQueries, data.fixedComms);
  }

  lemma PermutationDistinct(meta: Meta, data: Data, p: Ptr)
    requires QueriesCovered(meta, data) && NoDuplicates(meta.permutationColumns) && p.value.Integer?
    requires data.permutationComms == PointMap(meta.permutationColumns, p)
    ensures DistinctKeys(PermutationOpenings(meta, data))
    ensures forall o :: o in PermutationOpenings(meta, data) ==> PointWithin(o.comm, p, |meta.permutationColumns|)
  {
    var os := PermutationOpenings(meta, data);
    forall i | 0 <= i < |os|
      ensures os[i].comm == PointAt(Plus(p, 2 * i))
    {
      PointMapAt(meta.permutationColumns, p, i);
    }
  }

  // -------- the groups of openings do not overlap --------

  // Where the groups of commitments start.
  datatype Bounds = Bounds(permuted: int, zs: int, lookupZs: int, random: int, permutation: int)

  // Which group of openings a commitment and a rotation belong to, in the order of the queries.
  function Rank(k: (EcPoint, int), b: Bounds): nat {
    var x := k.0.x;
    if !x.value.Integer? then 6
    else if x.loc.Memory? then (if x.value.n < b.permutation then 4 else 5)
    else if x.value.n < b.permuted then 0
    else if x.value.n < b.zs then 3
    else if x.value.n < b.lookupZs then (if k.1 >= 0 then 1 else 2)
    else if x.value.n < b.random then 3
    else 7
  }

  ghost predicate Ranked(os: seq<Opening>, b: Bounds, r: nat) {
    forall o :: o in os ==> Rank(Key(o), b) == r
  }

  ghost predicate RankedBelow(os: seq<Opening>, b: Bounds, r: nat) {
    forall o :: o in os ==> Rank(Key(o), b) < r
  }

  lemma RankConcat(os: seq<Opening>, next: seq<Opening>, b: Bounds, r: nat)
    requires DistinctKeys(os) && RankedBelow(os, b, r) && DistinctKeys(next) && Ranked(next, b, r)
    ensures DistinctKeys(os + next) && RankedBelow(os + next, b, r + 1)
  {
    hide Rank;
    DistinctConcat(os, next);
  }

  lemma QueriesByRank(meta: Meta, data: Data, b: Bounds)
    requires QueriesCovered(meta, data)
    requires var a := AdviceOpenings(meta, data); DistinctKeys(a) && Ranked(a, b, 0)
    requires var z := ZOpenings(data.permutationZComms, data.places.permutationZs); DistinctKeys(z) && Ranked(z, b, 1)
    requires var l := ZLastOpenings(data.permutationZComms, data.places.permutationZs, meta.rotationLast);
             DistinctKeys(l) && Ranked(l, b, 2)
    requires var l := LookupOpenings(data.lookupPermutedComms, data.lookupZComms, data.places.lookups);
             DistinctKeys(l) && Ranked(l, b, 3)
    requires var f := FixedOpenings(meta, data); DistinctKeys(f) && Ranked(f, b, 4)
    requires var p := PermutationOpenings(meta, data); DistinctKeys(p) && Ranked(p, b, 5)
    requires Rank((data.computedQuotientComm, 0), b) == 6 && Rank((data.randomComm, 0), b) == 7
    ensures DistinctKeys(Queries(meta, data))
  {
    hide Rank, AdviceOpenings, ZOpenings, ZLastOpenings, LookupOpenings, FixedOpenings, PermutationOpenings;
    var a, z := AdviceOpenings(meta, data), ZOpenings(data.permutationZComms, data.places.permutationZs);
    var zl := ZLastOpenings(data.permutationZComms, data.places.permutationZs, meta.rotationLast);
    var l := LookupOpenings(data.lookupPermutedComms, data.lookupZComms, data.places.lookups);
    var f, p := FixedOpenings(meta, data), PermutationOpenings(meta, data);
    var q, r := Opening(data.computedQuotientComm, 0, data.computedQuotientEval), Opening(data.randomComm, 0, data.randomEval);
    assert Queries(meta, data) == a + z + zl + l + f + p + [q] + [r];
    assert RankedBelow(a, b, 1) && Ranked([q], b, 6) && Ranked([r], b, 7) && DistinctKeys([q]) && DistinctKeys([r]);
    hide Queries, DistinctKeys, Ranked, RankedBelow;
    RankConcat(a, z, b, 1);
    RankConcat(a + z, zl, b, 2);
    RankConcat(a + z + zl, l, b, 3);
    RankConcat(a + z + zl + l, f, b, 4);
    RankConcat(a + z + zl + l + f, p, b, 5);
    RankConcat(a + z + zl + l + f + p, [q], b, 6);
    RankConcat(a + z + zl + l + f + p + [q], [r], b, 7);
  }

  // What the verifying key places, beside the proof.
  ghost predicate KeyPlaced(meta: Meta, data: Data, vk: VerifyingKey, vkMptr: Ptr) {
    && vkMptr.value.Integer? && vkMptr.loc == Memory
    && data.fixedComms == PointRange(Plus(vkMptr, vk.numConstants), meta.numFixeds)
    && data.permutationComms
       == PointMap(meta.permutationColumns, Plus(Plus(vkMptr, vk.numConstants), 2 * vk.numFixedComms))
    && data.computedQuotientComm.x == Named(QUOTIENT_X_MPTR)
    && NoDuplicates(meta.adviceQueries) && NoDuplicates(meta.fixedQueries) && NoDuplicates(meta.permutationColumns)
    && |data.places.permutationZs| == meta.numPermutationZs
    && meta.rotationLast < 0
  }

  lemma GeneratedKeyPlaced(cs: ConstraintSystem, vk: VerifyingKey, vkMptr: Ptr, proofCptr: Ptr, meta: Meta, data: Data)
    requires Generated(cs, vk, vkMptr, proofCptr, meta, data) && vkMptr.loc == Memory
    ensures KeyPlaced(meta, data, vk, vkMptr) && meta.numFixeds == cs.numFixed
  {
    hide NewEvalPtrs, NoDuplicates, RotationList, NumChunks, PointMap, PointRange, Remapping.Counts, Remapping.Positions;
  }

  function BoundsOf(cs: ConstraintSystem, meta: Meta, vk: VerifyingKey, vkMptr: Ptr, proofCptr: Ptr): Bounds
    requires vkMptr.value.Integer? && proofCptr.value.Integer?
  {
    var p := proofCptr.value.n + 0x40 * |cs.advicePhase|;
    var z := p + 0x40 * (2 * cs.numLookups);
    var l := z + 0x40 * meta.numPermutationZs;
    Bounds(p, z, l, l + 0x40 * cs.numLookups, vkMptr.value.n + 0x20 * vk.numConstants + 0x40 * vk.numFixedComms)
  }

  lemma ProofRanks(cs: ConstraintSystem, vk: VerifyingKey, vkMptr: Ptr, proofCptr: Ptr, meta: Meta, data: Data)
    requires Committed(cs, proofCptr, meta, data) && KeyPlaced(meta, data, vk, vkMptr) && QueriesCovered(meta, data)
    requires proofCptr.loc == Calldata
    ensures var b := BoundsOf(cs, meta, vk, vkMptr, proofCptr);
            var a, z := AdviceOpenings(meta, data), ZOpenings(data.permutationZComms, data.places.permutationZs);
            var l := ZLastOpenings(data.permutationZComms, data.places.permutationZs, meta.rotationLast);
            && DistinctKeys(a) && Ranked(a, b, 0) && DistinctKeys(z) && Ranked(z, b, 1) && DistinctKeys(l) && Ranked(l, b, 2)
  {
    hide AdviceOpenings, ZOpenings, ZLastOpenings, DistinctKeys, NoDuplicates, Remapping.Positions;
    var n, l := |cs.advicePhase|, cs.numLookups;
    var p := Plus(Plus(proofCptr, 2 * n), 2 * (2 * l));
    AdviceDistinct(cs, proofCptr, meta, data);
    ZsDistinct(data.permutationZComms, data.places.permutationZs, p);
    ZLastDistinct(data.permutationZComms, data.places.permutationZs, meta.rotationLast, p);
  }

  lemma LookupRanks(cs: ConstraintSystem, vk: VerifyingKey, vkMptr: Ptr, proofCptr: Ptr, meta: Meta, data: Data)
    requires Committed(cs, proofCptr, meta, data) && KeyPlaced(meta, data, vk, vkMptr) && QueriesCovered(meta, data)
    requires proofCptr.loc == Calldata
    ensures var b := BoundsOf(cs, meta, vk, vkMptr, proofCptr);
            var l := LookupOpenings(data.lookupPermutedComms, data.lookupZComms, data.places.lookups);
            && DistinctKeys(l) && Ranked(l, b, 3)
            && Rank((data.computedQuotientComm, 0), b) == 6 && Rank((data.randomComm, 0), b) == 7
  {
    hide LookupOpenings, DistinctKeys, NoDuplicates, Remapping.Positions;
    var n, l, z := |cs.advicePhase|, cs.numLookups, meta.numPermutationZs;
    var p := Plus(proofCptr, 2 * n);
    LookupsDistinct(data.lookupPermutedComms, data.lookupZComms, data.places.lookups, p, Plus(p, 2 * (2 * l + z)));
  }

  lemma KeyRanks(cs: ConstraintSystem, vk: VerifyingKey, vkMptr: Ptr, proofCptr: Ptr, meta: Meta, data: Data)
    requires KeyPlaced(meta, data, vk, vkMptr) && QueriesCovered(meta, data)
    requires proofCptr.value.Integer? && meta.numFixeds <= vk.numFixedComms
    ensures var b := BoundsOf(cs, meta, vk, vkMptr, proofCptr);
            var f, p := FixedOpenings(meta, data), PermutationOpenings(meta, data);
            && DistinctKeys(f) && Ranked(f, b, 4) && DistinctKeys(p) && Ranked(p, b, 5)
  {
    hide FixedOpenings, PermutationOpenings, DistinctKeys, NoDuplicates;
    var f := Plus(vkMptr, vk.numConstants);
    FixedDistinct(meta, data, f);
    PermutationDistinct(meta, data, Plus(f, 2 * vk.numFixedComms));
  }

  // No commitment is opened twice at the same rotation.
  lemma OpeningsAreDistinct(cs: ConstraintSystem, vk: VerifyingKey, vkMptr: Ptr, proofCptr: Ptr, meta: Meta, data: Data)
    requires Generated(cs, vk, vkMptr, proofCptr, meta, data) && cs.numFixed <= vk.numFixedComms
    requires vkMptr.loc == Memory && proofCptr.loc == Calldata
    ensures QueriesCovered(meta, data) && DistinctKeys(Queries(meta, data))
  {
    GeneratedCommitted(cs, vk, vkMptr, proofCptr, meta, data);
    GeneratedKeyPlaced(cs, vk, vkMptr, proofCptr, meta, data);
    DataCovers(cs, vk, vkMptr, proofCptr, meta, data);
    assert proofCptr.value.Integer? && vkMptr.value.Integer?;
    hide Generated, Committed, KeyPlaced, QueriesCovered, Queries, DistinctKeys, Ranked, Rank, BoundsOf;
    ProofRanks(cs, vk, vkMptr, proofCptr, meta, data);
    LookupRanks(cs, vk, vkMptr, proofCptr, meta, data);
    KeyRanks(cs, vk, vkMptr, proofCptr, meta, data);
    QueriesByRank(meta, data, BoundsOf(cs, meta, vk, vkMptr, proofCptr));
  }
}
