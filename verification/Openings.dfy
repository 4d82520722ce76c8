/** The opened evaluations are exactly the evaluation words of the proof. */
module Openings {
  import opened Yul
  import opened Evaluation
  import opened Constraints
  import opened Layout
  import Remapping

  function Evals(os: seq<Opening>): (s: seq<Ptr>)
    ensures |s| == |os|
  {
    seq(|os|, i requires 0 <= i < |os| => os[i].eval)
  }

  lemma EvalsConcat(a: seq<Opening>, b: seq<Opening>)
    ensures Evals(a + b) == Evals(a) + Evals(b)
  {
  }

  lemma WordRangeConcat(p: Ptr, m: nat, n: nat)
    requires p.value.Integer?
    ensures WordRange(p, m + n) == WordRange(p, m) + WordRange(Plus(p, m), n)
  {
  }

  lemma MultisetStep(a: seq<Ptr>, b: seq<Ptr>, w: seq<Ptr>, pair: seq<Ptr>, last: seq<Ptr>)
    requires multiset(a) + multiset(b) == multiset(w)
    ensures multiset(a + pair) + multiset(last + b) == multiset(w + (last + pair))
  {
  }

  // The first two words of every polynomial, and the third of all but the last.
  lemma {:induction false} ZWords(p: Ptr, comms: seq<EcPoint>, n: nat, rotationLast: int)
    requires p.value.Integer? && n >= 1 && |comms| == n
    ensures multiset(Evals(ZOpenings(comms, ZPlaces(p, n))))
            + multiset(Evals(ZLastOpenings(comms, ZPlaces(p, n), rotationLast)))
            == multiset(WordRange(p, 3 * n - 1))
  {
    hide Plus, ZOpenings, ZLastOpenings, ZPlaces, WordRange, Evals;
    if n == 1 {
      OneZ(p, comms, rotationLast);
    } else {
      ZWords(p, comms[..n - 1], n - 1, rotationLast);
      ZStep(p, comms, n);
      ZLastStep(p, comms, n, rotationLast);
      WordsStep(p, n);
      MultisetStep(Evals(ZOpenings(comms[..n - 1], ZPlaces(p, n - 1))),
                   Evals(ZLastOpenings(comms[..n - 1], ZPlaces(p, n - 1), rotationLast)), WordRange(p, 3 * n - 4),
                   [Plus(p, 3 * n - 3), Plus(p, 3 * n - 2)], [Plus(p, 3 * n - 4)]);
    }
  }

  lemma OneZ(p: Ptr, comms: seq<EcPoint>, rotationLast: int)
    requires p.value.Integer? && |comms| == 1
    ensures Evals(ZOpenings(comms, ZPlaces(p, 1))) == WordRange(p, 2)
    ensures Evals(ZLastOpenings(comms, ZPlaces(p, 1), rotationLast)) == []
  {
    ZStep(p, comms, 1);
    assert ZOpenings(comms[..0], ZPlaces(p, 0)) == [];
  }

  lemma WordsStep(p: Ptr, n: nat)
    requires p.value.Integer? && n >= 2
    ensures WordRange(p, 3 * n - 1)
            == WordRange(p, 3 * n - 4) + ([Plus(p, 3 * n - 4)] + [Plus(p, 3 * n - 3), Plus(p, 3 * n - 2)])
  {
  }

  lemma ZStep(p: Ptr, comms: seq<EcPoint>, n: nat)
    requires p.value.Integer? && n >= 1 && |comms| == n
    ensures Evals(ZOpenings(comms, ZPlaces(p, n)))
            == Evals(ZOpenings(comms[..n - 1], ZPlaces(p, n - 1))) + [Plus(p, 3 * n - 3), Plus(p, 3 * n - 2)]
  {
    var zs := ZPlaces(p, n);
    assert zs[..n - 1] == ZPlaces(p, n - 1);
    EvalsConcat(ZOpenings(comms[..n - 1], zs[..n - 1]),
                [Opening(comms[n - 1], 0, zs[n - 1].cur), Opening(comms[n - 1], 1, zs[n - 1].next)]);
  }

  lemma ZLastStep(p: Ptr, comms: seq<EcPoint>, n: nat, rotationLast: int)
    requires p.value.Integer? && n >= 2 && |comms| == n
    ensures Evals(ZLastOpenings(comms, ZPlaces(p, n), rotationLast))
            == [Plus(p, 3 * n - 4)] + Evals(ZLastOpenings(comms[..n - 1], ZPlaces(p, n - 1), rotationLast))
  {
    var zs := ZPlaces(p, n);
    assert zs[..n - 1] == ZPlaces(p, n - 1);
    EvalsConcat([Opening(comms[n - 2], rotationLast, zs[n - 2].last)],
                ZLastOpenings(comms[..n - 1], zs[..n - 1], rotationLast));
  }

  lemma {:induction false} LookupWords(p: Ptr, permuted: seq<(EcPoint, EcPoint)>, zs: seq<EcPoint>, n: nat)
    requires p.value.Integer? && |permuted| == |zs| == n
    ensures multiset(Evals(LookupOpenings(permuted, zs, LookupPlaces(p, n)))) == multiset(WordRange(p, 5 * n))
  {
    hide Plus;
    if n == 0 {
      assert WordRange(p, 0) == [];
    } else {
      LookupWords(p, permuted[..n - 1], zs[..n - 1], n - 1);
      LookupStep(p, permuted, zs, n);
      LookupRangeStep(p, n);
      Reorder(Plus(p, 5 * n - 5), Plus(p, 5 * n - 4), Plus(p, 5 * n - 3), Plus(p, 5 * n - 2), Plus(p, 5 * n - 1));
    }
  }

  lemma Reorder(a: Ptr, b: Ptr, c: Ptr, d: Ptr, e: Ptr)
    ensures multiset([a, c, e, d, b]) == multiset([a, b, c, d, e])
  {
    var x, y := [a, c, e, d, b], [a, b, c, d, e];
    assert x == [a] + ([c] + ([e] + ([d] + [b]))) && y == [a] + ([b] + ([c] + ([d] + [e])));
    ReorderParts(x, y, [a], [b], [c], [d], [e]);
  }

  lemma ReorderParts(x: seq<Ptr>, y: seq<Ptr>, a: seq<Ptr>, b: seq<Ptr>, c: seq<Ptr>, d: seq<Ptr>, e: seq<Ptr>)
    requires x == a + (c + (e + (d + b))) && y == a + (b + (c + (d + e)))
    ensures multiset(x) == multiset(y)
  {
  }

  lemma LookupRangeStep(p: Ptr, n: nat)
    requires p.value.Integer? && n >= 1
    ensures WordRange(p, 5 * n) == WordRange(p, 5 * (n - 1))
            + [Plus(p, 5 * n - 5), Plus(p, 5 * n - 4), Plus(p, 5 * n - 3), Plus(p, 5 * n - 2), Plus(p, 5 * n - 1)]
  {
  }

  lemma LookupStep(p: Ptr, permuted: seq<(EcPoint, EcPoint)>, zs: seq<EcPoint>, n: nat)
    requires p.value.Integer? && |permuted| == |zs| == n >= 1
    ensures Evals(LookupOpenings(permuted, zs, LookupPlaces(p, n)))
            == Evals(LookupOpenings(permuted[..n - 1], zs[..n - 1], LookupPlaces(p, n - 1)))
               + [Plus(p, 5 * n - 5), Plus(p, 5 * n - 3), Plus(p, 5 * n - 1), Plus(p, 5 * n - 2), Plus(p, 5 * n - 4)]
  {
    var evals := LookupPlaces(p, n);
    assert evals[..n - 1] == LookupPlaces(p, n - 1);
    var v := evals[n - 1];
    assert v == LookupEvals(Plus(p, 5 * n - 5), Plus(p, 5 * n - 4), Plus(p, 5 * n - 3), Plus(p, 5 * n - 2), Plus(p, 5 * n - 1));
    hide Plus, LookupPlaces;
    var init := LookupOpenings(permuted[..n - 1], zs[..n - 1], evals[..n - 1]);
    var five := [Opening(zs[n - 1], 0, v.z), Opening(permuted[n - 1].0, 0, v.pInput),
                 Opening(permuted[n - 1].1, 0, v.pTable), Opening(permuted[n - 1].0, -1, v.pInputPrev),
                 Opening(zs[n - 1], 1, v.zNext)];
    assert LookupOpenings(permuted, zs, evals) == init + five;
    hide LookupOpenings;
    EvalsConcat(init, five);
    assert Evals(five) == [v.z, v.pInput, v.pTable, v.pInputPrev, v.zNext];
  }

  lemma CollectedWords<K>(keys: seq<K>, values: seq<Ptr>)
    requires |keys| == |values| && NoDuplicates(keys)
    ensures forall i :: 0 <= i < |keys| ==> keys[i] in Collect(keys, values) && Collect(keys, values)[keys[i]] == values[i]
  {
    forall i | 0 <= i < |keys|
      ensures keys[i] in Collect(keys, values) && Collect(keys, values)[keys[i]] == values[i]
    {
      CollectAt(keys, values, i);
    }
  }

  lemma {:induction false} PointMapKeys(keys: seq<Column>, p: Ptr)
    requires p.value.Integer?
    ensures forall k :: k in keys ==> k in PointMap(keys, p)
  {
    if keys != [] {
      PointMapKeys(keys[..|keys| - 1], p);
      assert keys == keys[..|keys| - 1] + [keys[|keys| - 1]];
    }
  }

  lemma ZsPositive(n: nat, k: nat)
    requires n > 0 && k > 0
    ensures NumChunks(n, k) >= 1
  {
  }

  // The metadata and the data that the generator derives from a constraint system.
  ghost predicate Generated(cs: ConstraintSystem, vk: VerifyingKey, vkMptr: Ptr, proofCptr: Ptr, meta: Meta, data: Data) {
    && ValidSystem(cs) && vkMptr.value.Integer? && proofCptr.value.Integer?
    && meta == MetaOf(cs)
    && data == NewData(meta, vk, vkMptr, proofCptr)
  }

  function ChallengePtr(vk: VerifyingKey, vkMptr: Ptr): (p: Ptr)
    requires vkMptr.value.Integer?
    ensures p.value.Integer?
  {
    Plus(Plus(Plus(vkMptr, vk.numConstants), 2 * vk.numFixedComms), 2 * vk.numPermutationComms)
  }

  // What the rest of this module needs to know about generated data.
  ghost predicate WellPlaced(meta: Meta, data: Data, challengeMptr: Ptr) {
    && challengeMptr.value.Integer? && data.evalCptr.value.Integer? && meta.numPermutationZs >= 1
    && data.places == NewPlaces(meta, challengeMptr, data.evalCptr)
    && data.randomEval == NewEvalPtrs(meta, data.evalCptr).random
    && data.computedQuotientEval == Named(QUOTIENT_EVAL_MPTR)
    && meta.numEvals == |meta.adviceQueries| + |meta.fixedQueries| + 1 + |meta.permutationColumns|
                        + (3 * meta.numPermutationZs - 1) + 5 * meta.numLookupZs
    && NoDuplicates(meta.adviceQueries) && NoDuplicates(meta.fixedQueries) && NoDuplicates(meta.permutationColumns)
  }

  lemma GeneratedWellPlaced(cs: ConstraintSystem, vk: VerifyingKey, vkMptr: Ptr, proofCptr: Ptr, meta: Meta, data: Data)
    requires Generated(cs, vk, vkMptr, proofCptr, meta, data)
    ensures vkMptr.value.Integer? && WellPlaced(meta, data, ChallengePtr(vk, vkMptr))
  {
    hide NewPlaces, NewEvalPtrs, NoDuplicates, NumChunks;
    ZsPositive(|cs.permutationColumns|, cs.degree - 2);
  }

  lemma DataCovers(cs: ConstraintSystem, vk: VerifyingKey, vkMptr: Ptr, proofCptr: Ptr, meta: Meta, data: Data)
    requires Generated(cs, vk, vkMptr, proofCptr, meta, data)
    ensures QueriesCovered(meta, data)
    ensures |data.places.permutationZs| == meta.numPermutationZs && |data.places.lookups| == meta.numLookupZs
  {
    PointMapKeys(meta.permutationColumns, Plus(Plus(vkMptr, vk.numConstants), 2 * vk.numFixedComms));
    forall i | 0 <= i < |meta.adviceQueries|
      ensures meta.adviceQueries[i].0 < |data.adviceComms| && meta.adviceQueries[i] in data.places.places.advice
    {
      assert meta.adviceQueries[i] in cs.adviceQueries;
    }
    forall i | 0 <= i < |meta.fixedQueries|
      ensures meta.fixedQueries[i].0 < |data.fixedComms| && meta.fixedQueries[i] in data.places.places.fixed
    {
      assert meta.fixedQueries[i] in cs.fixedQueries;
    }
    forall i | 0 <= i < |meta.permutationColumns|
      ensures meta.permutationColumns[i] in data.permutationComms
      ensures meta.permutationColumns[i] in data.places.permutation
    {
      assert meta.permutationColumns[i] in meta.permutationColumns;
    }
  }

  // The proof has one word for every evaluation, and they start right behind the quotient
  // commitments and end where the opening proof begins.
  lemma ProofExtent(cs: ConstraintSystem, vk: VerifyingKey, vkMptr: Ptr, proofCptr: Ptr, meta: Meta, data: Data,
                    scheme: Scheme)
    requires Generated(cs, vk, vkMptr, proofCptr, meta, data)
    ensures data.evalCptr.value.Integer? && data.wCptr == Plus(data.evalCptr, meta.numEvals)
    ensures ProofLen(meta, scheme) == data.wCptr.value.n - proofCptr.value.n + BatchOpenProofLen(meta, scheme)
  {
    ZsPositive(|cs.permutationColumns|, cs.degree - 2);
    Remapping.CountsSum(cs.advicePhase, MaxOf(cs.advicePhase) + 1);
    SumOfAdvices(meta);
    hide BatchOpenProofLen, NumAdvices, NoDuplicates, NewPlaces, RotationList;
  }

  lemma SumOfAdvices(meta: Meta)
    ensures Remapping.SumOf(NumAdvices(meta))
            == Remapping.SumOf(meta.numUserAdvices) + meta.numLookupPermuteds
               + meta.numPermutationZs + meta.numLookupZs + 1 + meta.numQuotients
  {
    var a := meta.numUserAdvices;
    var b := if meta.numLookupPermuteds != 0 then a + [meta.numLookupPermuteds] else a;
    var z := meta.numPermutationZs + meta.numLookupZs + 1;
    assert NumAdvices(meta) == b + [z] + [meta.numQuotients];
    SumSnoc(b + [z], meta.numQuotients);
    SumSnoc(b, z);
    if meta.numLookupPermuteds != 0 {
      SumSnoc(a, meta.numLookupPermuteds);
    }
  }

  lemma SumSnoc(s: seq<nat>, x: nat)
    ensures Remapping.SumOf(s + [x]) == Remapping.SumOf(s) + x
  {
    assert (s + [x])[..|s|] == s;
  }

  lemma AdviceWords(meta: Meta, data: Data, start: Ptr)
    requires start.value.Integer? && NoDuplicates(meta.adviceQueries) && QueriesCovered(meta, data)
    requires data.places.places.advice == Collect(meta.adviceQueries, WordRange(start, |meta.adviceQueries|))
    ensures Evals(AdviceOpenings(meta, data)) == WordRange(start, |meta.adviceQueries|)
  {
    hide Collect;
    CollectedWords(meta.adviceQueries, WordRange(start, |meta.adviceQueries|));
  }

  lemma FixedWords(meta: Meta, data: Data, start: Ptr)
    requires start.value.Integer? && NoDuplicates(meta.fixedQueries) && QueriesCovered(meta, data)
    requires data.places.places.fixed == Collect(meta.fixedQueries, WordRange(start, |meta.fixedQueries|))
    ensures Evals(FixedOpenings(meta, data)) == WordRange(start, |meta.fixedQueries|)
  {
    hide Collect;
    CollectedWords(meta.fixedQueries, WordRange(start, |meta.fixedQueries|));
  }

  lemma PermutationWords(meta: Meta, data: Data, start: Ptr)
    requires start.value.Integer? && NoDuplicates(meta.permutationColumns) && QueriesCovered(meta, data)
    requires data.places.permutation == Collect(meta.permutationColumns, WordRange(start, |meta.permutationColumns|))
    ensures Evals(PermutationOpenings(meta, data)) == WordRange(start, |meta.permutationColumns|)
  {
    hide Collect;
    CollectedWords(meta.permutationColumns, WordRange(start, |meta.permutationColumns|));
  }

  lemma EvalsOfQueries(meta: Meta, data: Data)
    requires QueriesCovered(meta, data)
    ensures multiset(Evals(Queries(meta, data)))
            == multiset(Evals(AdviceOpenings(meta, data)))
               + multiset(Evals(ZOpenings(data.permutationZComms, data.places.permutationZs)))
               + multiset(Evals(ZLastOpenings(data.permutationZComms, data.places.permutationZs, meta.rotationLast)))
               + multiset(Evals(LookupOpenings(data.lookupPermutedComms, data.lookupZComms, data.places.lookups)))
               + multiset(Evals(FixedOpenings(meta, data)))
               + multiset(Evals(PermutationOpenings(meta, data)))
               + multiset([data.computedQuotientEval]) + multiset([data.randomEval])
  {
    var a, b := AdviceOpenings(meta, data), ZOpenings(data.permutationZComms, data.places.permutationZs);
    var c := ZLastOpenings(data.permutationZComms, data.places.permutationZs, meta.rotationLast);
    var d := LookupOpenings(data.lookupPermutedComms, data.lookupZComms, data.places.lookups);
    var e, f := FixedOpenings(meta, data), PermutationOpenings(meta, data);
    var g := [Opening(data.computedQuotientComm, 0, data.computedQuotientEval), Opening(data.randomComm, 0, data.randomEval)];
    assert Queries(meta, data) == a + b + c + d + e + f + g;
    hide Queries, AdviceOpenings, ZOpenings, ZLastOpenings, LookupOpenings, FixedOpenings, PermutationOpenings, QueriesCovered;
    EvalsConcat(a, b);
    EvalsConcat(a + b, c);
    EvalsConcat(a + b + c, d);
    EvalsConcat(a + b + c + d, e);
    EvalsConcat(a + b + c + d + e, f);
    EvalsConcat(a + b + c + d + e + f, g);
    assert Evals(g) == [data.computedQuotientEval] + [data.randomEval];
    hide Evals;
  }

  lemma WordsOfProof(meta: Meta, p: Ptr)
    requires p.value.Integer? && meta.numPermutationZs >= 1
    ensures var e := NewEvalPtrs(meta, p);
            var a, f, c := |meta.adviceQueries|, |meta.fixedQueries|, |meta.permutationColumns|;
            var z, l := 3 * meta.numPermutationZs - 1, 5 * meta.numLookupZs;
            WordRange(p, a + f + 1 + c + z + l)
            == WordRange(e.advice, a) + WordRange(e.fixed, f) + [e.random] + WordRange(e.permutation, c)
               + WordRange(e.z, z) + WordRange(e.lookup, l)
  {
    var a, f, c := |meta.adviceQueries|, |meta.fixedQueries|, |meta.permutationColumns|;
    var z, l := 3 * meta.numPermutationZs - 1, 5 * meta.numLookupZs;
    WordRangeConcat(p, a, f);
    WordRangeConcat(p, a + f, 1);
    WordRangeConcat(p, a + f + 1, c);
    WordRangeConcat(p, a + f + 1 + c, z);
    WordRangeConcat(p, a + f + 1 + c + z, l);
    assert WordRange(Plus(p, a + f), 1) == [Plus(p, a + f)];
    hide WordRange;
  }

  lemma Regroup(a: seq<Ptr>, y: seq<Ptr>, z: seq<Ptr>, w: seq<Ptr>, k: seq<Ptr>, l: seq<Ptr>, f: seq<Ptr>, c: seq<Ptr>,
                q: seq<Ptr>, r: seq<Ptr>)
    requires multiset(y) + multiset(z) == multiset(w) && multiset(k) == multiset(l)
    ensures multiset(a) + multiset(y) + multiset(z) + multiset(k) + multiset(f) + multiset(c) + multiset(q) + multiset(r)
            == multiset(a + f + r + c + w + l) + multiset(q)
  {
  }

  lemma PlacedWords(meta: Meta, data: Data, challengeMptr: Ptr)
    requires WellPlaced(meta, data, challengeMptr) && QueriesCovered(meta, data)
    ensures var e := NewEvalPtrs(meta, data.evalCptr);
            && Evals(AdviceOpenings(meta, data)) == WordRange(e.advice, |meta.adviceQueries|)
            && Evals(FixedOpenings(meta, data)) == WordRange(e.fixed, |meta.fixedQueries|)
            && Evals(PermutationOpenings(meta, data)) == WordRange(e.permutation, |meta.permutationColumns|)
  {
    var e := NewEvalPtrs(meta, data.evalCptr);
    hide QueriesCovered, Collect, Evals, WordRange, NoDuplicates, NewEvalPtrs;
    AdviceWords(meta, data, e.advice);
    FixedWords(meta, data, e.fixed);
    PermutationWords(meta, data, e.permutation);
  }

  lemma PlacedShapes(meta: Meta, data: Data, challengeMptr: Ptr)
    requires WellPlaced(meta, data, challengeMptr) && QueriesCovered(meta, data)
    ensures data.evalCptr.value.Integer? && meta.numPermutationZs >= 1
    ensures data.places.permutationZs == ZPlaces(NewEvalPtrs(meta, data.evalCptr).z, meta.numPermutationZs)
    ensures data.places.lookups == LookupPlaces(NewEvalPtrs(meta, data.evalCptr).lookup, meta.numLookupZs)
    ensures |data.permutationZComms| == meta.numPermutationZs
    ensures |data.lookupPermutedComms| == |data.lookupZComms| == meta.numLookupZs
  {
    hide Collect, WordRange, NoDuplicates, NewEvalPtrs;
  }

  lemma PlacedArguments(meta: Meta, data: Data, challengeMptr: Ptr)
    requires WellPlaced(meta, data, challengeMptr) && QueriesCovered(meta, data)
    ensures var e := NewEvalPtrs(meta, data.evalCptr);
            && multiset(Evals(ZOpenings(data.permutationZComms, data.places.permutationZs)))
               + multiset(Evals(ZLastOpenings(data.permutationZComms, data.places.permutationZs, meta.rotationLast)))
               == multiset(WordRange(e.z, 3 * meta.numPermutationZs - 1))
            && multiset(Evals(LookupOpenings(data.lookupPermutedComms, data.lookupZComms, data.places.lookups)))
               == multiset(WordRange(e.lookup, 5 * meta.numLookupZs))
  {
    hide Evals, WordRange, NewEvalPtrs, ZOpenings, ZLastOpenings, LookupOpenings, QueriesCovered, WellPlaced;
    hide ZPlaces, LookupPlaces;
    PlacedShapes(meta, data, challengeMptr);
    var e := NewEvalPtrs(meta, data.evalCptr);
    ZWords(e.z, data.permutationZComms, meta.numPermutationZs, meta.rotationLast);
    LookupWords(e.lookup, data.lookupPermutedComms, data.lookupZComms, meta.numLookupZs);
  }

  // Every evaluation word of the proof is opened exactly once, and beside them only the
  // computed quotient evaluation.
  lemma EveryWordOpenedOnce(cs: ConstraintSystem, vk: VerifyingKey, vkMptr: Ptr, proofCptr: Ptr, meta: Meta, data: Data)
    requires Generated(cs, vk, vkMptr, proofCptr, meta, data)
    ensures data.evalCptr.value.Integer? && QueriesCovered(meta, data)
    ensures multiset(Evals(Queries(meta, data)))
            == multiset(WordRange(data.evalCptr, meta.numEvals)) + multiset([Named(QUOTIENT_EVAL_MPTR)])
  {
    hide Generated, QueriesCovered, Queries, Evals, WordRange, NoDuplicates, NewPlaces, NewEvalPtrs;
    hide AdviceOpenings, FixedOpenings, PermutationOpenings, ZOpenings, ZLastOpenings, LookupOpenings;
    GeneratedWellPlaced(cs, vk, vkMptr, proofCptr, meta, data);
    DataCovers(cs, vk, vkMptr, proofCptr, meta, data);
    var e := NewEvalPtrs(meta, data.evalCptr);
    PlacedWords(meta, data, ChallengePtr(vk, vkMptr));
    PlacedArguments(meta, data, ChallengePtr(vk, vkMptr));
    EvalsOfQueries(meta, data);
    WordsOfProof(meta, data.evalCptr);
    Regroup(Evals(AdviceOpenings(meta, data)), Evals(ZOpenings(data.permutationZComms, data.places.permutationZs)),
            Evals(ZLastOpenings(data.permutationZComms, data.places.permutationZs, meta.rotationLast)),
            WordRange(e.z, 3 * meta.numPermutationZs - 1),
            Evals(LookupOpenings(data.lookupPermutedComms, data.lookupZComms, data.places.lookups)),
            WordRange(e.lookup, 5 * meta.numLookupZs),
            Evals(FixedOpenings(meta, data)), Evals(PermutationOpenings(meta, data)),
            [data.computedQuotientEval], [data.randomEval]);
  }

  // -------- rotations --------

  ghost function RotationSet(os: seq<Opening>): set<int> {
    set o | o in os :: o.rot
  }

  lemma RotationSetConcat(a: seq<Opening>, b: seq<Opening>)
    ensures RotationSet(a + b) == RotationSet(a) + RotationSet(b)
  {
  }

  lemma {:induction false} ZRotations(comms: seq<EcPoint>, evals: seq<ZEvals>, last: int)
    requires |comms| == |evals|
    ensures RotationSet(ZOpenings(comms, evals)) == if evals == [] then {} else {0, 1}
    ensures RotationSet(ZLastOpenings(comms, evals, last)) == if |evals| < 2 then {} else {last}
  {
    if evals != [] {
      var n := |evals| - 1;
      ZRotations(comms[..n], evals[..n], last);
      var pair := [Opening(comms[n], 0, evals[n].cur), Opening(comms[n], 1, evals[n].next)];
      RotationSetConcat(ZOpenings(comms[..n], evals[..n]), pair);
      assert pair[0] in pair && pair[1] in pair && RotationSet(pair) == {0, 1};
      if n >= 1 {
        var one := [Opening(comms[n - 1], last, evals[n - 1].last)];
        RotationSetConcat(one, ZLastOpenings(comms[..n], evals[..n], last));
        assert one[0] in one && RotationSet(one) == {last};
      }
    }
  }

  lemma {:induction false} LookupRotations(permuted: seq<(EcPoint, EcPoint)>, zs: seq<EcPoint>, evals: seq<LookupEvals>)
    requires |permuted| == |zs| == |evals|
    ensures RotationSet(LookupOpenings(permuted, zs, evals)) == if evals == [] then {} else {-1, 0, 1}
  {
    hide RotationSet;
    if evals == [] {
      NoRotations();
    } else {
      var n := |evals| - 1;
      LookupRotations(permuted[..n], zs[..n], evals[..n]);
      var five := [Opening(zs[n], 0, evals[n].z), Opening(permuted[n].0, 0, evals[n].pInput),
                   Opening(permuted[n].1, 0, evals[n].pTable), Opening(permuted[n].0, -1, evals[n].pInputPrev),
                   Opening(zs[n], 1, evals[n].zNext)];
      RotationSetConcat(LookupOpenings(permuted[..n], zs[..n], evals[..n]), five);
      FiveRotations(five);
    }
  }

  lemma NoRotations()
    ensures RotationSet([]) == {}
  {
  }

  lemma FiveRotations(five: seq<Opening>)
    requires |five| == 5 && five[0].rot == five[1].rot == five[2].rot == 0 && five[3].rot == -1 && five[4].rot == 1
    ensures RotationSet(five) == {-1, 0, 1}
  {
    assert five[0] in five && five[3] in five && five[4] in five;
  }

  ghost function AllRotations(advice: seq<Query>, fixed: seq<Query>, manyZs: bool, last: int, lookups: bool): set<int> {
    (set r | r in Rotations(advice)) + (set r | r in Rotations(fixed)) + {0, 1}
    + (if manyZs then {last} else {}) + (if lookups then {-1, 0, 1} else {})
  }

  lemma QueriedRotations(meta: Meta, data: Data)
    requires QueriesCovered(meta, data)
    ensures RotationSet(AdviceOpenings(meta, data)) == set r | r in Rotations(meta.adviceQueries)
    ensures RotationSet(FixedOpenings(meta, data)) == set r | r in Rotations(meta.fixedQueries)
    ensures RotationSet(PermutationOpenings(meta, data)) <= {0}
  {
    var a, f := AdviceOpenings(meta, data), FixedOpenings(meta, data);
    assert forall i :: 0 <= i < |a| ==> a[i] in a && a[i].rot == Rotations(meta.adviceQueries)[i];
    assert forall i :: 0 <= i < |f| ==> f[i] in f && f[i].rot == Rotations(meta.fixedQueries)[i];
  }

  lemma GeneratedRotations(cs: ConstraintSystem, vk: VerifyingKey, vkMptr: Ptr, proofCptr: Ptr, meta: Meta, data: Data)
    requires Generated(cs, vk, vkMptr, proofCptr, meta, data)
    ensures ValidSystem(cs) && meta.numRotations == NumDistinct(RotationList(cs))
    ensures meta.adviceQueries == cs.adviceQueries && meta.fixedQueries == cs.fixedQueries
    ensures meta.numPermutationZs == NumChunks(|cs.permutationColumns|, cs.degree - 2) >= 1
    ensures meta.numLookupZs == cs.numLookups && meta.rotationLast == RotationLast(cs)
  {
    ZsPositive(|cs.permutationColumns|, cs.degree - 2);
    hide NewData, NoDuplicates, MaxOf, NumDistinct, RotationList;
  }

  // The number of opening points equals the number of distinct rotations among the queries.
  lemma RotationsCounted(cs: ConstraintSystem, vk: VerifyingKey, vkMptr: Ptr, proofCptr: Ptr, meta: Meta, data: Data)
    requires Generated(cs, vk, vkMptr, proofCptr, meta, data)
    ensures QueriesCovered(meta, data) && meta.numRotations == |RotationSet(Queries(meta, data))|
  {
    hide Generated, QueriesCovered, AllRotations, Queries, RotationSet, RotationList, NumDistinct;
    DataCovers(cs, vk, vkMptr, proofCptr, meta, data);
    GeneratedRotations(cs, vk, vkMptr, proofCptr, meta, data);
    RotationListSet(cs);
    QueriesRotations(meta, data);
    SameCount(RotationList(cs), RotationSet(Queries(meta, data)));
  }

  lemma SameCount(s: seq<int>, t: set<int>)
    requires (set r | r in s) == t
    ensures NumDistinct(s) == |t|
  {
  }

  lemma RotationListSet(cs: ConstraintSystem)
    requires ValidSystem(cs)
    ensures (set r | r in RotationList(cs))
            == AllRotations(cs.adviceQueries, cs.fixedQueries, NumChunks(|cs.permutationColumns|, cs.degree - 2) > 1,
                            RotationLast(cs), cs.numLookups > 0)
  {
    ZsPositive(|cs.permutationColumns|, cs.degree - 2);
    hide Rotations, NumChunks;
  }

  lemma QueriesRotations(meta: Meta, data: Data)
    requires QueriesCovered(meta, data) && |data.places.permutationZs| >= 1
    ensures RotationSet(Queries(meta, data))
            == AllRotations(meta.adviceQueries, meta.fixedQueries, |data.places.permutationZs| > 1, meta.rotationLast,
                            |data.places.lookups| > 0)
  {
    QueriedRotations(meta, data);
    ZRotations(data.permutationZComms, data.places.permutationZs, meta.rotationLast);
    LookupRotations(data.lookupPermutedComms, data.lookupZComms, data.places.lookups);
    var a, b := AdviceOpenings(meta, data), ZOpenings(data.permutationZComms, data.places.permutationZs);
    var c := ZLastOpenings(data.permutationZComms, data.places.permutationZs, meta.rotationLast);
    var d := LookupOpenings(data.lookupPermutedComms, data.lookupZComms, data.places.lookups);
    var e, f := FixedOpenings(meta, data), PermutationOpenings(meta, data);
    var g := [Opening(data.computedQuotientComm, 0, data.computedQuotientEval), Opening(data.randomComm, 0, data.randomEval)];
    assert g[0] in g && RotationSet(g) == {0};
    assert Queries(meta, data) == a + b + c + d + e + f + g;
    hide Queries, AdviceOpenings, ZOpenings, ZLastOpenings, LookupOpenings, FixedOpenings, PermutationOpenings;
    hide QueriesCovered, Rotations;
    RotationSetConcat(a, b);
    RotationSetConcat(a + b, c);
    RotationSetConcat(a + b + c, d);
    RotationSetConcat(a + b + c + d, e);
    RotationSetConcat(a + b + c + d + e, f);
    RotationSetConcat(a + b + c + d + e + f, g);
    hide RotationSet;
  }
}
