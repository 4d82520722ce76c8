/**
  The proof word by word: which word of calldata is which coordinate of which commitment and
  which evaluation, stated on words and on the constraint system alone.
 */
module ProofOrder {
  import opened Common
  import opened Yul
  import opened Evaluation
  import opened Constraints
  import opened Layout
  import opened Openings
  import opened Commitments
  import Remapping

  // -------- sizes --------

  lemma {:induction false} NumChunksExact(n: nat, k: nat)
    requires n >= 1 && k >= 1
    ensures NumChunks(n, k) >= 1
    ensures (NumChunks(n, k) - 1) * k < n <= NumChunks(n, k) * k
  {
    var m := n - Min(k, n);
    if m > 0 {
      NumChunksExact(m, k);
      var c := NumChunks(m, k);
      assert (c + 1) * k == c * k + k && c * k == (c - 1) * k + k;
    } else {
      assert NumChunks(m, k) == 0;
      assert NumChunks(n, k) == 1;
    }
  }

  // The numbers that the layout is made of: as many grand products as chunks of degree - 2
  // columns, degree - 1 quotients, two permuted columns and one grand product for a lookup.
  lemma SizesExact(cs: ConstraintSystem, vk: VerifyingKey, vkMptr: Ptr, proofCptr: Ptr, meta: Meta, data: Data)
    requires Generated(cs, vk, vkMptr, proofCptr, meta, data)
    ensures var z := meta.numPermutationZs;
            z >= 1 && (z - 1) * (cs.degree - 2) < |cs.permutationColumns| <= z * (cs.degree - 2)
    ensures meta.permutationChunkLen == cs.degree - 2 && meta.numQuotients == cs.degree - 1
    ensures meta.numLookupZs == cs.numLookups && meta.numLookupPermuteds == 2 * cs.numLookups
    ensures meta.numFixeds == cs.numFixed && meta.rotationLast == -(cs.blindingFactors + 1)
    ensures meta.adviceQueries == cs.adviceQueries && meta.fixedQueries == cs.fixedQueries
    ensures meta.permutationColumns == cs.permutationColumns
    ensures meta.numUserAdvices == Remapping.Counts(cs.advicePhase, MaxOf(cs.advicePhase) + 1)
    ensures meta.numEvals == |cs.adviceQueries| + |cs.fixedQueries| + 1 + |cs.permutationColumns|
                             + (3 * meta.numPermutationZs - 1) + 5 * cs.numLookups
  {
    NumChunksExact(|cs.permutationColumns|, cs.degree - 2);
    hide NewData, NoDuplicates, RotationList, MaxOf;
  }

  // -------- the coordinates of commitments --------

  // The words of the points, x before y.
  function Coordinates(points: seq<EcPoint>): (s: seq<Ptr>)
    ensures |s| == 2 * |points|
  {
    if points == [] then [] else
    var n := |points| - 1;
    Coordinates(points[..n]) + [points[n].x, points[n].y]
  }

  lemma {:induction false} CoordinatesConcat(a: seq<EcPoint>, b: seq<EcPoint>)
    ensures Coordinates(a + b) == Coordinates(a) + Coordinates(b)
  {
    if b == [] {
      assert a + b == a;
    } else {
      var n := |b| - 1;
      assert (a + b)[..|a| + n] == a + b[..n];
      CoordinatesConcat(a, b[..n]);
    }
  }

  lemma {:induction false} CoordinatesOfRange(p: Ptr, n: nat)
    requires p.value.Integer?
    ensures Coordinates(PointRange(p, n)) == WordRange(p, 2 * n)
  {
    if n > 0 {
      CoordinatesOfRange(p, n - 1);
      assert PointRange(p, n)[..n - 1] == PointRange(p, n - 1);
      assert PointRange(p, n)[n - 1] == EcPoint(Plus(p, 2 * n - 2), Plus(p, 2 * n - 1));
    }
  }

  // The column whose commitment is at place v of the proof.
  ghost function ColumnAt(phase: seq<nat>, v: nat): (i: nat)
    requires v < |phase|
    ensures i < |phase| && Remapping.Positions(phase)[i] == v
  {
    Remapping.PositionsArePermutation(phase);
    assert v in Remapping.Positions(phase);
    var i :| 0 <= i < |phase| && Remapping.Positions(phase)[i] == v;
    i
  }

  // The advice commitments by their place in the proof.
  ghost function AdviceByPlace(phase: seq<nat>, data: Data): seq<EcPoint>
    requires |data.adviceComms| == |phase|
  {
    seq(|phase|, v requires 0 <= v < |phase| => data.adviceComms[ColumnAt(phase, v)])
  }

  function ArgumentPoints(data: Data): seq<EcPoint> {
    FlattenPairs(data.lookupPermutedComms) + data.permutationZComms + data.lookupZComms + [data.randomComm]
  }

  // All commitments of the proof before the quotients have the consecutive words from the start
  // of the proof to the quotients as coordinates, each once and in order: advice by phase and
  // column, then the permuted lookups, the permutation products, the lookup products and the
  // random commitment. The evaluations follow the degree - 1 quotients.
  lemma CoordinatesFillProof(cs: ConstraintSystem, vk: VerifyingKey, vkMptr: Ptr, proofCptr: Ptr, meta: Meta, data: Data)
    requires Generated(cs, vk, vkMptr, proofCptr, meta, data)
    ensures proofCptr.value.Integer? && |data.adviceComms| == |cs.advicePhase|
    ensures var n := |cs.advicePhase| + 3 * cs.numLookups + meta.numPermutationZs + 1;
            && Coordinates(AdviceByPlace(cs.advicePhase, data) + ArgumentPoints(data)) == WordRange(proofCptr, 2 * n)
            && data.quotientCommCptr == Plus(proofCptr, 2 * n)
            && data.evalCptr == Plus(data.quotientCommCptr, 2 * (cs.degree - 1))
  {
    GeneratedCommitted(cs, vk, vkMptr, proofCptr, meta, data);
    SizesExact(cs, vk, vkMptr, proofCptr, meta, data);
    hide Generated;
    PointsFillProof(cs, proofCptr, meta, data);
  }

  lemma PointsFillProof(cs: ConstraintSystem, proofCptr: Ptr, meta: Meta, data: Data)
    requires Committed(cs, proofCptr, meta, data)
    ensures var n := |cs.advicePhase| + 3 * cs.numLookups + meta.numPermutationZs + 1;
            && Coordinates(AdviceByPlace(cs.advicePhase, data) + ArgumentPoints(data)) == WordRange(proofCptr, 2 * n)
            && data.quotientCommCptr == Plus(proofCptr, 2 * n)
  {
    AdvicePart(cs, proofCptr, meta, data);
    ArgumentsInOrder(cs, proofCptr, meta, data);
    hide Committed, FlattenPairs, PointRange, WordRange, AdviceByPlace, Coordinates;
    var a, m := |cs.advicePhase|, 3 * cs.numLookups + meta.numPermutationZs + 1;
    assert ArgumentPoints(data) == PointRange(Plus(proofCptr, 2 * a), m);
    hide ArgumentPoints;
    PointRangeConcat(proofCptr, a, m);
    CoordinatesOfRange(proofCptr, a + m);
  }

  lemma AdvicePart(cs: ConstraintSystem, proofCptr: Ptr, meta: Meta, data: Data)
    requires Committed(cs, proofCptr, meta, data)
    ensures AdviceByPlace(cs.advicePhase, data) == PointRange(proofCptr, |cs.advicePhase|)
  {
    hide Remapping.Positions, ColumnAt;
  }

  // The commitments of the columns, in the order of the columns.
  function PointsOf(columns: seq<Column>, m: map<Column, EcPoint>): (s: seq<EcPoint>)
    requires forall c :: c in columns ==> c in m
    ensures |s| == |columns|
  {
    seq(|columns|, i requires 0 <= i < |columns| => m[columns[i]])
  }

  // The commitments of the verifying key lie behind its constants: the fixed columns, and
  // behind those the permutation columns in their order.
  lemma KeyCoordinates(cs: ConstraintSystem, vk: VerifyingKey, vkMptr: Ptr, proofCptr: Ptr, meta: Meta, data: Data)
    requires Generated(cs, vk, vkMptr, proofCptr, meta, data)
    ensures vkMptr.value.Integer? && forall c :: c in cs.permutationColumns ==> c in data.permutationComms
    ensures var columns := cs.permutationColumns;
            && Coordinates(data.fixedComms) == WordRange(Plus(vkMptr, vk.numConstants), 2 * cs.numFixed)
            && Coordinates(PointsOf(columns, data.permutationComms))
               == WordRange(Plus(vkMptr, vk.numConstants + 2 * vk.numFixedComms), 2 * |columns|)
    ensures data.computedQuotientComm == EcPoint(Named(QUOTIENT_X_MPTR), Named(QUOTIENT_Y_MPTR))
  {
    var p := Plus(Plus(vkMptr, vk.numConstants), 2 * vk.numFixedComms);
    KeyPoints(cs, vk, vkMptr, proofCptr, meta, data);
    hide Generated, PointRange, PointMap, Coordinates, WordRange, NoDuplicates;
    CoordinatesOfRange(Plus(vkMptr, vk.numConstants), cs.numFixed);
    ColumnCoordinates(cs.permutationColumns, p);
    assert p == Plus(vkMptr, vk.numConstants + 2 * vk.numFixedComms);
  }

  lemma ColumnCoordinates(columns: seq<Column>, p: Ptr)
    requires p.value.Integer? && NoDuplicates(columns)
    ensures forall c :: c in columns ==> c in PointMap(columns, p)
    ensures Coordinates(PointsOf(columns, PointMap(columns, p))) == WordRange(p, 2 * |columns|)
  {
    hide PointMap, Coordinates, WordRange, NoDuplicates;
    forall i | 0 <= i < |columns|
      ensures columns[i] in PointMap(columns, p) && PointMap(columns, p)[columns[i]] == PointAt(Plus(p, 2 * i))
    {
      PointMapAt(columns, p, i);
    }
    RangeByIndex(PointsOf(columns, PointMap(columns, p)), p);
    CoordinatesOfRange(p, |columns|);
  }

  lemma KeyPoints(cs: ConstraintSystem, vk: VerifyingKey, vkMptr: Ptr, proofCptr: Ptr, meta: Meta, data: Data)
    requires Generated(cs, vk, vkMptr, proofCptr, meta, data)
    ensures vkMptr.value.Integer? && NoDuplicates(cs.permutationColumns)
    ensures data.fixedComms == PointRange(Plus(vkMptr, vk.numConstants), cs.numFixed)
    ensures data.permutationComms
            == PointMap(cs.permutationColumns, Plus(Plus(vkMptr, vk.numConstants), 2 * vk.numFixedComms))
    ensures data.computedQuotientComm == EcPoint(Named(QUOTIENT_X_MPTR), Named(QUOTIENT_Y_MPTR))
  {
    hide NewPlaces, NewEvalPtrs, NoDuplicates, RotationList, NumChunks, PointMap, PointRange, Remapping.Counts, Remapping.Positions;
  }

  lemma RangeByIndex(points: seq<EcPoint>, p: Ptr)
    requires p.value.Integer? && forall i :: 0 <= i < |points| ==> points[i] == PointAt(Plus(p, 2 * i))
    ensures points == PointRange(p, |points|)
  {
  }

  // -------- the evaluations --------

  // The words of the grand products, in order; the last one has no third word.
  function ZWordsOf(zs: seq<ZEvals>): seq<Ptr> {
    if zs == [] then []
    else if |zs| == 1 then [zs[0].cur, zs[0].next]
    else [zs[0].cur, zs[0].next, zs[0].last] + ZWordsOf(zs[1..])
  }

  function LookupWordsOf(vs: seq<LookupEvals>): seq<Ptr> {
    if vs == [] then [] else [vs[0].z, vs[0].zNext, vs[0].pInput, vs[0].pInputPrev, vs[0].pTable] + LookupWordsOf(vs[1..])
  }

  lemma {:induction false} ZWordsInOrder(zs: seq<ZEvals>, p: Ptr)
    requires p.value.Integer? && zs == ZPlaces(p, |zs|) && zs != []
    ensures ZWordsOf(zs) == WordRange(p, 3 * |zs| - 1)
    decreases |zs|
  {
    if |zs| > 1 {
      var rest := zs[1..];
      assert rest == ZPlaces(Plus(p, 3), |zs| - 1) by {
        assert forall i :: 0 <= i < |rest| ==> rest[i] == zs[i + 1];
      }
      ZWordsInOrder(rest, Plus(p, 3));
      WordRangeConcat(p, 3, 3 * |rest| - 1);
    }
  }

  lemma {:induction false} LookupWordsInOrder(vs: seq<LookupEvals>, p: Ptr)
    requires p.value.Integer? && vs == LookupPlaces(p, |vs|)
    ensures LookupWordsOf(vs) == WordRange(p, 5 * |vs|)
    decreases |vs|
  {
    if vs != [] {
      var rest := vs[1..];
      assert rest == LookupPlaces(Plus(p, 5), |vs| - 1) by {
        assert forall i :: 0 <= i < |rest| ==> rest[i] == vs[i + 1];
      }
      LookupWordsInOrder(rest, Plus(p, 5));
      WordRangeConcat(p, 5, 5 * |rest|);
    }
  }

  // The words of the keys, in the order of the keys.
  function WordsOf<K>(keys: seq<K>, m: map<K, Ptr>): (s: seq<Ptr>)
    requires forall k :: k in keys ==> k in m
    ensures |s| == |keys|
  {
    seq(|keys|, i requires 0 <= i < |keys| => m[keys[i]])
  }

  // The evaluations in the order of the proof: queried advice, queried fixed, the random
  // polynomial, the permutation columns, the permutation products and the lookups.
  function EvaluationsOf(cs: ConstraintSystem, data: Data): seq<Ptr>
    requires forall q :: q in cs.adviceQueries ==> q in data.places.places.advice
    requires forall q :: q in cs.fixedQueries ==> q in data.places.places.fixed
    requires forall c :: c in cs.permutationColumns ==> c in data.places.permutation
  {
    WordsOf(cs.adviceQueries, data.places.places.advice)
    + WordsOf(cs.fixedQueries, data.places.places.fixed)
    + [data.randomEval]
    + WordsOf(cs.permutationColumns, data.places.permutation)
    + ZWordsOf(data.places.permutationZs)
    + LookupWordsOf(data.places.lookups)
  }

  // They are the consecutive words behind the quotients, each once and in order.
  lemma EvaluationsInOrder(cs: ConstraintSystem, vk: VerifyingKey, vkMptr: Ptr, proofCptr: Ptr, meta: Meta, data: Data)
    requires Generated(cs, vk, vkMptr, proofCptr, meta, data)
    ensures forall q :: q in cs.adviceQueries ==> q in data.places.places.advice
    ensures forall q :: q in cs.fixedQueries ==> q in data.places.places.fixed
    ensures forall c :: c in cs.permutationColumns ==> c in data.places.permutation
    ensures data.evalCptr.value.Integer? && EvaluationsOf(cs, data) == WordRange(data.evalCptr, meta.numEvals)
    ensures data.wCptr == Plus(data.evalCptr, meta.numEvals)
    ensures data.computedQuotientEval == Named(QUOTIENT_EVAL_MPTR)
    ensures data.places.places.instance_ == Named(INSTANCE_EVAL_MPTR)
  {
    SizesExact(cs, vk, vkMptr, proofCptr, meta, data);
    GeneratedWellPlaced(cs, vk, vkMptr, proofCptr, meta, data);
    ProofExtent(cs, vk, vkMptr, proofCptr, meta, data, Bdfg21);
    hide Generated, ZPlaces, LookupPlaces, WordRange, Collect, NoDuplicates;
    PlacedInOrder(cs, meta, data, ChallengePtr(vk, vkMptr));
  }

  lemma PlacedInOrder(cs: ConstraintSystem, meta: Meta, data: Data, challengeMptr: Ptr)
    requires WellPlaced(meta, data, challengeMptr)
    requires meta.adviceQueries == cs.adviceQueries && meta.fixedQueries == cs.fixedQueries
    requires meta.permutationColumns == cs.permutationColumns
    ensures forall q :: q in cs.adviceQueries ==> q in data.places.places.advice
    ensures forall q :: q in cs.fixedQueries ==> q in data.places.places.fixed
    ensures forall c :: c in cs.permutationColumns ==> c in data.places.permutation
    ensures EvaluationsOf(cs, data) == WordRange(data.evalCptr, meta.numEvals)
  {
    hide WordRange, ZWordsOf, LookupWordsOf, Collect, ZPlaces, LookupPlaces, NoDuplicates, WordsOf, Plus;
    var p, a, f, c := data.evalCptr, |cs.adviceQueries|, |cs.fixedQueries|, |cs.permutationColumns|;
    var z, l := 3 * meta.numPermutationZs - 1, 5 * meta.numLookupZs;
    PlacedParts(meta, data, challengeMptr);
    assert NoDuplicates(meta.adviceQueries) && NoDuplicates(meta.fixedQueries) && NoDuplicates(meta.permutationColumns);
    assert meta.numEvals == a + f + 1 + c + z + l && meta.numPermutationZs >= 1;
    hide WellPlaced;
    CollectedInOrder(cs.adviceQueries, p, data.places.places.advice);
    CollectedInOrder(cs.fixedQueries, Plus(p, a), data.places.places.fixed);
    CollectedInOrder(cs.permutationColumns, Plus(p, a + f + 1), data.places.permutation);
    ZWordsInOrder(data.places.permutationZs, Plus(p, a + f + 1 + c));
    LookupWordsInOrder(data.places.lookups, Plus(p, a + f + 1 + c + z));
    WordsSplit(p, a, f, c, z, l);
  }

  lemma PlacedParts(meta: Meta, data: Data, challengeMptr: Ptr)
    requires WellPlaced(meta, data, challengeMptr)
    ensures var p, a, f, c := data.evalCptr, |meta.adviceQueries|, |meta.fixedQueries|, |meta.permutationColumns|;
            var z := 3 * meta.numPermutationZs - 1;
            && data.places.places.advice == Collect(meta.adviceQueries, WordRange(p, a))
            && data.places.places.fixed == Collect(meta.fixedQueries, WordRange(Plus(p, a), f))
            && data.randomEval == Plus(p, a + f)
            && data.places.permutation == Collect(meta.permutationColumns, WordRange(Plus(p, a + f + 1), c))
            && data.places.permutationZs == ZPlaces(Plus(p, a + f + 1 + c), meta.numPermutationZs)
            && data.places.lookups == LookupPlaces(Plus(p, a + f + 1 + c + z), meta.numLookupZs)
  {
    hide WordRange, Collect, ZPlaces, LookupPlaces, NoDuplicates;
  }

  lemma WordsSplit(p: Ptr, a: nat, f: nat, c: nat, z: nat, l: nat)
    requires p.value.Integer?
    ensures WordRange(p, a + f + 1 + c + z + l)
            == WordRange(p, a) + WordRange(Plus(p, a), f) + [Plus(p, a + f)] + WordRange(Plus(p, a + f + 1), c)
               + WordRange(Plus(p, a + f + 1 + c), z) + WordRange(Plus(p, a + f + 1 + c + z), l)
  {
    hide WordRange, Plus;
    WordRangeConcat(p, a, f);
    WordRangeConcat(p, a + f, 1);
    OneWord(Plus(p, a + f));
    WordRangeConcat(p, a + f + 1, c);
    WordRangeConcat(p, a + f + 1 + c, z);
    WordRangeConcat(p, a + f + 1 + c + z, l);
  }

  lemma OneWord(p: Ptr)
    requires p.value.Integer?
    ensures WordRange(p, 1) == [p]
  {
  }

  lemma CollectedInOrder<K>(keys: seq<K>, p: Ptr, m: map<K, Ptr>)
    requires p.value.Integer? && NoDuplicates(keys) && m == Collect(keys, WordRange(p, |keys|))
    ensures forall k :: k in keys ==> k in m
    ensures WordsOf(keys, m) == WordRange(p, |keys|)
  {
    CollectedWords(keys, WordRange(p, |keys|));
  }

  // -------- challenges --------

  // The user challenges are exactly the words behind the commitments of the key, ordered by
  // phase and then by index, and theta follows them.
  lemma ChallengesInOrder(cs: ConstraintSystem, vk: VerifyingKey, vkMptr: Ptr, proofCptr: Ptr, meta: Meta, data: Data)
    requires Generated(cs, vk, vkMptr, proofCptr, meta, data)
    ensures vkMptr.value.Integer? && |data.places.places.challenges| == |cs.challengePhase|
    ensures var n, challenges := |cs.challengePhase|, data.places.places.challenges;
            var p := Plus(vkMptr, vk.numConstants + 2 * vk.numFixedComms + 2 * vk.numPermutationComms);
            && seq(n, v requires 0 <= v < n => challenges[ColumnAt(cs.challengePhase, v)]) == WordRange(p, n)
            && data.thetaMptr == Plus(p, n)
    ensures forall i, j :: 0 <= i < |cs.challengePhase| && 0 <= j < |cs.challengePhase| ==>
              var challenges, phase := data.places.places.challenges, cs.challengePhase;
              && challenges[i].value.Integer? && challenges[j].value.Integer?
              && (challenges[i].value.n < challenges[j].value.n <==>
                  phase[i] < phase[j] || (phase[i] == phase[j] && i < j))
  {
    var phase, challenges := cs.challengePhase, data.places.places.challenges;
    ChallengePlaces(cs, vk, vkMptr, proofCptr, meta, data);
    hide Generated, Remapping.Positions, ColumnAt, ChallengePtr;
    forall i, j | 0 <= i < |phase| && 0 <= j < |phase|
      ensures challenges[i].value.Integer? && challenges[j].value.Integer?
      ensures challenges[i].value.n < challenges[j].value.n <==> phase[i] < phase[j] || (phase[i] == phase[j] && i < j)
    {
      assert challenges[i] == Plus(ChallengePtr(vk, vkMptr), Remapping.Positions(phase)[i]);
      assert challenges[j] == Plus(ChallengePtr(vk, vkMptr), Remapping.Positions(phase)[j]);
      PositionOrderAt(phase, i, j);
    }
  }

  lemma PositionOrderAt(phase: seq<nat>, i: nat, j: nat)
    requires i < |phase| && j < |phase|
    ensures Remapping.Positions(phase)[i] < Remapping.Positions(phase)[j] <==>
            phase[i] < phase[j] || (phase[i] == phase[j] && i < j)
  {
    Remapping.PositionOrder(phase, i, j);
  }

  lemma ChallengePlaces(cs: ConstraintSystem, vk: VerifyingKey, vkMptr: Ptr, proofCptr: Ptr, meta: Meta, data: Data)
    requires Generated(cs, vk, vkMptr, proofCptr, meta, data)
    ensures vkMptr.value.Integer? && |data.places.places.challenges| == |cs.challengePhase|
    ensures ChallengePtr(vk, vkMptr)
            == Plus(vkMptr, vk.numConstants + 2 * vk.numFixedComms + 2 * vk.numPermutationComms)
    ensures forall i :: 0 <= i < |cs.challengePhase| ==>
              data.places.places.challenges[i] == Plus(ChallengePtr(vk, vkMptr), Remapping.Positions(cs.challengePhase)[i])
    ensures data.thetaMptr == Plus(ChallengePtr(vk, vkMptr), |cs.challengePhase|)
  {
    hide NoDuplicates, RotationList, NumChunks, PointMap, PointRange, Remapping.Counts, Remapping.Positions, NewEvalPtrs, Collect;
  }

  // -------- the reading of the proof --------

  // num_advices tells how many points are read before each challenge: for every phase as many
  // as it has advice columns, then the permuted lookups if there are any, then the products
  // and the random commitment, then the degree - 1 quotients, which end at the evaluations.
  lemma ReadingOrder(cs: ConstraintSystem, vk: VerifyingKey, vkMptr: Ptr, proofCptr: Ptr, meta: Meta, data: Data)
    requires Generated(cs, vk, vkMptr, proofCptr, meta, data)
    ensures var ns, phases := NumAdvices(meta), MaxOf(cs.advicePhase) + 1;
            && |ns| == phases + (if cs.numLookups > 0 then 3 else 2)
            && (forall p :: 0 <= p < phases ==> ns[p] == Remapping.Equal(cs.advicePhase, p, |cs.advicePhase|))
            && Remapping.SumOf(ns[..phases]) == |cs.advicePhase|
            && (cs.numLookups > 0 ==> ns[phases] == 2 * cs.numLookups)
            && ns[|ns| - 2] == meta.numPermutationZs + cs.numLookups + 1
            && ns[|ns| - 1] == cs.degree - 1
            && proofCptr.value.Integer?
            && data.quotientCommCptr == Plus(proofCptr, 2 * Remapping.SumOf(ns[..|ns| - 1]))
  {
    hide Generated, Coordinates, AdviceByPlace, ArgumentPoints, WordRange, Remapping.Equal, Remapping.SumOf, Remapping.Counts,
         NumAdvices;
    SizesExact(cs, vk, vkMptr, proofCptr, meta, data);
    CoordinatesFillProof(cs, vk, vkMptr, proofCptr, meta, data);
    UserAdvices(meta, cs.advicePhase);
    SumBeforeQuotients(meta);
  }

  lemma UserAdvices(meta: Meta, phase: seq<nat>)
    requires meta.numUserAdvices == Remapping.Counts(phase, MaxOf(phase) + 1)
    ensures var ns, phases := NumAdvices(meta), MaxOf(phase) + 1;
            && |ns| == phases + (if meta.numLookupPermuteds != 0 then 3 else 2)
            && (forall p :: 0 <= p < phases ==> ns[p] == Remapping.Equal(phase, p, |phase|))
            && ns[..phases] == meta.numUserAdvices
            && Remapping.SumOf(meta.numUserAdvices) == |phase|
            && (meta.numLookupPermuteds != 0 ==> ns[phases] == meta.numLookupPermuteds)
            && ns[|ns| - 2] == meta.numPermutationZs + meta.numLookupZs + 1
            && ns[|ns| - 1] == meta.numQuotients
  {
    hide Remapping.Equal, Remapping.SumOf, Remapping.Counts, MaxOf;
    PhaseCounts(phase);
    AdviceGroups(meta);
  }

  lemma PhaseCounts(phase: seq<nat>)
    ensures var counts := Remapping.Counts(phase, MaxOf(phase) + 1);
            && Remapping.SumOf(counts) == |phase|
            && forall p :: 0 <= p < |counts| ==> counts[p] == Remapping.Equal(phase, p, |phase|)
  {
    Remapping.CountsSum(phase, MaxOf(phase) + 1);
    hide Remapping.SumOf;
  }

  lemma AdviceGroups(meta: Meta)
    ensures var ns, n := NumAdvices(meta), |meta.numUserAdvices|;
            && |ns| == n + (if meta.numLookupPermuteds != 0 then 3 else 2)
            && ns[..n] == meta.numUserAdvices
            && (meta.numLookupPermuteds != 0 ==> ns[n] == meta.numLookupPermuteds)
            && ns[|ns| - 2] == meta.numPermutationZs + meta.numLookupZs + 1
            && ns[|ns| - 1] == meta.numQuotients
  {
  }

  lemma SumBeforeQuotients(meta: Meta)
    ensures var ns := NumAdvices(meta);
            Remapping.SumOf(ns[..|ns| - 1]) == Remapping.SumOf(meta.numUserAdvices) + meta.numLookupPermuteds
                                               + meta.numPermutationZs + meta.numLookupZs + 1
  {
    var ns := NumAdvices(meta);
    SumOfAdvices(meta);
    SumSnoc(ns[..|ns| - 1], ns[|ns| - 1]);
    assert ns == ns[..|ns| - 1] + [ns[|ns| - 1]];
    hide Remapping.SumOf;
  }

  // The opening proof is two points with Bdfg21, and one for every distinct rotation of the
  // queries with Gwc19.
  lemma ProofLength(cs: ConstraintSystem, vk: VerifyingKey, vkMptr: Ptr, proofCptr: Ptr, meta: Meta, data: Data)
    requires Generated(cs, vk, vkMptr, proofCptr, meta, data)
    ensures data.wCptr.value.Integer? && QueriesCovered(meta, data)
    ensures ProofLen(meta, Bdfg21) == data.wCptr.value.n - proofCptr.value.n + 2 * 0x40
    ensures ProofLen(meta, Gwc19)
            == data.wCptr.value.n - proofCptr.value.n + |RotationSet(Queries(meta, data))| * 0x40
  {
    ProofExtent(cs, vk, vkMptr, proofCptr, meta, data, Bdfg21);
    ProofExtent(cs, vk, vkMptr, proofCptr, meta, data, Gwc19);
    RotationsCounted(cs, vk, vkMptr, proofCptr, meta, data);
    hide Generated, ProofLen, Queries, RotationSet;
  }
}
