/**
  The layout of a proof in calldata: where the verifier finds commitments and evaluations,
  and which evaluations the polynomial commitment scheme opens.
 */
module Layout {
  import opened Yul
  import opened Evaluation
  import opened Constraints
  import Remapping

  datatype ConstraintSystem = ConstraintSystem(
    numFixed: nat, permutationColumns: seq<Column>, degree: nat, numLookups: nat,
    adviceQueries: seq<Query>, fixedQueries: seq<Query>,
    advicePhase: seq<nat>, challengePhase: seq<nat>, blindingFactors: nat)

  datatype Meta = Meta(
    numFixeds: nat, permutationColumns: seq<Column>, permutationChunkLen: nat,
    numLookupPermuteds: nat, numPermutationZs: nat, numLookupZs: nat, numQuotients: nat,
    adviceQueries: seq<Query>, fixedQueries: seq<Query>, numRotations: nat, numEvals: nat,
    numUserAdvices: seq<nat>, adviceIndices: seq<nat>, challengeIndices: seq<nat>, rotationLast: int)

  // What the generator relies on: at least one permutation column (it subtracts one from the
  // number of permutation polynomials), no duplicated query or column, and queries of
  // existing columns.
  predicate ValidSystem(cs: ConstraintSystem) {
    && cs.degree >= 3
    && cs.permutationColumns != [] && NoDuplicates(cs.permutationColumns)
    && NoDuplicates(cs.adviceQueries) && NoDuplicates(cs.fixedQueries)
    && (forall q :: q in cs.adviceQueries ==> q.0 < |cs.advicePhase|)
    && (forall q :: q in cs.fixedQueries ==> q.0 < cs.numFixed)
    && (forall p :: p in cs.challengePhase ==> p <= MaxOf(cs.advicePhase))
  }

  predicate NoDuplicates<T(==)>(s: seq<T>) {
    forall i, j :: 0 <= i < j < |s| ==> s[i] != s[j]
  }

  function MaxOf(s: seq<nat>): (m: nat)
    ensures forall i :: 0 <= i < |s| ==> s[i] <= m
  {
    if s == [] then 0 else
    var m := MaxOf(s[..|s| - 1]);
    if m < s[|s| - 1] then s[|s| - 1] else m
  }

  function Rotations(queries: seq<Query>): (r: seq<int>)
    ensures |r| == |queries|
  {
    seq(|queries|, i requires 0 <= i < |queries| => queries[i].1)
  }

  function NumDistinct(s: seq<int>): nat {
    |set r | r in s|
  }

  function RotationLast(cs: ConstraintSystem): int {
    -(cs.blindingFactors + 1)
  }

  function RotationList(cs: ConstraintSystem): seq<int>
    requires cs.degree >= 3
  {
    var numZs := NumChunks(|cs.permutationColumns|, cs.degree - 2);
    Rotations(cs.adviceQueries) + Rotations(cs.fixedQueries)
    + (if numZs > 0 then [0, 1] else []) + (if numZs > 1 then [RotationLast(cs)] else [])
    + (if cs.numLookups > 0 then [-1, 0, 1] else [])
  }

  function MetaOf(cs: ConstraintSystem): Meta
    requires ValidSystem(cs)
  {
    var numZs := NumChunks(|cs.permutationColumns|, cs.degree - 2);
    var numPhase := MaxOf(cs.advicePhase) + 1;
    Meta(
      cs.numFixed, cs.permutationColumns, cs.degree - 2, 2 * cs.numLookups, numZs, cs.numLookups, cs.degree - 1,
      cs.adviceQueries, cs.fixedQueries, NumDistinct(RotationList(cs)),
      |cs.adviceQueries| + |cs.fixedQueries| + 1 + |cs.permutationColumns| + (3 * numZs - 1) + 5 * cs.numLookups,
      Remapping.Counts(cs.advicePhase, numPhase), Remapping.Positions(cs.advicePhase),
      Remapping.Positions(cs.challengePhase), RotationLast(cs))
  }

  function NumAdvices(meta: Meta): seq<nat> {
    meta.numUserAdvices
    + (if meta.numLookupPermuteds != 0 then [meta.numLookupPermuteds] else [])
    + [meta.numPermutationZs + meta.numLookupZs + 1, meta.numQuotients]
  }

  datatype Scheme = Bdfg21 | Gwc19

  function BatchOpenProofLen(meta: Meta, scheme: Scheme): nat {
    (match scheme case Bdfg21 => 2 case Gwc19 => meta.numRotations) * 0x40
  }

  function ProofLen(meta: Meta, scheme: Scheme): nat {
    Remapping.SumOf(NumAdvices(meta)) * 0x40 + meta.numEvals * 0x20 + BatchOpenProofLen(meta, scheme)
  }

  // -------- pointers --------

  // A pointer moved by n words.
  function Plus(p: Ptr, n: int): (q: Ptr)
    requires p.value.Integer?
    ensures q.value.Integer?
  {
    p.(value := Integer(p.value.n + 0x20 * n))
  }

  datatype EcPoint = EcPoint(x: Ptr, y: Ptr)

  function PointAt(p: Ptr): EcPoint
    requires p.value.Integer?
  {
    EcPoint(p, Plus(p, 1))
  }

  function PointRange(p: Ptr, n: nat): (s: seq<EcPoint>)
    requires p.value.Integer?
    ensures |s| == n
  {
    seq(n, i requires 0 <= i < n => PointAt(Plus(p, 2 * i)))
  }

  function WordRange(p: Ptr, n: nat): (s: seq<Ptr>)
    requires p.value.Integer?
    ensures |s| == n
  {
    seq(n, i requires 0 <= i < n => Plus(p, i))
  }

  // Keys zipped with consecutive words and collected: a later entry replaces an earlier one.
  function Collect<K>(keys: seq<K>, values: seq<Ptr>): (m: map<K, Ptr>)
    requires |keys| == |values|
    ensures m.Keys == set k | k in keys
  {
    if keys == [] then map[]
    else
      var n := |keys| - 1;
      Collect(keys[..n], values[..n])[keys[n] := values[n]]
  }

  lemma {:induction false} CollectAt<K>(keys: seq<K>, values: seq<Ptr>, i: nat)
    requires |keys| == |values| && NoDuplicates(keys) && i < |keys|
    ensures keys[i] in Collect(keys, values) && Collect(keys, values)[keys[i]] == values[i]
  {
    var n := |keys| - 1;
    if i < n {
      CollectAt(keys[..n], values[..n], i);
    }
  }

  // -------- the data of a proof --------

  datatype VerifyingKey = VerifyingKey(numConstants: nat, numFixedComms: nat, numPermutationComms: nat)

  datatype Data = Data(
    evalCptr: Ptr, wCptr: Ptr, quotientCommCptr: Ptr, thetaMptr: Ptr,
    fixedComms: seq<EcPoint>, permutationComms: map<Column, EcPoint>, adviceComms: seq<EcPoint>,
    lookupPermutedComms: seq<(EcPoint, EcPoint)>, permutationZComms: seq<EcPoint>,
    lookupZComms: seq<EcPoint>, randomComm: EcPoint, computedQuotientComm: EcPoint,
    places: EvalPlaces, randomEval: Ptr, computedQuotientEval: Ptr)

  function PointMap(keys: seq<Column>, p: Ptr): map<Column, EcPoint>
    requires p.value.Integer?
  {
    if keys == [] then map[]
    else PointMap(keys[..|keys| - 1], p)[keys[|keys| - 1] := PointAt(Plus(p, 2 * (|keys| - 1)))]
  }

  // Where the groups of evaluations start, and where the opening proof starts.
  datatype EvalPtrs = EvalPtrs(advice: Ptr, fixed: Ptr, random: Ptr, permutation: Ptr, z: Ptr, lookup: Ptr, w: Ptr)

  function NewEvalPtrs(meta: Meta, evalCptr: Ptr): (e: EvalPtrs)
    requires evalCptr.value.Integer?
    ensures e.advice.value.Integer? && e.fixed.value.Integer? && e.random.value.Integer?
    ensures e.permutation.value.Integer? && e.z.value.Integer? && e.lookup.value.Integer? && e.w.value.Integer?
  {
    var fixedEvalCptr := Plus(evalCptr, |meta.adviceQueries|);
    var randomEvalCptr := Plus(fixedEvalCptr, |meta.fixedQueries|);
    var permutationEvalCptr := Plus(randomEvalCptr, 1);
    var permutationZEvalCptr := Plus(permutationEvalCptr, |meta.permutationColumns|);
    var lookupEvalCptr := Plus(Plus(permutationZEvalCptr, 3 * meta.numPermutationZs), -1);
    EvalPtrs(evalCptr, fixedEvalCptr, randomEvalCptr, permutationEvalCptr, permutationZEvalCptr, lookupEvalCptr,
             Plus(lookupEvalCptr, 5 * meta.numLookupZs))
  }

  function NewPlaces(meta: Meta, challengeMptr: Ptr, evalCptr: Ptr): EvalPlaces
    requires challengeMptr.value.Integer? && evalCptr.value.Integer?
  {
    var e := NewEvalPtrs(meta, evalCptr);
    EvalPlaces(
      Places(
        Collect(meta.fixedQueries, WordRange(e.fixed, |meta.fixedQueries|)),
        Collect(meta.adviceQueries, WordRange(e.advice, |meta.adviceQueries|)),
        Named(INSTANCE_EVAL_MPTR),
        seq(|meta.challengeIndices|, i requires 0 <= i < |meta.challengeIndices| =>
          Plus(challengeMptr, meta.challengeIndices[i]))),
      Collect(meta.permutationColumns, WordRange(e.permutation, |meta.permutationColumns|)),
      ZPlaces(e.z, meta.numPermutationZs),
      LookupPlaces(e.lookup, meta.numLookupZs))
  }

  function NewData(meta: Meta, vk: VerifyingKey, vkMptr: Ptr, proofCptr: Ptr): Data
    requires vkMptr.value.Integer? && proofCptr.value.Integer?
  {
    var fixedCommMptr := Plus(vkMptr, vk.numConstants);
    var permutationCommMptr := Plus(fixedCommMptr, 2 * vk.numFixedComms);
    var challengeMptr := Plus(permutationCommMptr, 2 * vk.numPermutationComms);
    var thetaMptr := Plus(challengeMptr, |meta.challengeIndices|);

    var adviceCommStart := proofCptr;
    var lookupPermutedCommStart := Plus(adviceCommStart, 2 * |meta.adviceIndices|);
    var permutationZCommStart := Plus(lookupPermutedCommStart, 2 * meta.numLookupPermuteds);
    var lookupZCommStart := Plus(permutationZCommStart, 2 * meta.numPermutationZs);
    var randomCommStart := Plus(lookupZCommStart, 2 * meta.numLookupZs);
    var quotientCommStart := Plus(randomCommStart, 2);
    var evalCptr := Plus(quotientCommStart, 2 * meta.numQuotients);
    var evals := NewEvalPtrs(meta, evalCptr);

    Data(
      evalCptr, evals.w, quotientCommStart, thetaMptr,
      PointRange(fixedCommMptr, meta.numFixeds),
      PointMap(meta.permutationColumns, permutationCommMptr),
      seq(|meta.adviceIndices|, i requires 0 <= i < |meta.adviceIndices| =>
        PointAt(Plus(adviceCommStart, 2 * meta.adviceIndices[i]))),
      seq(meta.numLookupPermuteds / 2, i requires 0 <= i < meta.numLookupPermuteds / 2 =>
        (PointAt(Plus(lookupPermutedCommStart, 4 * i)), PointAt(Plus(lookupPermutedCommStart, 4 * i + 2)))),
      PointRange(permutationZCommStart, meta.numPermutationZs),
      PointRange(lookupZCommStart, meta.numLookupZs),
      PointAt(randomCommStart),
      EcPoint(Named(QUOTIENT_X_MPTR), Named(QUOTIENT_Y_MPTR)),
      NewPlaces(meta, challengeMptr, evalCptr),
      evals.random,
      Named(QUOTIENT_EVAL_MPTR))
  }

  // Consecutive words, three at a time. The third word of the last polynomial is the first
  // word of whatever follows.
  function ZPlaces(p: Ptr, n: nat): (s: seq<ZEvals>)
    requires p.value.Integer?
    ensures |s| == n
  {
    seq(n, i requires 0 <= i < n => ZEvals(Plus(p, 3 * i), Plus(p, 3 * i + 1), Plus(p, 3 * i + 2)))
  }

  function LookupPlaces(p: Ptr, n: nat): (s: seq<LookupEvals>)
    requires p.value.Integer?
    ensures |s| == n
  {
    seq(n, i requires 0 <= i < n =>
      LookupEvals(Plus(p, 5 * i), Plus(p, 5 * i + 1), Plus(p, 5 * i + 2), Plus(p, 5 * i + 3), Plus(p, 5 * i + 4)))
  }

  // -------- the opened evaluations --------

  datatype Opening = Opening(comm: EcPoint, rot: int, eval: Ptr)

  function ZOpenings(comms: seq<EcPoint>, evals: seq<ZEvals>): (s: seq<Opening>)
    requires |comms| == |evals|
  {
    if evals == [] then [] else
    var n := |evals| - 1;
    ZOpenings(comms[..n], evals[..n])
    + [Opening(comms[n], 0, evals[n].cur), Opening(comms[n], 1, evals[n].next)]
  }

  // All polynomials but the last one, from the back.
  function ZLastOpenings(comms: seq<EcPoint>, evals: seq<ZEvals>, rotationLast: int): (s: seq<Opening>)
    requires |comms| == |evals|
  {
    if |evals| < 2 then [] else
    var n := |evals| - 2;
    [Opening(comms[n], rotationLast, evals[n].last)] + ZLastOpenings(comms[..n + 1], evals[..n + 1], rotationLast)
  }

  function LookupOpenings(permuted: seq<(EcPoint, EcPoint)>, zs: seq<EcPoint>, evals: seq<LookupEvals>): seq<Opening>
    requires |permuted| == |zs| == |evals|
  {
    if evals == [] then [] else
    var n := |evals| - 1;
    LookupOpenings(permuted[..n], zs[..n], evals[..n])
    + [Opening(zs[n], 0, evals[n].z), Opening(permuted[n].0, 0, evals[n].pInput),
       Opening(permuted[n].1, 0, evals[n].pTable), Opening(permuted[n].0, -1, evals[n].pInputPrev),
       Opening(zs[n], 1, evals[n].zNext)]
  }

  function AdviceOpenings(meta: Meta, data: Data): seq<Opening>
    requires forall i :: 0 <= i < |meta.adviceQueries| ==>
               meta.adviceQueries[i].0 < |data.adviceComms| && meta.adviceQueries[i] in data.places.places.advice
  {
    seq(|meta.adviceQueries|, i requires 0 <= i < |meta.adviceQueries| =>
      var q := meta.adviceQueries[i]; Opening(data.adviceComms[q.0], q.1, data.places.places.advice[q]))
  }

  function FixedOpenings(meta: Meta, data: Data): seq<Opening>
    requires forall i :: 0 <= i < |meta.fixedQueries| ==>
               meta.fixedQueries[i].0 < |data.fixedComms| && meta.fixedQueries[i] in data.places.places.fixed
  {
    seq(|meta.fixedQueries|, i requires 0 <= i < |meta.fixedQueries| =>
      var q := meta.fixedQueries[i]; Opening(data.fixedComms[q.0], q.1, data.places.places.fixed[q]))
  }

  function PermutationOpenings(meta: Meta, data: Data): seq<Opening>
    requires forall i :: 0 <= i < |meta.permutationColumns| ==>
               meta.permutationColumns[i] in data.permutationComms && meta.permutationColumns[i] in data.places.permutation
  {
    seq(|meta.permutationColumns|, i requires 0 <= i < |meta.permutationColumns| =>
      var c := meta.permutationColumns[i]; Opening(data.permutationComms[c], 0, data.places.permutation[c]))
  }

  function Queries(meta: Meta, data: Data): seq<Opening>
    requires QueriesCovered(meta, data)
  {
    AdviceOpenings(meta, data)
    + ZOpenings(data.permutationZComms, data.places.permutationZs)
    + ZLastOpenings(data.permutationZComms, data.places.permutationZs, meta.rotationLast)
    + LookupOpenings(data.lookupPermutedComms, data.lookupZComms, data.places.lookups)
    + FixedOpenings(meta, data)
    + PermutationOpenings(meta, data)
    + [Opening(data.computedQuotientComm, 0, data.computedQuotientEval), Opening(data.randomComm, 0, data.randomEval)]
  }

  ghost predicate QueriesCovered(meta: Meta, data: Data) {
    && (forall i :: 0 <= i < |meta.adviceQueries| ==>
          meta.adviceQueries[i].0 < |data.adviceComms| && meta.adviceQueries[i] in data.places.places.advice)
    && (forall i :: 0 <= i < |meta.fixedQueries| ==>
          meta.fixedQueries[i].0 < |data.fixedComms| && meta.fixedQueries[i] in data.places.places.fixed)
    && (forall i :: 0 <= i < |meta.permutationColumns| ==>
          meta.permutationColumns[i] in data.permutationComms && meta.permutationColumns[i] in data.places.permutation)
    && |data.permutationZComms| == |data.places.permutationZs|
    && |data.lookupPermutedComms| == |data.lookupZComms| == |data.places.lookups|
  }
}
