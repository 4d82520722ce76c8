/**
  The constraint blocks of the verifier: one block for every gate polynomial, for the
  permutation argument and for the lookup arguments, and the fold of their values in `y`.
 */
module Constraints {
  import opened Common
  import opened Yul
  import opened Evaluation

  datatype ColumnKind = AdviceColumn | FixedColumn | InstanceColumn

  datatype Column = Column(kind: ColumnKind, index: nat)

  datatype ZEvals = ZEvals(cur: Ptr, next: Ptr, last: Ptr)

  datatype LookupEvals = LookupEvals(z: Ptr, zNext: Ptr, pInput: Ptr, pInputPrev: Ptr, pTable: Ptr)

  // Where the verifier finds the evaluations that the arguments refer to.
  datatype EvalPlaces = EvalPlaces(
    places: Places, permutation: map<Column, Ptr>, permutationZs: seq<ZEvals>, lookups: seq<LookupEvals>)

  datatype Lookup = Lookup(inputs: seq<Expression>, tables: seq<Expression>)

  datatype Circuit = Circuit(
    gates: seq<Expression>, columns: seq<Column>, chunkLen: nat, lookups: seq<Lookup>)

  function ColumnEval(c: Column, data: EvalPlaces): Ptr
    requires KnownColumn(c, data)
  {
    match c.kind
    case AdviceColumn => data.places.advice[(c.index, 0)]
    case FixedColumn => data.places.fixed[(c.index, 0)]
    case InstanceColumn => data.places.instance_
  }

  predicate KnownColumn(c: Column, data: EvalPlaces) {
    && c in data.permutation
    && match c.kind
       case AdviceColumn => (c.index, 0) in data.places.advice
       case FixedColumn => (c.index, 0) in data.places.fixed
       case InstanceColumn => true
  }

  // -------- the permutation argument --------

  function FirstZ(z: ZEvals): Snippet {
    Snippet([Let(L_0, Load(Named(L_0_MPTR)))] +
            [Let(EVAL, AddM(Var(L_0), SubR(MulM(Var(L_0), Load(z.cur)))))], EVAL)
  }

  function LastZ(z: ZEvals): Snippet {
    var item := AddM(MulM(Var(PERM_Z_LAST), Var(PERM_Z_LAST)), SubR(Var(PERM_Z_LAST)));
    Snippet([Let(PERM_Z_LAST, Load(z.cur))] + [Let(EVAL, MulM(Load(Named(L_LAST_MPTR)), item))], EVAL)
  }

  function LinkedZs(z: ZEvals, next: ZEvals): Snippet {
    Snippet([Let(EVAL, MulM(Load(Named(L_0_MPTR)), AddM(Load(next.cur), SubR(Load(z.last)))))], EVAL)
  }

  function LhsLines(columns: seq<Column>, data: EvalPlaces): seq<Stmt>
    requires forall c :: c in columns ==> KnownColumn(c, data)
  {
    if columns == [] then [] else
    var c := columns[0];
    assert KnownColumn(c, data);
    var item := MulM(Var(BETA), Load(data.permutation[c]));
    [Assign(LHS, MulM(Var(LHS), AddM(AddM(Load(ColumnEval(c, data)), item), Var(GAMMA))))]
    + LhsLines(columns[1..], data)
  }

  // The power of delta is kept in the scratch word. It is not advanced after the very last
  // column of the very last chunk.
  function RhsLines(columns: seq<Column>, data: EvalPlaces, lastChunk: bool): seq<Stmt>
    requires forall c :: c in columns ==> KnownColumn(c, data)
  {
    if columns == [] then [] else
    var item := AddM(AddM(Load(ColumnEval(columns[0], data)), Load(SCRATCH)), Var(GAMMA));
    [Assign(RHS, MulM(Var(RHS), item))]
    + (if lastChunk && |columns| == 1 then [] else [Store(SCRATCH, MulM(Load(SCRATCH), Var(DELTA)))])
    + RhsLines(columns[1..], data, lastChunk)
  }

  function ChunkHead(z: ZEvals): seq<Stmt> {
    [Let(GAMMA, Load(Named(GAMMA_MPTR)))] + [Let(BETA, Load(Named(BETA_MPTR)))]
    + [Let(LHS, Load(z.next))] + [Let(RHS, Load(z.cur))]
  }

  function ChunkSeed(firstChunk: bool): seq<Stmt> {
    if firstChunk then [Store(SCRATCH, MulM(Var(BETA), Load(Named(X_MPTR))))] else []
  }

  function ChunkTail(): seq<Stmt> {
    var item := SubR(MulM(Var(LEFT_SUB_RIGHT), AddM(Load(Named(L_LAST_MPTR)), Load(Named(L_BLIND_MPTR)))));
    [Let(LEFT_SUB_RIGHT, AddM(Var(LHS), SubR(Var(RHS))))] + [Let(EVAL, AddM(Var(LEFT_SUB_RIGHT), item))]
  }

  function ChunkCode(columns: seq<Column>, z: ZEvals, data: EvalPlaces, firstChunk: bool, lastChunk: bool): Snippet
    requires forall c :: c in columns ==> KnownColumn(c, data)
  {
    Snippet(ChunkHead(z) + LhsLines(columns, data) + ChunkSeed(firstChunk)
            + RhsLines(columns, data, lastChunk) + ChunkTail(), EVAL)
  }

  // `columns.chunks(chunkLen).count()`
  function NumChunks(n: nat, chunkLen: nat): nat
    requires chunkLen >= 1
  {
    if n == 0 then 0 else 1 + NumChunks(n - Min(chunkLen, n), chunkLen)
  }

  // `columns.chunks(chunkLen)` zipped with the z evaluations.
  function ChunkCodes(columns: seq<Column>, chunkLen: nat, zs: seq<ZEvals>, data: EvalPlaces, firstChunk: bool)
    : seq<Snippet>
    requires forall c :: c in columns ==> KnownColumn(c, data)
  {
    if zs == [] then [] else
    var n := Min(chunkLen, |columns|);
    [ChunkCode(columns[..n], zs[0], data, firstChunk, |zs| == 1)]
    + ChunkCodes(columns[n..], chunkLen, zs[1..], data, false)
  }

  function LinkCodes(zs: seq<ZEvals>): seq<Snippet> {
    if |zs| < 2 then [] else [LinkedZs(zs[0], zs[1])] + LinkCodes(zs[1..])
  }

  function PermutationCode(circuit: Circuit, data: EvalPlaces): seq<Snippet>
    requires ValidCircuit(circuit, data)
  {
    var zs := data.permutationZs;
    [FirstZ(zs[0])] + [LastZ(zs[|zs| - 1])] + LinkCodes(zs)
    + ChunkCodes(circuit.columns, circuit.chunkLen, zs, data, true)
  }

  // -------- the lookup arguments --------

  const L_INACTIVE := AddM(Load(Named(L_BLIND_MPTR)), Load(Named(L_LAST_MPTR)))
  const L_ACTIVE := AddM(Num(1), SubR(L_INACTIVE))

  function CompressLines(target: Name, results: seq<Name>): seq<Stmt> {
    if results == [] then []
    else if |results| == 1 then [Assign(target, Var(results[0]))]
    else CompressLines(target, results[..|results| - 1])
         + [Assign(target, AddM(MulM(Var(target), Var(THETA)), Var(results[|results| - 1])))]
  }

  // The expressions of one side of a lookup, combined with powers of theta.
  function CompressBlock(target: Name, es: seq<Expression>, data: EvalPlaces): Stmt
    requires forall e :: e in es ==> Compilable(e, data.places)
  {
    var c := CompileAll(es, data.places, FRESH);
    Block(c.lines + CompressLines(target, c.results))
  }

  function LookupFirst(v: LookupEvals): Snippet {
    Snippet([Let(L_0, Load(Named(L_0_MPTR)))] +
            [Let(EVAL, AddM(Var(L_0), MulM(Var(L_0), SubR(Load(v.z)))))], EVAL)
  }

  function LookupLast(v: LookupEvals): Snippet {
    Snippet([Let(L_LAST, Load(Named(L_LAST_MPTR)))] +
            [Let(EVAL, MulM(Var(L_LAST), AddM(MulM(Load(v.z), Load(v.z)), SubR(Load(v.z)))))], EVAL)
  }

  function ProductHead(l: Lookup, data: EvalPlaces): seq<Stmt>
    requires ValidLookup(l, data)
  {
    [Let(THETA, Load(Named(THETA_MPTR)))]
    + ([Declare(INPUT)] + ([CompressBlock(INPUT, l.inputs, data)]
    + ([Declare(TABLE)] + [CompressBlock(TABLE, l.tables, data)])))
  }

  function ProductSides(v: LookupEvals): seq<Stmt> {
    var permuted := MulM(AddM(Load(v.pInput), Var(BETA)), AddM(Load(v.pTable), Var(GAMMA)));
    var input := MulM(AddM(Var(INPUT), Var(BETA)), AddM(Var(TABLE), Var(GAMMA)));
    [Let(BETA, Load(Named(BETA_MPTR)))]
    + ([Let(GAMMA, Load(Named(GAMMA_MPTR)))]
    + ([Let(LHS, MulM(Load(v.zNext), permuted))] + [Let(RHS, MulM(Load(v.z), input))]))
  }

  function LookupProduct(l: Lookup, v: LookupEvals, data: EvalPlaces): Snippet
    requires ValidLookup(l, data)
  {
    Snippet(ProductHead(l, data) + ProductSides(v)
            + [Let(EVAL, MulM(L_ACTIVE, AddM(Var(LHS), SubR(Var(RHS)))))], EVAL)
  }

  function LookupStart(v: LookupEvals): Snippet {
    Snippet([Let(EVAL, MulM(Load(Named(L_0_MPTR)), AddM(Load(v.pInput), SubR(Load(v.pTable)))))], EVAL)
  }

  function LookupSorted(v: LookupEvals): Snippet {
    var lhs := AddM(Load(v.pInput), SubR(Load(v.pTable)));
    var rhs := AddM(Load(v.pInput), SubR(Load(v.pInputPrev)));
    Snippet([Let(EVAL, MulM(L_ACTIVE, MulM(lhs, rhs)))], EVAL)
  }

  function LookupBlock(l: Lookup, v: LookupEvals, data: EvalPlaces): seq<Snippet>
    requires ValidLookup(l, data)
  {
    [LookupFirst(v)]
    + ([LookupLast(v)] + ([LookupProduct(l, v, data)] + ([LookupStart(v)] + [LookupSorted(v)])))
  }

  function LookupCode(lookups: seq<Lookup>, evals: seq<LookupEvals>, data: EvalPlaces): seq<Snippet>
    requires |lookups| == |evals|
    requires forall l :: l in lookups ==> ValidLookup(l, data)
  {
    if lookups == [] then [] else
    LookupBlock(lookups[0], evals[0], data) + LookupCode(lookups[1..], evals[1..], data)
  }

  // -------- the quotient evaluation --------

  predicate ValidLookup(l: Lookup, data: EvalPlaces) {
    && l.inputs != [] && l.tables != []
    && (forall e :: e in l.inputs ==> Compilable(e, data.places))
    && (forall e :: e in l.tables ==> Compilable(e, data.places))
  }

  predicate ValidCircuit(circuit: Circuit, data: EvalPlaces) {
    && (forall e :: e in circuit.gates ==> Compilable(e, data.places))
    && (forall c :: c in circuit.columns ==> KnownColumn(c, data))
    && circuit.columns != [] && circuit.chunkLen >= 1
    && |data.permutationZs| == NumChunks(|circuit.columns|, circuit.chunkLen)
    && |circuit.lookups| == |data.lookups|
    && (forall l :: l in circuit.lookups ==> ValidLookup(l, data))
  }

  function GateCodes(gates: seq<Expression>, data: EvalPlaces): seq<Snippet>
    requires forall e :: e in gates ==> Compilable(e, data.places)
  {
    if gates == [] then [] else [GateCode(gates[0], data.places)] + GateCodes(gates[1..], data)
  }

  function ConstraintCode(circuit: Circuit, data: EvalPlaces): seq<Snippet>
    requires ValidCircuit(circuit, data)
  {
    GateCodes(circuit.gates, data) + PermutationCode(circuit, data)
    + LookupCode(circuit.lookups, data.lookups, data)
  }

  function FoldBlock(first: bool, code: Snippet): Stmt {
    var line :=
      if first then Assign(QUOTIENT_EVAL_NUMER, Var(code.result))
      else Assign(QUOTIENT_EVAL_NUMER, AddM(MulM(Var(QUOTIENT_EVAL_NUMER), Var(Y)), Var(code.result)));
    Block(code.lines + [line])
  }

  function FoldBlocks(first: bool, codes: seq<Snippet>): seq<Stmt> {
    if codes == [] then [] else [FoldBlock(first, codes[0])] + FoldBlocks(false, codes[1..])
  }

  function QuotientProgram(circuit: Circuit, data: EvalPlaces): seq<Stmt>
    requires ValidCircuit(circuit, data)
  {
    FoldBlocks(true, ConstraintCode(circuit, data))
  }
}
