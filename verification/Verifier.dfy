/** The quotient numerator that the generated verifier computes on the EVM. */
module Verifier {
  import opened Common
  import opened Words
  import opened Yul
  import opened Evaluation
  import opened Horner
  import opened Constraints
  import opened Quotient
  import opened LookupBlocks

  // -------- the emitted literals are field elements --------

  lemma FitRules()
    ensures forall x {:trigger Var(x)} :: LiteralsFit(Var(x))
    ensures forall p {:trigger Load(p)} :: LiteralsFit(Load(p))
    ensures LiteralsFit(Num(1))
    ensures forall a {:trigger SubR(a)} :: LiteralsFit(a) ==> LiteralsFit(SubR(a))
    ensures forall a, b {:trigger AddM(a, b)} :: LiteralsFit(a) && LiteralsFit(b) ==> LiteralsFit(AddM(a, b))
    ensures forall a, b {:trigger MulM(a, b)} :: LiteralsFit(a) && LiteralsFit(b) ==> LiteralsFit(MulM(a, b))
  {
  }

  ghost predicate CodesFit(codes: seq<Snippet>) {
    forall c :: c in codes ==> AllLiteralsFit(c.lines)
  }

  lemma {:induction false} FoldBlocksFit(first: bool, codes: seq<Snippet>)
    requires CodesFit(codes)
    ensures AllLiteralsFit(FoldBlocks(first, codes))
  {
    if codes != [] {
      FoldBlocksFit(false, codes[1..]);
      FitRules();
      var b := FoldBlock(first, codes[0]);
      assert AllLiteralsFit(codes[0].lines);
      assert AllLiteralsFit(b.body);
      assert StmtFits(b);
    }
  }

  lemma GateCodeFits(e: Expression, places: Places)
    requires Compilable(e, places)
    ensures AllLiteralsFit(GateCode(e, places).lines)
  {
    hide AllLiteralsFit, Compile, Compilable, ScopeFits, Mirrors, SingleAssignment, Declared;
    var c := Compile(e, places, FRESH);
    FreshScope(places);
    CompileSingleAssignment(e, places, FRESH, []);
    assert [] + c.lines == c.lines;
    AssignmentsFit(c.lines);
  }

  lemma FreshScope(places: Places)
    ensures ScopeFits(FRESH, places) && Mirrors(FRESH, []) && SingleAssignment([])
  {
  }

  lemma AssignmentsFit(lines: seq<Stmt>)
    requires SingleAssignment(lines)
    ensures AllLiteralsFit(lines)
  {
    hide Declared, LiteralsFit;
  }

  lemma {:induction false} GateCodesFit(gates: seq<Expression>, data: EvalPlaces)
    requires forall e :: e in gates ==> Compilable(e, data.places)
    ensures CodesFit(GateCodes(gates, data))
  {
    hide AllLiteralsFit, GateCode, Compilable;
    if gates != [] {
      GateCodesFit(gates[1..], data);
      GateCodeFits(gates[0], data.places);
    }
  }

  lemma {:induction false} ColumnLinesFit(columns: seq<Column>, data: EvalPlaces, lastChunk: bool)
    requires forall c :: c in columns ==> KnownColumn(c, data)
    ensures AllLiteralsFit(LhsLines(columns, data)) && AllLiteralsFit(RhsLines(columns, data, lastChunk))
  {
    if columns != [] {
      ColumnLinesFit(columns[1..], data, lastChunk);
      FitRules();
    }
  }

  lemma ChunkCodeFits(columns: seq<Column>, z: ZEvals, data: EvalPlaces, firstChunk: bool, lastChunk: bool)
    requires forall c :: c in columns ==> KnownColumn(c, data)
    ensures AllLiteralsFit(ChunkCode(columns, z, data, firstChunk, lastChunk).lines)
  {
    ColumnLinesFit(columns, data, lastChunk);
    hide LhsLines, RhsLines;
    FitRules();
    assert AllLiteralsFit(ChunkHead(z)) && AllLiteralsFit(ChunkSeed(firstChunk)) && AllLiteralsFit(ChunkTail());
  }

  lemma {:induction false} ChunkCodesFit(columns: seq<Column>, chunkLen: nat, zs: seq<ZEvals>, data: EvalPlaces,
                                         firstChunk: bool)
    requires forall c :: c in columns ==> KnownColumn(c, data)
    ensures CodesFit(ChunkCodes(columns, chunkLen, zs, data, firstChunk))
    decreases zs
  {
    hide AllLiteralsFit, ChunkCode;
    if zs != [] {
      var n := Min(chunkLen, |columns|);
      ChunkCodeFits(columns[..n], zs[0], data, firstChunk, |zs| == 1);
      ChunkCodesFit(columns[n..], chunkLen, zs[1..], data, false);
    }
  }

  lemma {:induction false} LinkCodesFit(zs: seq<ZEvals>)
    ensures CodesFit(LinkCodes(zs))
  {
    if |zs| >= 2 {
      LinkCodesFit(zs[1..]);
      FitRules();
      assert AllLiteralsFit(LinkedZs(zs[0], zs[1]).lines);
    }
  }

  lemma BoundaryCodesFit(z: ZEvals)
    ensures AllLiteralsFit(FirstZ(z).lines) && AllLiteralsFit(LastZ(z).lines)
  {
    FitRules();
  }

  lemma PermutationCodeFits(circuit: Circuit, data: EvalPlaces)
    requires ValidCircuit(circuit, data)
    ensures CodesFit(PermutationCode(circuit, data))
  {
    hide LinkCodes, ChunkCodes, FirstZ, LastZ, AllLiteralsFit;
    var zs := data.permutationZs;
    LinkCodesFit(zs);
    ChunkCodesFit(circuit.columns, circuit.chunkLen, zs, data, true);
    BoundaryCodesFit(zs[0]);
    BoundaryCodesFit(zs[|zs| - 1]);
  }

  lemma {:induction false} CompressLinesFit(target: Name, results: seq<Name>)
    ensures AllLiteralsFit(CompressLines(target, results))
  {
    FitRules();
    if |results| > 1 {
      CompressLinesFit(target, results[..|results| - 1]);
    }
  }

  lemma CompressBlockFits(target: Name, es: seq<Expression>, data: EvalPlaces)
    requires forall e :: e in es ==> Compilable(e, data.places)
    ensures StmtFits(CompressBlock(target, es, data))
  {
    var c := CompileAll(es, data.places, FRESH);
    CompileAllSingleAssignment(es, data.places);
    CompressLinesFit(target, c.results);
    assert AllLiteralsFit(c.lines);
    assert AllLiteralsFit(CompressBlock(target, es, data).body);
  }

  lemma LookupProductFits(l: Lookup, v: LookupEvals, data: EvalPlaces)
    requires ValidLookup(l, data)
    ensures AllLiteralsFit(LookupProduct(l, v, data).lines)
  {
    CompressBlockFits(INPUT, l.inputs, data);
    CompressBlockFits(TABLE, l.tables, data);
    hide CompressBlock;
    FitRules();
    assert AllLiteralsFit(ProductHead(l, data));
    ProductSidesFit(v);
    ProductEvalFits();
    hide ProductHead, ProductSides;
  }

  lemma ProductSidesFit(v: LookupEvals)
    ensures AllLiteralsFit(ProductSides(v))
  {
    FitRules();
  }

  lemma ProductEvalFits()
    ensures AllLiteralsFit([Let(EVAL, MulM(L_ACTIVE, AddM(Var(LHS), SubR(Var(RHS)))))])
  {
    FitRules();
    assert LiteralsFit(L_ACTIVE);
  }

  lemma SimpleLookupsFit(v: LookupEvals)
    ensures AllLiteralsFit(LookupFirst(v).lines) && AllLiteralsFit(LookupLast(v).lines)
    ensures AllLiteralsFit(LookupStart(v).lines) && AllLiteralsFit(LookupSorted(v).lines)
  {
    FitRules();
  }

  lemma LookupBlockFits(l: Lookup, v: LookupEvals, data: EvalPlaces)
    requires ValidLookup(l, data)
    ensures CodesFit(LookupBlock(l, v, data))
  {
    hide AllLiteralsFit, LookupProduct, LookupFirst, LookupLast, LookupStart, LookupSorted;
    LookupProductFits(l, v, data);
    SimpleLookupsFit(v);
  }

  lemma {:induction false} LookupCodeFits(lookups: seq<Lookup>, evals: seq<LookupEvals>, data: EvalPlaces)
    requires |lookups| == |evals| && forall l :: l in lookups ==> ValidLookup(l, data)
    ensures CodesFit(LookupCode(lookups, evals, data))
    decreases lookups
  {
    hide AllLiteralsFit, LookupBlock;
    if lookups != [] {
      LookupBlockFits(lookups[0], evals[0], data);
      LookupCodeFits(lookups[1..], evals[1..], data);
    }
  }

  lemma QuotientProgramFits(circuit: Circuit, data: EvalPlaces)
    requires ValidCircuit(circuit, data)
    ensures AllLiteralsFit(QuotientProgram(circuit, data))
  {
    GateCodesFit(circuit.gates, data);
    PermutationCodeFits(circuit, data);
    LookupCodeFits(circuit.lookups, data.lookups, data);
    hide AllLiteralsFit, GateCodes, PermutationCode, LookupCode;
    FoldBlocksFit(true, ConstraintCode(circuit, data));
  }

  // -------- the theorem --------

  lemma ValidCircuitInScope(circuit: Circuit, data: EvalPlaces, mem: map<Ptr, int>, env: Env)
    requires ValidCircuit(circuit, data) && Presents(mem, data.places, env)
    ensures CircuitInScope(circuit, env)
  {
    hide Presents;
    forall e | e in circuit.gates
      ensures InScope(e, env)
    {
      CompilableInScope(e, data.places, mem, env);
    }
    forall l | l in circuit.lookups
      ensures LookupInScope(l, env)
    {
      assert ValidLookup(l, data);
      forall e | e in l.inputs ensures InScope(e, env) { CompilableInScope(e, data.places, mem, env); }
      forall e | e in l.tables ensures InScope(e, env) { CompilableInScope(e, data.places, mem, env); }
    }
  }

  // For every circuit and every verifier state whose words are field elements, the emitted
  // blocks run on the EVM, and quotient_eval_numer ends congruent to the sum of all gate,
  // permutation and lookup constraints, each weighted with its power of y.
  lemma QuotientCorrect(circuit: Circuit, data: EvalPlaces, s: State, env: Env, delta: int, y: int) returns (t: State)
    requires ValidCircuit(circuit, data) && Loaded(data, s.mem, env)
    requires s.vars == Frame(0, delta, y) && 0 <= delta < R && 0 <= y < R
    requires forall p :: p in s.mem ==> 0 <= s.mem[p] < R
    ensures CircuitInScope(circuit, env)
    ensures Exec(Evm, QuotientProgram(circuit, data), s) == Some(t)
    ensures t.vars.Keys == s.vars.Keys
    ensures 0 <= t.vars[QUOTIENT_EVAL_NUMER] <= R
    ensures Cong(t.vars[QUOTIENT_EVAL_NUMER],
                 PowerSum(ConstraintValues(circuit, data, s.mem, env, delta), y))
  {
    assert Related(s, s) by {
      CanonicalSelfRelated(s);
    }
    assert Presents(s.mem, data.places, env);
    hide Exec, Chain, Loaded, ValidCircuit, ConstraintCode, ConstraintValues, CircuitInScope, FoldBlocks, Presents, Fold, PowerSum, AllLiteralsFit;
    ValidCircuitInScope(circuit, data, s.mem, env);
    QuotientProgramFits(circuit, data);
    var mems := ChainConstraints(circuit, data, s.mem, env, delta, y);
    var values := ConstraintValues(circuit, data, s.mem, env, delta);
    RunFoldBlocks(true, ConstraintCode(circuit, data), 0, delta, y, mems, values);
    FoldIsPowerSum(0, values, y);
    var u := Exec(Exact, QuotientProgram(circuit, data), s).value;
    Simulation(QuotientProgram(circuit, data), s, s);
    t := Exec(Evm, QuotientProgram(circuit, data), s).value;
    assert QUOTIENT_EVAL_NUMER in t.vars && Represents(t.vars[QUOTIENT_EVAL_NUMER], u.vars[QUOTIENT_EVAL_NUMER]);
  }

  // Chunk i of the permutation argument covers the columns with global indices from
  // i * chunkLen on, each with its own power of delta.
  lemma {:induction false} ChunkValueAt(columns: seq<Column>, base: nat, chunkLen: nat, zs: seq<ZEvals>,
                                        data: EvalPlaces, mem: map<Ptr, int>, env: Env, delta: int, i: nat, start: nat)
    requires forall c :: c in columns ==> KnownColumn(c, data)
    requires chunkLen >= 1 && |zs| == NumChunks(|columns|, chunkLen) && i < |zs| && start == i * chunkLen
    ensures start < |columns|
    ensures var end := Min(start + chunkLen, |columns|);
            ChunkValues(columns, base, chunkLen, zs, data, mem, env, delta)[i]
            == ChunkValue(columns[start..end], base + start, zs[i], data, mem, env, delta)
    decreases i
  {
    hide ChunkValue, ChunkValues, KnownColumn;
    var n := Min(chunkLen, |columns|);
    ChunkValuesUnfold(columns, base, chunkLen, zs, data, mem, env, delta);
    if i == 0 {
      assert columns[0..n] == columns[..n];
    } else {
      var rest := columns[n..];
      assert n == chunkLen;
      assert start - n == (i - 1) * chunkLen;
      ChunkValueAt(rest, base + n, chunkLen, zs[1..], data, mem, env, delta, i - 1, start - n);
      var end := Min(start, |rest|);
      assert rest[start - n..end] == columns[start..end + n];
    }
  }
}
