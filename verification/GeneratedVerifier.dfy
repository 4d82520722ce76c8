/** The generated verifier as a whole: a constraint system, its layout and its quotient code. */
module GeneratedVerifier {
  import opened Common
  import opened Words
  import opened Yul
  import opened Evaluation
  import opened Horner
  import opened Constraints
  import opened Quotient
  import opened Verifier
  import opened Layout
  import opened Openings
  import opened Loading

  // The expression queries only what the constraint system declares, and uses no selector.
  predicate Queried(e: Expression, cs: ConstraintSystem) {
    match e
    case Constant(c) => 0 <= c < R
    case Selector(_) => false
    case Fixed(q) => q in cs.fixedQueries
    case Advice(q) => q in cs.adviceQueries
    case Instance(_) => true
    case Challenge(i) => i < |cs.challengePhase|
    case Negated(a) => Queried(a, cs)
    case Sum(a, b) => Queried(a, cs) && Queried(b, cs)
    case Product(a, b) => Queried(a, cs) && Queried(b, cs)
    case Scaled(a, c) => Queried(a, cs) && 0 <= c < R
  }

  // A column of the permutation argument is queried at the current row.
  predicate ColumnQueried(c: Column, cs: ConstraintSystem) {
    match c.kind
    case AdviceColumn => (c.index, 0) in cs.adviceQueries
    case FixedColumn => (c.index, 0) in cs.fixedQueries
    case InstanceColumn => true
  }

  predicate LookupQueried(l: Lookup, cs: ConstraintSystem) {
    && l.inputs != [] && l.tables != []
    && (forall e :: e in l.inputs ==> Queried(e, cs))
    && (forall e :: e in l.tables ==> Queried(e, cs))
  }

  // The circuit whose constraint system this is.
  ghost predicate CircuitOf(circuit: Circuit, cs: ConstraintSystem) {
    && cs.degree >= 3
    && (forall e :: e in circuit.gates ==> Queried(e, cs))
    && circuit.columns == cs.permutationColumns && circuit.chunkLen == cs.degree - 2
    && (forall c :: c in circuit.columns ==> ColumnQueried(c, cs))
    && |circuit.lookups| == cs.numLookups
    && (forall l :: l in circuit.lookups ==> LookupQueried(l, cs))
  }

  ghost predicate Declares(places: EvalPlaces, cs: ConstraintSystem)
    requires cs.degree >= 3
  {
    && (forall q :: q in cs.fixedQueries ==> q in places.places.fixed)
    && (forall q :: q in cs.adviceQueries ==> q in places.places.advice)
    && (forall c :: c in cs.permutationColumns ==> c in places.permutation)
    && |places.places.challenges| == |cs.challengePhase|
    && |places.permutationZs| == NumChunks(|cs.permutationColumns|, cs.degree - 2)
    && |places.lookups| == cs.numLookups
  }

  lemma LayoutDeclares(cs: ConstraintSystem, vk: VerifyingKey, vkMptr: Ptr, proofCptr: Ptr, meta: Meta, data: Data)
    requires Generated(cs, vk, vkMptr, proofCptr, meta, data)
    ensures cs.degree >= 3 && Declares(data.places, cs)
  {
    hide NoDuplicates, RotationList, NumChunks, Collect, WordRange;
    DataCovers(cs, vk, vkMptr, proofCptr, meta, data);
  }

  lemma {:induction false} QueriedIsCompilable(e: Expression, cs: ConstraintSystem, places: EvalPlaces)
    requires cs.degree >= 3 && Declares(places, cs) && Queried(e, cs)
    ensures Compilable(e, places.places)
  {
    match e
    case Negated(a) => QueriedIsCompilable(a, cs, places);
    case Sum(a, b) =>
      QueriedIsCompilable(a, cs, places);
      QueriedIsCompilable(b, cs, places);
    case Product(a, b) =>
      QueriedIsCompilable(a, cs, places);
      QueriedIsCompilable(b, cs, places);
    case Scaled(a, _) => QueriedIsCompilable(a, cs, places);
    case _ =>
  }

  // The layout has a place for everything that the code of the circuit refers to.
  lemma LayoutFitsCircuit(circuit: Circuit, cs: ConstraintSystem, places: EvalPlaces)
    requires ValidSystem(cs) && CircuitOf(circuit, cs) && Declares(places, cs)
    ensures ValidCircuit(circuit, places)
  {
    hide NumChunks, NoDuplicates, Compilable, Queried;
    forall e | e in circuit.gates
      ensures Compilable(e, places.places)
    {
      QueriedIsCompilable(e, cs, places);
    }
    forall l | l in circuit.lookups
      ensures ValidLookup(l, places)
    {
      assert LookupQueried(l, cs);
      forall e | e in l.inputs ensures Compilable(e, places.places) { QueriedIsCompilable(e, cs, places); }
      forall e | e in l.tables ensures Compilable(e, places.places) { QueriedIsCompilable(e, cs, places); }
    }
    forall c | c in circuit.columns
      ensures KnownColumn(c, places)
    {
      assert ColumnQueried(c, cs);
    }
  }

  // The words that the constraint code reads: evaluations of the proof, challenges and the
  // named words that the verifier computed before.
  ghost predicate IsRead(p: Ptr, meta: Meta, data: Data) {
    || (data.evalCptr.value.Integer? && IsEvalWord(p, meta, data.evalCptr))
    || p in data.places.places.challenges
    || p in [Named(L_0_MPTR), Named(L_LAST_MPTR), Named(L_BLIND_MPTR), Named(X_MPTR), Named(BETA_MPTR),
             Named(GAMMA_MPTR), Named(THETA_MPTR), Named(INSTANCE_EVAL_MPTR)]
  }

  ghost function WordsRead(mem: map<Ptr, int>, meta: Meta, data: Data): map<Ptr, int> {
    map p | p in mem && IsRead(p, meta, data) :: mem[p]
  }

  lemma ReadIsLoaded(cs: ConstraintSystem, vk: VerifyingKey, vkMptr: Ptr, proofCptr: Ptr, meta: Meta, data: Data,
                     mem: map<Ptr, int>)
    requires Generated(cs, vk, vkMptr, proofCptr, meta, data)
    requires vkMptr.loc == Memory && vkMptr.value.n > 0 && proofCptr.loc == Calldata
    requires forall p :: IsRead(p, meta, data) ==> p in mem
    ensures var words := WordsRead(mem, meta, data);
            Loaded(data.places, words, EnvOf(data.places.places, words))
  {
    hide IsEvalWord, EnvOf, Generated, Loaded;
    var words := WordsRead(mem, meta, data);
    ScratchIsFree(cs, vk, vkMptr, proofCptr, meta, data);
    assert SCRATCH !in words;
    forall i | 0 <= i < |data.places.places.challenges|
      ensures data.places.places.challenges[i] in words
    {
      assert IsRead(data.places.places.challenges[i], meta, data);
    }
    LayoutIsLoaded(cs, vk, vkMptr, proofCptr, meta, data, words);
  }

  // For every circuit and every proof: if the words that the constraint code reads are field
  // elements, whatever the rest of memory holds, the emitted program runs on the EVM and
  // leaves the sum of all constraints, weighted with powers of y, modulo r.
  lemma GeneratedQuotient(circuit: Circuit, cs: ConstraintSystem, vk: VerifyingKey, vkMptr: Ptr, proofCptr: Ptr,
                          meta: Meta, data: Data, mem: map<Ptr, int>, delta: int, y: int) returns (t: State)
    requires Generated(cs, vk, vkMptr, proofCptr, meta, data) && CircuitOf(circuit, cs)
    requires vkMptr.loc == Memory && vkMptr.value.n > 0 && proofCptr.loc == Calldata
    requires forall p :: IsRead(p, meta, data) ==> p in mem && 0 <= mem[p] < R
    requires 0 <= delta < R && 0 <= y < R
    ensures var words := WordsRead(mem, meta, data);
            var env := EnvOf(data.places.places, words);
            && ValidCircuit(circuit, data.places) && CircuitInScope(circuit, env)
            && Exec(Evm, QuotientProgram(circuit, data.places), State(Frame(0, delta, y), mem)) == Some(t)
            && QUOTIENT_EVAL_NUMER in t.vars && 0 <= t.vars[QUOTIENT_EVAL_NUMER] <= R
            && Cong(t.vars[QUOTIENT_EVAL_NUMER], PowerSum(ConstraintValues(circuit, data.places, words, env, delta), y))
  {
    assert ValidSystem(cs);
    hide Generated, CircuitOf, Declares, ValidCircuit, ValidSystem, Loaded, IsRead, Exec, PowerSum, QuotientProgram,
         ConstraintValues, CircuitInScope, EnvOf;
    var words := WordsRead(mem, meta, data);
    LayoutDeclares(cs, vk, vkMptr, proofCptr, meta, data);
    LayoutFitsCircuit(circuit, cs, data.places);
    ReadIsLoaded(cs, vk, vkMptr, proofCptr, meta, data, mem);
    var env, s, more := EnvOf(data.places.places, words), State(Frame(0, delta, y), words), State(Frame(0, delta, y), mem);
    var u := QuotientCorrect(circuit, data.places, s, env, delta, y);
    ExecExtends(Evm, QuotientProgram(circuit, data.places), s, more);
    t := Exec(Evm, QuotientProgram(circuit, data.places), more).value;
  }
}
