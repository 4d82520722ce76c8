/**
  What the constraint blocks compute: every block leaves the value of its constraint, and
  their fold is the sum of all constraints weighted with powers of `y`.
 */
module Quotient {
  import opened Common
  import opened Yul
  import opened Evaluation
  import opened Horner
  import opened Constraints

  // -------- the constraints over the integers --------

  function At(mem: map<Ptr, int>, p: Ptr): int {
    if p in mem then mem[p] else 0
  }

  function Const(mem: map<Ptr, int>, c: Constant): int {
    At(mem, Named(c))
  }

  function Active(mem: map<Ptr, int>): int {
    1 - (Const(mem, L_LAST_MPTR) + Const(mem, L_BLIND_MPTR))
  }

  // The evaluation of a permutation column at the current row.
  function ColumnValue(c: Column, env: Env): int {
    match c.kind
    case AdviceColumn => if (c.index, 0) in env.advice then env.advice[(c.index, 0)] else 0
    case FixedColumn => if (c.index, 0) in env.fixed then env.fixed[(c.index, 0)] else 0
    case InstanceColumn => env.instance_
  }

  function LeftFactor(c: Column, data: EvalPlaces, mem: map<Ptr, int>, env: Env): int
    requires KnownColumn(c, data)
  {
    ColumnValue(c, env) + Const(mem, BETA_MPTR) * At(mem, data.permutation[c]) + Const(mem, GAMMA_MPTR)
  }

  function LeftProduct(columns: seq<Column>, data: EvalPlaces, mem: map<Ptr, int>, env: Env): int
    requires forall c :: c in columns ==> KnownColumn(c, data)
  {
    if columns == [] then 1 else LeftFactor(columns[0], data, mem, env) * LeftProduct(columns[1..], data, mem, env)
  }

  // The factor of the column with global index j carries beta * x * delta^j.
  function RightFactor(c: Column, j: nat, data: EvalPlaces, mem: map<Ptr, int>, env: Env, delta: int): int
    requires KnownColumn(c, data)
  {
    ColumnValue(c, env) + Shift(mem, delta, j) + Const(mem, GAMMA_MPTR)
  }

  function RightProduct(columns: seq<Column>, base: nat, data: EvalPlaces, mem: map<Ptr, int>, env: Env, delta: int): int
    requires forall c :: c in columns ==> KnownColumn(c, data)
  {
    if columns == [] then 1
    else RightFactor(columns[0], base, data, mem, env, delta) * RightProduct(columns[1..], base + 1, data, mem, env, delta)
  }

  function Shift(mem: map<Ptr, int>, delta: int, j: nat): int {
    Const(mem, BETA_MPTR) * Const(mem, X_MPTR) * Pow(delta, j)
  }

  function ChunkValue(columns: seq<Column>, base: nat, z: ZEvals, data: EvalPlaces, mem: map<Ptr, int>, env: Env, delta: int): int
    requires forall c :: c in columns ==> KnownColumn(c, data)
  {
    Active(mem) * (At(mem, z.next) * LeftProduct(columns, data, mem, env)
                   - At(mem, z.cur) * RightProduct(columns, base, data, mem, env, delta))
  }

  function ChunkValues(columns: seq<Column>, base: nat, chunkLen: nat, zs: seq<ZEvals>, data: EvalPlaces,
                       mem: map<Ptr, int>, env: Env, delta: int): (v: seq<int>)
    requires forall c :: c in columns ==> KnownColumn(c, data)
    ensures |v| == |zs|
  {
    if zs == [] then [] else
    var n := Min(chunkLen, |columns|);
    [ChunkValue(columns[..n], base, zs[0], data, mem, env, delta)]
    + ChunkValues(columns[n..], base + n, chunkLen, zs[1..], data, mem, env, delta)
  }

  lemma ChunkValuesUnfold(columns: seq<Column>, base: nat, chunkLen: nat, zs: seq<ZEvals>, data: EvalPlaces,
                          mem: map<Ptr, int>, env: Env, delta: int)
    requires (forall c :: c in columns ==> KnownColumn(c, data)) && zs != []
    ensures var n := Min(chunkLen, |columns|);
            ChunkValues(columns, base, chunkLen, zs, data, mem, env, delta)
            == [ChunkValue(columns[..n], base, zs[0], data, mem, env, delta)]
               + ChunkValues(columns[n..], base + n, chunkLen, zs[1..], data, mem, env, delta)
  {
    hide ChunkValue;
  }

  function LinkValues(zs: seq<ZEvals>, mem: map<Ptr, int>): seq<int> {
    if |zs| < 2 then []
    else [Const(mem, L_0_MPTR) * (At(mem, zs[1].cur) - At(mem, zs[0].last))] + LinkValues(zs[1..], mem)
  }

  function PermutationValues(circuit: Circuit, data: EvalPlaces, mem: map<Ptr, int>, env: Env, delta: int): seq<int>
    requires ValidCircuit(circuit, data)
  {
    var zs := data.permutationZs;
    var zLast := At(mem, zs[|zs| - 1].cur);
    [Const(mem, L_0_MPTR) * (1 - At(mem, zs[0].cur))]
    + [Const(mem, L_LAST_MPTR) * (zLast * zLast - zLast)]
    + LinkValues(zs, mem)
    + ChunkValues(circuit.columns, 0, circuit.chunkLen, zs, data, mem, env, delta)
  }

  function IntValues(es: seq<Expression>, env: Env): seq<int>
    requires forall e :: e in es ==> InScope(e, env)
  {
    seq(|es|, i requires 0 <= i < |es| => IntValue(es[i], env))
  }

  ghost predicate LookupInScope(l: Lookup, env: Env) {
    (forall e :: e in l.inputs ==> InScope(e, env)) && (forall e :: e in l.tables ==> InScope(e, env))
  }

  // The product rule of a lookup, its expressions weighted with powers of theta.
  function ProductValue(l: Lookup, v: LookupEvals, mem: map<Ptr, int>, env: Env): int
    requires LookupInScope(l, env)
  {
    var beta, gamma, theta := Const(mem, BETA_MPTR), Const(mem, GAMMA_MPTR), Const(mem, THETA_MPTR);
    var input, table := PowerSum(IntValues(l.inputs, env), theta), PowerSum(IntValues(l.tables, env), theta);
    Active(mem) * (At(mem, v.zNext) * ((At(mem, v.pInput) + beta) * (At(mem, v.pTable) + gamma))
                   - At(mem, v.z) * ((input + beta) * (table + gamma)))
  }

  // The five constraints of one lookup argument.
  function LookupValue(l: Lookup, v: LookupEvals, mem: map<Ptr, int>, env: Env): seq<int>
    requires LookupInScope(l, env)
  {
    var z, pInput, pPrev, pTable := At(mem, v.z), At(mem, v.pInput), At(mem, v.pInputPrev), At(mem, v.pTable);
    [Const(mem, L_0_MPTR) * (1 - z)]
    + ([Const(mem, L_LAST_MPTR) * (z * z - z)]
    + ([ProductValue(l, v, mem, env)]
    + ([Const(mem, L_0_MPTR) * (pInput - pTable)]
    + [Active(mem) * ((pInput - pTable) * (pInput - pPrev))])))
  }

  function LookupValues(lookups: seq<Lookup>, evals: seq<LookupEvals>, mem: map<Ptr, int>, env: Env): seq<int>
    requires |lookups| == |evals|
    requires forall l :: l in lookups ==> LookupInScope(l, env)
  {
    if lookups == [] then []
    else LookupValue(lookups[0], evals[0], mem, env) + LookupValues(lookups[1..], evals[1..], mem, env)
  }

  ghost predicate CircuitInScope(circuit: Circuit, env: Env) {
    && (forall e :: e in circuit.gates ==> InScope(e, env))
    && (forall l :: l in circuit.lookups ==> LookupInScope(l, env))
  }

  function ConstraintValues(circuit: Circuit, data: EvalPlaces, mem: map<Ptr, int>, env: Env, delta: int): seq<int>
    requires ValidCircuit(circuit, data) && CircuitInScope(circuit, env)
  {
    IntValues(circuit.gates, env) + PermutationValues(circuit, data, mem, env, delta)
    + LookupValues(circuit.lookups, data.lookups, mem, env)
  }

  // -------- running a block --------

  // The words that the blocks read. The scratch word is not among them before it is written.
  ghost predicate Loaded(data: EvalPlaces, mem: map<Ptr, int>, env: Env) {
    && SCRATCH !in mem
    && Presents(mem, data.places, env)
    && NamesLoaded(mem)
    && (forall c :: c in data.permutation ==> data.permutation[c] in mem)
    && (forall i :: 0 <= i < |data.permutationZs| ==> ZLoaded(data.permutationZs[i], mem))
    && (forall i :: 0 <= i < |data.permutationZs| - 1 ==> data.permutationZs[i].last in mem)
    && (forall i :: 0 <= i < |data.lookups| ==> LookupLoaded(data.lookups[i], mem))
  }

  ghost predicate NamesLoaded(mem: map<Ptr, int>) {
    && Named(L_0_MPTR) in mem && Named(L_LAST_MPTR) in mem && Named(L_BLIND_MPTR) in mem
    && Named(X_MPTR) in mem && Named(BETA_MPTR) in mem && Named(GAMMA_MPTR) in mem && Named(THETA_MPTR) in mem
  }

  ghost predicate ZLoaded(z: ZEvals, mem: map<Ptr, int>) {
    z.cur in mem && z.next in mem
  }

  ghost predicate LookupLoaded(v: LookupEvals, mem: map<Ptr, int>) {
    v.z in mem && v.zNext in mem && v.pInput in mem && v.pInputPrev in mem && v.pTable in mem
  }

  // What surrounds the blocks.
  function Frame(q: int, delta: int, y: int): map<Name, int> {
    map[QUOTIENT_EVAL_NUMER := q, DELTA := delta, Y := y]
  }

  // Running `code` from the frame leaves `value` in its result, `mem'` in memory and the
  // frame as it was.
  ghost predicate Yields(code: Snippet, frame: map<Name, int>, mem: map<Ptr, int>, mem': map<Ptr, int>, value: int) {
    var o := Exec(Exact, code.lines, State(frame, mem));
    && o.Some? && o.value.mem == mem'
    && code.result in o.value.vars && o.value.vars[code.result] == value
    && (forall x :: x in frame ==> x in o.value.vars && o.value.vars[x] == frame[x])
  }

  ghost predicate YieldsAlways(code: Snippet, delta: int, y: int, mem: map<Ptr, int>, mem': map<Ptr, int>, value: int) {
    forall q :: Yields(code, Frame(q, delta, y), mem, mem', value)
  }

  // The blocks `codes` yield `values` one after the other, with memory evolving along `mems`.
  ghost predicate Chain(codes: seq<Snippet>, delta: int, y: int, mems: seq<map<Ptr, int>>, values: seq<int>) {
    && |codes| == |values| && |mems| == |codes| + 1
    && forall i :: 0 <= i < |codes| ==> YieldsAlways(codes[i], delta, y, mems[i], mems[i + 1], values[i])
  }

  // -------- single statements --------

  // The defining equations of Eval, available at every depth of a template.
  lemma EvalRules(s: State)
    ensures forall x {:trigger Var(x)} :: x in s.vars ==> Defined(Var(x), s) && Eval(Exact, Var(x), s) == s.vars[x]
    ensures forall p {:trigger Load(p)} :: p in s.mem ==> Defined(Load(p), s) && Eval(Exact, Load(p), s) == s.mem[p]
    ensures forall a {:trigger SubR(a)} :: Defined(a, s) ==>
              Defined(SubR(a), s) && Eval(Exact, SubR(a), s) == -Eval(Exact, a, s)
    ensures forall a, b {:trigger AddM(a, b)} :: Defined(a, s) && Defined(b, s) ==>
              Defined(AddM(a, b), s) && Eval(Exact, AddM(a, b), s) == Eval(Exact, a, s) + Eval(Exact, b, s)
    ensures forall a, b {:trigger MulM(a, b)} :: Defined(a, s) && Defined(b, s) ==>
              Defined(MulM(a, b), s) && Eval(Exact, MulM(a, b), s) == Eval(Exact, a, s) * Eval(Exact, b, s)
  {
  }

  lemma RunNothing(s: State)
    ensures Exec(Exact, [], s) == Some(s)
  {
  }

  lemma RunLet(x: Name, e: Expr, s: State)
    requires x !in s.vars && Defined(e, s)
    ensures Exec(Exact, [Let(x, e)], s) == Some(s.(vars := s.vars[x := Eval(Exact, e, s)]))
  {
    assert [Let(x, e)][1..] == [];
  }

  lemma RunDeclare(x: Name, s: State)
    requires x !in s.vars
    ensures Exec(Exact, [Declare(x)], s) == Some(s.(vars := s.vars[x := 0]))
  {
    assert [Declare(x)][1..] == [];
  }

  lemma RunAssign(x: Name, e: Expr, s: State)
    requires x in s.vars && Defined(e, s)
    ensures Exec(Exact, [Assign(x, e)], s) == Some(s.(vars := s.vars[x := Eval(Exact, e, s)]))
  {
    assert [Assign(x, e)][1..] == [];
  }

  lemma RunStore(p: Ptr, e: Expr, s: State)
    requires Defined(e, s)
    ensures Exec(Exact, [Store(p, e)], s) == Some(s.(mem := s.mem[p := Eval(Exact, e, s)]))
  {
    assert [Store(p, e)][1..] == [];
  }

  lemma RunBlock(body: seq<Stmt>, s: State)
    requires Exec(Exact, body, s).Some?
    ensures var t := Exec(Exact, body, s).value;
            Exec(Exact, [Block(body)], s) == Some(State(Restrict(t.vars, s.vars.Keys), t.mem))
  {
    assert [Block(body)][1..] == [];
  }

  // -------- the fold --------

  lemma FoldedValue(first: bool, x: Name, t: State)
    requires QUOTIENT_EVAL_NUMER in t.vars && Y in t.vars && x in t.vars
    requires first ==> t.vars[QUOTIENT_EVAL_NUMER] == 0
    ensures var e := if first then Var(x) else AddM(MulM(Var(QUOTIENT_EVAL_NUMER), Var(Y)), Var(x));
            Defined(e, t) && Eval(Exact, e, t) == t.vars[QUOTIENT_EVAL_NUMER] * t.vars[Y] + t.vars[x]
  {
    EvalRules(t);
  }

  lemma RunFoldBlock(first: bool, code: Snippet, f: map<Name, int>, mem: map<Ptr, int>, mem': map<Ptr, int>, value: int)
    requires QUOTIENT_EVAL_NUMER in f && Y in f && Yields(code, f, mem, mem', value)
    requires first ==> f[QUOTIENT_EVAL_NUMER] == 0
    ensures Exec(Exact, [FoldBlock(first, code)], State(f, mem))
            == Some(State(f[QUOTIENT_EVAL_NUMER := f[QUOTIENT_EVAL_NUMER] * f[Y] + value], mem'))
  {
    var t := Exec(Exact, code.lines, State(f, mem)).value;
    var e := if first then Var(code.result) else AddM(MulM(Var(QUOTIENT_EVAL_NUMER), Var(Y)), Var(code.result));
    var v := f[QUOTIENT_EVAL_NUMER] * f[Y] + value;
    FoldedValue(first, code.result, t);
    hide Exec, Eval;
    ExecConcat(Exact, code.lines, [Assign(QUOTIENT_EVAL_NUMER, e)], State(f, mem));
    RunAssign(QUOTIENT_EVAL_NUMER, e, t);
    RunBlock(code.lines + [Assign(QUOTIENT_EVAL_NUMER, e)], State(f, mem));
    assert Restrict(t.vars[QUOTIENT_EVAL_NUMER := v], f.Keys) == f[QUOTIENT_EVAL_NUMER := v];
  }

  lemma {:induction false} RunFoldBlocks(first: bool, codes: seq<Snippet>, q: int, delta: int, y: int,
                                         mems: seq<map<Ptr, int>>, values: seq<int>)
    requires Chain(codes, delta, y, mems, values)
    requires first ==> q == 0
    ensures Exec(Exact, FoldBlocks(first, codes), State(Frame(q, delta, y), mems[0]))
            == Some(State(Frame(Fold(q, values, y), delta, y), mems[|codes|]))
    decreases codes
  {
    hide YieldsAlways, Exec;
    if codes == [] {
      RunNothing(State(Frame(q, delta, y), mems[0]));
    } else {
      var q' := q * y + values[0];
      var s := State(Frame(q, delta, y), mems[0]);
      RunFoldBlockInFrame(first, codes[0], q, delta, y, mems[0], mems[1], values[0]);
      ChainTail(codes, delta, y, mems, values);
      hide Chain, Frame;
      ExecConcat(Exact, [FoldBlock(first, codes[0])], FoldBlocks(false, codes[1..]), s);
      RunFoldBlocks(false, codes[1..], q', delta, y, mems[1..], values[1..]);
    }
  }

  lemma RunFoldBlockInFrame(first: bool, code: Snippet, q: int, delta: int, y: int, mem: map<Ptr, int>,
                            mem': map<Ptr, int>, value: int)
    requires YieldsAlways(code, delta, y, mem, mem', value)
    requires first ==> q == 0
    ensures Exec(Exact, [FoldBlock(first, code)], State(Frame(q, delta, y), mem))
            == Some(State(Frame(q * y + value, delta, y), mem'))
  {
    hide Exec;
    var f := Frame(q, delta, y);
    assert Yields(code, f, mem, mem', value);
    RunFoldBlock(first, code, f, mem, mem', value);
    assert f[QUOTIENT_EVAL_NUMER := q * y + value] == Frame(q * y + value, delta, y);
  }

  lemma ChainTail(codes: seq<Snippet>, delta: int, y: int, mems: seq<map<Ptr, int>>, values: seq<int>)
    requires Chain(codes, delta, y, mems, values) && codes != []
    ensures Chain(codes[1..], delta, y, mems[1..], values[1..])
  {
    hide YieldsAlways;
    forall i | 0 <= i < |codes[1..]|
      ensures YieldsAlways(codes[1..][i], delta, y, mems[1..][i], mems[1..][i + 1], values[1..][i])
    {
      assert YieldsAlways(codes[i + 1], delta, y, mems[i + 1], mems[i + 2], values[i + 1]);
    }
  }

  lemma ChainConcat(a: seq<Snippet>, b: seq<Snippet>, delta: int, y: int, ma: seq<map<Ptr, int>>,
                    mb: seq<map<Ptr, int>>, va: seq<int>, vb: seq<int>)
    requires Chain(a, delta, y, ma, va) && Chain(b, delta, y, mb, vb) && ma[|a|] == mb[0]
    ensures Chain(a + b, delta, y, ma[..|a|] + mb, va + vb)
  {
    hide YieldsAlways;
    var mems := ma[..|a|] + mb;
    forall i | 0 <= i < |a + b|
      ensures YieldsAlways((a + b)[i], delta, y, mems[i], mems[i + 1], (va + vb)[i])
    {
      if i < |a| {
        assert YieldsAlways(a[i], delta, y, ma[i], ma[i + 1], va[i]);
      } else {
        assert YieldsAlways(b[i - |a|], delta, y, mb[i - |a|], mb[i - |a| + 1], vb[i - |a|]);
      }
    }
  }

  lemma ChainOne(code: Snippet, delta: int, y: int, mem: map<Ptr, int>, mem': map<Ptr, int>, value: int)
    requires YieldsAlways(code, delta, y, mem, mem', value)
    ensures Chain([code], delta, y, [mem, mem'], [value])
  {
  }

  // -------- the simple blocks --------

  ghost predicate OneLet(e: Expr, s: State, value: int) {
    Defined(e, s) && Eval(Exact, e, s) == value
  }

  ghost predicate TwoLets(x: Name, d: Expr, e: Expr, s: State, value: int) {
    && x !in s.vars && x != EVAL && EVAL !in s.vars
    && Defined(d, s)
    && OneLet(e, s.(vars := s.vars[x := Eval(Exact, d, s)]), value)
  }

  lemma YieldsLet(e: Expr, delta: int, y: int, mem: map<Ptr, int>, value: int)
    requires forall q :: OneLet(e, State(Frame(q, delta, y), mem), value)
    ensures YieldsAlways(Snippet([Let(EVAL, e)], EVAL), delta, y, mem, mem, value)
  {
    forall q
      ensures Yields(Snippet([Let(EVAL, e)], EVAL), Frame(q, delta, y), mem, mem, value)
    {
      hide Exec;
      var s := State(Frame(q, delta, y), mem);
      assert OneLet(e, s, value);
      RunLet(EVAL, e, s);
    }
  }

  lemma YieldsLets(x: Name, d: Expr, e: Expr, delta: int, y: int, mem: map<Ptr, int>, value: int)
    requires forall q :: TwoLets(x, d, e, State(Frame(q, delta, y), mem), value)
    ensures YieldsAlways(Snippet([Let(x, d)] + [Let(EVAL, e)], EVAL), delta, y, mem, mem, value)
  {
    var code := Snippet([Let(x, d)] + [Let(EVAL, e)], EVAL);
    forall q
      ensures Yields(code, Frame(q, delta, y), mem, mem, value)
    {
      hide Exec;
      var s := State(Frame(q, delta, y), mem);
      assert TwoLets(x, d, e, s, value);
      var t := s.(vars := s.vars[x := Eval(Exact, d, s)]);
      RunLet(x, d, s);
      RunLet(EVAL, e, t);
      ExecConcat(Exact, [Let(x, d)], [Let(EVAL, e)], s);
    }
  }
}
