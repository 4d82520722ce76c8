/** Gate and lookup blocks, and the correctness of the whole quotient evaluation. */
module LookupBlocks {
  import opened Common
  import opened Yul
  import opened Evaluation
  import opened Horner
  import opened Constraints
  import opened Quotient
  import opened Blocks

  lemma PresentsAgrees(m: map<Ptr, int>, mem: map<Ptr, int>, places: Places, env: Env)
    requires Agrees(m, mem) && Presents(mem, places, env)
    ensures Presents(m, places, env)
  {
  }

  // -------- gates --------

  lemma YieldsGate(e: Expression, places: Places, delta: int, y: int, mem: map<Ptr, int>, env: Env)
    requires Compilable(e, places) && InScope(e, env) && Presents(mem, places, env)
    ensures YieldsAlways(GateCode(e, places), delta, y, mem, mem, IntValue(e, env))
  {
    forall q
      ensures Yields(GateCode(e, places), Frame(q, delta, y), mem, mem, IntValue(e, env))
    {
      hide Exec, Compile, Presents;
      var s := State(Frame(q, delta, y), mem);
      var t := RunCompiled(Exact, e, places, FRESH, s, env);
    }
  }

  lemma {:induction false} ChainGates(gates: seq<Expression>, data: EvalPlaces, delta: int, y: int,
                                      mem: map<Ptr, int>, env: Env)
    requires forall e :: e in gates ==> Compilable(e, data.places) && InScope(e, env)
    requires Presents(mem, data.places, env)
    ensures Chain(GateCodes(gates, data), delta, y, Constantly(mem, |gates|), IntValues(gates, env))
  {
    hide YieldsAlways, Presents;
    if gates != [] {
      YieldsGate(gates[0], data.places, delta, y, mem, env);
      ChainGates(gates[1..], data, delta, y, mem, env);
      ChainConstantly(GateCode(gates[0], data.places), GateCodes(gates[1..], data), delta, y, mem,
                      IntValue(gates[0], env), IntValues(gates[1..], env));
      assert IntValues(gates, env) == [IntValue(gates[0], env)] + IntValues(gates[1..], env);
    }
  }

  // -------- compression with theta --------

  lemma {:induction false} RunCompressLines(target: Name, results: seq<Name>, values: seq<int>, s: State)
    requires target in s.vars && THETA in s.vars && target != THETA
    requires |results| == |values| >= 1 && target !in results
    requires forall i :: 0 <= i < |results| ==> results[i] in s.vars && s.vars[results[i]] == values[i]
    ensures Exec(Exact, CompressLines(target, results), s)
            == Some(s.(vars := s.vars[target := Fold(0, values, s.vars[THETA])]))
  {
    hide Exec;
    var n := |results| - 1;
    var theta := s.vars[THETA];
    assert values == values[..n] + [values[n]];
    FoldSnoc(0, values[..n], values[n], theta);
    if n == 0 {
      assert values[..n] == [];
      EvalRules(s);
      RunAssign(target, Var(results[0]), s);
    } else {
      RunCompressLines(target, results[..n], values[..n], s);
      var t := s.(vars := s.vars[target := Fold(0, values[..n], theta)]);
      var e := AddM(MulM(Var(target), Var(THETA)), Var(results[n]));
      assert results[n] in results;
      assert Defined(e, t) && Eval(Exact, e, t) == Fold(0, values[..n], theta) * theta + values[n] by {
        EvalRules(t);
      }
      RunAssign(target, e, t);
      ExecConcat(Exact, CompressLines(target, results[..n]), [Assign(target, e)], s);
      assert t.vars[target := Fold(0, values, theta)] == s.vars[target := Fold(0, values, theta)];
    }
  }

  lemma RunCompressBlock(target: Name, es: seq<Expression>, data: EvalPlaces, s: State, env: Env)
    requires es != [] && forall e :: e in es ==> Compilable(e, data.places) && InScope(e, env)
    requires Presents(s.mem, data.places, env)
    requires target in s.vars && THETA in s.vars && target != THETA
    requires forall x :: x in s.vars ==> !CompilerName(x)
    ensures Exec(Exact, [CompressBlock(target, es, data)], s)
            == Some(s.(vars := s.vars[target := PowerSum(IntValues(es, env), s.vars[THETA])]))
  {
    hide Exec, Presents;
    var c := CompileAll(es, data.places, FRESH);
    var t := RunCompiledAll(Exact, es, data.places, FRESH, s, env);
    CompileAllSingleAssignment(es, data.places);
    forall i | 0 <= i < |es|
      ensures CompilerName(c.results[i])
    {
      assert Declared(c.results[i], c.lines);
    }
    var values := IntValues(es, env);
    RunCompressLines(target, c.results, values, t);
    FoldIsPowerSum(0, values, s.vars[THETA]);
    var sum := PowerSum(values, s.vars[THETA]);
    ExecConcat(Exact, c.lines, CompressLines(target, c.results), s);
    RunBlock(c.lines + CompressLines(target, c.results), s);
    RestrictUpdated(s, t, target, sum);
  }

  lemma RestrictUpdated(s: State, t: State, x: Name, v: int)
    requires Extends(s, t) && x in s.vars
    ensures Restrict(t.vars[x := v], s.vars.Keys) == s.vars[x := v]
  {
  }

  // -------- the five blocks of a lookup --------

  lemma YieldsLookupFirst(v: LookupEvals, delta: int, y: int, m: map<Ptr, int>)
    requires Named(L_0_MPTR) in m && v.z in m
    ensures YieldsAlways(LookupFirst(v), delta, y, m, m, Const(m, L_0_MPTR) * (1 - At(m, v.z)))
  {
    var l0, z := Const(m, L_0_MPTR), At(m, v.z);
    var d := Load(Named(L_0_MPTR));
    var e := AddM(Var(L_0), MulM(Var(L_0), SubR(Load(v.z))));
    assert l0 + l0 * -z == l0 * (1 - z);
    forall q
      ensures TwoLets(L_0, d, e, State(Frame(q, delta, y), m), l0 * (1 - z))
    {
      hide YieldsAlways;
      var s := State(Frame(q, delta, y), m);
      EvalRules(s);
      EvalRules(s.(vars := s.vars[L_0 := l0]));
    }
    YieldsLets(L_0, d, e, delta, y, m, l0 * (1 - z));
  }

  lemma YieldsLookupLast(v: LookupEvals, delta: int, y: int, m: map<Ptr, int>)
    requires Named(L_LAST_MPTR) in m && v.z in m
    ensures YieldsAlways(LookupLast(v), delta, y, m, m,
                         Const(m, L_LAST_MPTR) * (At(m, v.z) * At(m, v.z) - At(m, v.z)))
  {
    var ll, z := Const(m, L_LAST_MPTR), At(m, v.z);
    var d := Load(Named(L_LAST_MPTR));
    var e := MulM(Var(L_LAST), AddM(MulM(Load(v.z), Load(v.z)), SubR(Load(v.z))));
    forall q
      ensures TwoLets(L_LAST, d, e, State(Frame(q, delta, y), m), ll * (z * z - z))
    {
      hide YieldsAlways;
      var s := State(Frame(q, delta, y), m);
      EvalRules(s);
      EvalRules(s.(vars := s.vars[L_LAST := ll]));
    }
    YieldsLets(L_LAST, d, e, delta, y, m, ll * (z * z - z));
  }

  lemma YieldsLookupStart(v: LookupEvals, delta: int, y: int, m: map<Ptr, int>)
    requires Named(L_0_MPTR) in m && v.pInput in m && v.pTable in m
    ensures YieldsAlways(LookupStart(v), delta, y, m, m,
                         Const(m, L_0_MPTR) * (At(m, v.pInput) - At(m, v.pTable)))
  {
    var e := MulM(Load(Named(L_0_MPTR)), AddM(Load(v.pInput), SubR(Load(v.pTable))));
    var value := Const(m, L_0_MPTR) * (At(m, v.pInput) - At(m, v.pTable));
    forall q
      ensures OneLet(e, State(Frame(q, delta, y), m), value)
    {
      hide YieldsAlways;
      EvalRules(State(Frame(q, delta, y), m));
    }
    YieldsLet(e, delta, y, m, value);
  }

  lemma EvalActive(s: State)
    requires Named(L_LAST_MPTR) in s.mem && Named(L_BLIND_MPTR) in s.mem
    ensures Defined(L_ACTIVE, s) && Eval(Exact, L_ACTIVE, s) == Active(s.mem)
  {
    EvalRules(s);
    assert Defined(Num(1), s) && Eval(Exact, Num(1), s) == 1;
  }

  lemma YieldsLookupSorted(v: LookupEvals, delta: int, y: int, m: map<Ptr, int>)
    requires Named(L_LAST_MPTR) in m && Named(L_BLIND_MPTR) in m
    requires v.pInput in m && v.pTable in m && v.pInputPrev in m
    ensures YieldsAlways(LookupSorted(v), delta, y, m, m,
                         Active(m) * ((At(m, v.pInput) - At(m, v.pTable)) * (At(m, v.pInput) - At(m, v.pInputPrev))))
  {
    var lhs := AddM(Load(v.pInput), SubR(Load(v.pTable)));
    var rhs := AddM(Load(v.pInput), SubR(Load(v.pInputPrev)));
    var e := MulM(L_ACTIVE, MulM(lhs, rhs));
    var value := Active(m) * ((At(m, v.pInput) - At(m, v.pTable)) * (At(m, v.pInput) - At(m, v.pInputPrev)));
    forall q
      ensures OneLet(e, State(Frame(q, delta, y), m), value)
    {
      hide YieldsAlways;
      var s := State(Frame(q, delta, y), m);
      EvalActive(s);
      hide Active;
      EvalRules(s);
    }
    YieldsLet(e, delta, y, m, value);
  }

  // The two sides of the product rule.
  lemma RunProductSides(v: LookupEvals, s: State) returns (t: State)
    requires NamesLoaded(s.mem) && LookupLoaded(v, s.mem)
    requires INPUT in s.vars && TABLE in s.vars
    requires BETA !in s.vars && GAMMA !in s.vars && LHS !in s.vars && RHS !in s.vars
    ensures Exec(Exact, ProductSides(v), s) == Some(t)
    ensures var m := s.mem;
            var beta, gamma := Const(m, BETA_MPTR), Const(m, GAMMA_MPTR);
            var lhs := At(m, v.zNext) * ((At(m, v.pInput) + beta) * (At(m, v.pTable) + gamma));
            var rhs := At(m, v.z) * ((s.vars[INPUT] + beta) * (s.vars[TABLE] + gamma));
            t == State(s.vars[BETA := beta][GAMMA := gamma][LHS := lhs][RHS := rhs], m)
  {
    hide Exec;
    var m := s.mem;
    var beta, gamma := Const(m, BETA_MPTR), Const(m, GAMMA_MPTR);
    var e1, e2 := Load(Named(BETA_MPTR)), Load(Named(GAMMA_MPTR));
    var e3 := MulM(Load(v.zNext), MulM(AddM(Load(v.pInput), Var(BETA)), AddM(Load(v.pTable), Var(GAMMA))));
    var e4 := MulM(Load(v.z), MulM(AddM(Var(INPUT), Var(BETA)), AddM(Var(TABLE), Var(GAMMA))));
    var s1 := s.(vars := s.vars[BETA := beta]);
    var s2 := s1.(vars := s1.vars[GAMMA := gamma]);
    var lhs := At(m, v.zNext) * ((At(m, v.pInput) + beta) * (At(m, v.pTable) + gamma));
    var rhs := At(m, v.z) * ((s.vars[INPUT] + beta) * (s.vars[TABLE] + gamma));
    var s3 := s2.(vars := s2.vars[LHS := lhs]);
    assert Defined(e3, s2) && Eval(Exact, e3, s2) == lhs by { EvalRules(s2); }
    assert Defined(e4, s3) && Eval(Exact, e4, s3) == rhs by { EvalRules(s3); }
    t := s3.(vars := s3.vars[RHS := rhs]);
    RunLet(BETA, e1, s);
    RunLet(GAMMA, e2, s1);
    RunLet(LHS, e3, s2);
    RunLet(RHS, e4, s3);
    ExecConcat(Exact, [Let(BETA, e1)], [Let(GAMMA, e2)] + ([Let(LHS, e3)] + [Let(RHS, e4)]), s);
    ExecConcat(Exact, [Let(GAMMA, e2)], [Let(LHS, e3)] + [Let(RHS, e4)], s1);
    ExecConcat(Exact, [Let(LHS, e3)], [Let(RHS, e4)], s2);
  }

  lemma RunProductEval(s: State)
    requires NamesLoaded(s.mem) && LHS in s.vars && RHS in s.vars && EVAL !in s.vars
    ensures Exec(Exact, [Let(EVAL, MulM(L_ACTIVE, AddM(Var(LHS), SubR(Var(RHS)))))], s)
            == Some(s.(vars := s.vars[EVAL := Active(s.mem) * (s.vars[LHS] - s.vars[RHS])]))
  {
    hide Exec;
    var e := MulM(L_ACTIVE, AddM(Var(LHS), SubR(Var(RHS))));
    assert Defined(e, s) && Eval(Exact, e, s) == Active(s.mem) * (s.vars[LHS] - s.vars[RHS]) by {
      EvalActive(s);
      hide Active;
      EvalRules(s);
    }
    RunLet(EVAL, e, s);
  }

  // theta, and the compressed input and table.
  lemma RunProductHead(l: Lookup, data: EvalPlaces, f: map<Name, int>, m: map<Ptr, int>, env: Env)
    requires ValidLookup(l, data) && LookupInScope(l, env) && Presents(m, data.places, env) && NamesLoaded(m)
    requires f.Keys == {QUOTIENT_EVAL_NUMER, DELTA, Y}
    ensures var theta := Const(m, THETA_MPTR);
            Exec(Exact, ProductHead(l, data), State(f, m))
            == Some(State(f[THETA := theta][INPUT := PowerSum(IntValues(l.inputs, env), theta)]
                           [TABLE := PowerSum(IntValues(l.tables, env), theta)], m))
  {
    hide Exec, PowerSum, CompressBlock, Presents;
    var theta := Const(m, THETA_MPTR);
    var input, table := PowerSum(IntValues(l.inputs, env), theta), PowerSum(IntValues(l.tables, env), theta);
    var d := Load(Named(THETA_MPTR));
    var s0 := State(f, m);
    var s1 := State(f[THETA := theta], m);
    var s2 := State(f[THETA := theta][INPUT := 0], m);
    var s3 := State(f[THETA := theta][INPUT := input], m);
    var s4 := State(f[THETA := theta][INPUT := input][TABLE := 0], m);
    RunLet(THETA, d, s0);
    RunDeclare(INPUT, s1);
    RunCompressBlock(INPUT, l.inputs, data, s2, env);
    assert s2.vars[INPUT := input] == s3.vars;
    RunDeclare(TABLE, s3);
    RunCompressBlock(TABLE, l.tables, data, s4, env);
    assert s4.vars[TABLE := table] == s3.vars[TABLE := table];
    var p1, p2 := [Declare(INPUT)], [CompressBlock(INPUT, l.inputs, data)];
    var p3, p4 := [Declare(TABLE)], [CompressBlock(TABLE, l.tables, data)];
    ExecConcat(Exact, [Let(THETA, d)], p1 + (p2 + (p3 + p4)), s0);
    ExecConcat(Exact, p1, p2 + (p3 + p4), s1);
    ExecConcat(Exact, p2, p3 + p4, s2);
    ExecConcat(Exact, p3, p4, s3);
  }

  lemma RunLookupProduct(l: Lookup, v: LookupEvals, data: EvalPlaces, f: map<Name, int>, m: map<Ptr, int>, env: Env)
    requires ValidLookup(l, data) && LookupInScope(l, env) && Presents(m, data.places, env)
    requires NamesLoaded(m) && LookupLoaded(v, m)
    requires f.Keys == {QUOTIENT_EVAL_NUMER, DELTA, Y}
    ensures Yields(LookupProduct(l, v, data), f, m, m, ProductValue(l, v, m, env))
  {
    hide Exec, PowerSum, Presents, ProductHead, ProductSides, Active;
    var s := State(f, m);
    RunProductHead(l, data, f, m, env);
    var s1 := Exec(Exact, ProductHead(l, data), s).value;
    var s2 := RunProductSides(v, s1);
    var value := ProductValue(l, v, m, env);
    assert value == Active(m) * (s2.vars[LHS] - s2.vars[RHS]);
    assert forall x :: x in f ==> x in s2.vars && s2.vars[x] == f[x];
    assert s2.mem == m && EVAL !in s2.vars;
    var e := [Let(EVAL, MulM(L_ACTIVE, AddM(Var(LHS), SubR(Var(RHS)))))];
    assert Exec(Exact, ProductHead(l, data) + ProductSides(v), s) == Some(s2) by {
      ExecConcat(Exact, ProductHead(l, data), ProductSides(v), s);
    }
    hide ProductValue, IntValues;
    RunProductEval(s2);
    ExecConcat(Exact, ProductHead(l, data) + ProductSides(v), e, s);
  }

  lemma YieldsLookupProduct(l: Lookup, v: LookupEvals, data: EvalPlaces, delta: int, y: int, m: map<Ptr, int>, env: Env)
    requires ValidLookup(l, data) && LookupInScope(l, env) && Presents(m, data.places, env)
    requires NamesLoaded(m) && LookupLoaded(v, m)
    ensures YieldsAlways(LookupProduct(l, v, data), delta, y, m, m, ProductValue(l, v, m, env))
  {
    forall q
      ensures Yields(LookupProduct(l, v, data), Frame(q, delta, y), m, m, ProductValue(l, v, m, env))
    {
      hide Yields, ProductValue, LookupProduct, Presents;
      RunLookupProduct(l, v, data, Frame(q, delta, y), m, env);
    }
  }

  lemma ChainLookup(l: Lookup, v: LookupEvals, data: EvalPlaces, delta: int, y: int, m: map<Ptr, int>, env: Env)
    requires ValidLookup(l, data) && LookupInScope(l, env) && Presents(m, data.places, env)
    requires NamesLoaded(m) && LookupLoaded(v, m)
    ensures Chain(LookupBlock(l, v, data), delta, y, Constantly(m, 5), LookupValue(l, v, m, env))
  {
    hide YieldsAlways, Presents, ProductValue, Active, LookupFirst, LookupLast, LookupProduct, LookupStart, LookupSorted;
    var z, pInput, pPrev, pTable := At(m, v.z), At(m, v.pInput), At(m, v.pInputPrev), At(m, v.pTable);
    YieldsLookupFirst(v, delta, y, m);
    YieldsLookupLast(v, delta, y, m);
    YieldsLookupProduct(l, v, data, delta, y, m, env);
    YieldsLookupStart(v, delta, y, m);
    YieldsLookupSorted(v, delta, y, m);
    hide LookupLoaded, NamesLoaded, At, Const;
    var v5 := Active(m) * ((pInput - pTable) * (pInput - pPrev));
    var v4 := Const(m, L_0_MPTR) * (pInput - pTable);
    var v3 := ProductValue(l, v, m, env);
    var v2 := Const(m, L_LAST_MPTR) * (z * z - z);
    var v1 := Const(m, L_0_MPTR) * (1 - z);
    ChainOne(LookupSorted(v), delta, y, m, m, v5);
    assert [m, m] == Constantly(m, 1);
    ChainConstantly(LookupStart(v), [LookupSorted(v)], delta, y, m, v4, [v5]);
    ChainConstantly(LookupProduct(l, v, data), [LookupStart(v)] + [LookupSorted(v)], delta, y, m, v3, [v4] + [v5]);
    ChainConstantly(LookupLast(v), [LookupProduct(l, v, data)] + ([LookupStart(v)] + [LookupSorted(v)]),
                    delta, y, m, v2, [v3] + ([v4] + [v5]));
    ChainConstantly(LookupFirst(v),
                    [LookupLast(v)] + ([LookupProduct(l, v, data)] + ([LookupStart(v)] + [LookupSorted(v)])),
                    delta, y, m, v1, [v2] + ([v3] + ([v4] + [v5])));
  }

  lemma {:induction false} ChainLookups(lookups: seq<Lookup>, evals: seq<LookupEvals>, data: EvalPlaces, delta: int,
                                        y: int, m: map<Ptr, int>, env: Env)
    requires |lookups| == |evals|
    requires forall l :: l in lookups ==> ValidLookup(l, data) && LookupInScope(l, env)
    requires Presents(m, data.places, env) && NamesLoaded(m)
    requires forall i :: 0 <= i < |evals| ==> LookupLoaded(evals[i], m)
    ensures var codes := LookupCode(lookups, evals, data);
            Chain(codes, delta, y, Constantly(m, |codes|), LookupValues(lookups, evals, m, env))
    decreases lookups
  {
    hide YieldsAlways, Presents, LookupBlock, LookupValue;
    if lookups != [] {
      var block, value := LookupBlock(lookups[0], evals[0], data), LookupValue(lookups[0], evals[0], m, env);
      ChainLookup(lookups[0], evals[0], data, delta, y, m, env);
      ChainLookups(lookups[1..], evals[1..], data, delta, y, m, env);
      var rest := LookupCode(lookups[1..], evals[1..], data);
      ChainConcat(block, rest, delta, y, Constantly(m, 5), Constantly(m, |rest|), value,
                  LookupValues(lookups[1..], evals[1..], m, env));
      assert Constantly(m, 5)[..|block|] + Constantly(m, |rest|) == Constantly(m, |block| + |rest|);
    }
  }

  lemma {:induction false} LookupValuesAgree(lookups: seq<Lookup>, evals: seq<LookupEvals>, m: map<Ptr, int>,
                                             mem: map<Ptr, int>, env: Env)
    requires |lookups| == |evals| && forall l :: l in lookups ==> LookupInScope(l, env)
    requires Agrees(m, mem) && NamesLoaded(mem)
    requires forall i :: 0 <= i < |evals| ==> LookupLoaded(evals[i], mem)
    ensures LookupValues(lookups, evals, m, env) == LookupValues(lookups, evals, mem, env)
    decreases lookups
  {
    if lookups != [] {
      assert LookupLoaded(evals[0], mem);
      LookupValuesAgree(lookups[1..], evals[1..], m, mem, env);
    }
  }

  // -------- the quotient evaluation --------

  // The gates, then the permutation argument.
  lemma ChainFirstParts(circuit: Circuit, data: EvalPlaces, mem: map<Ptr, int>, env: Env, delta: int, y: int)
    returns (mems: seq<map<Ptr, int>>)
    requires ValidCircuit(circuit, data) && Loaded(data, mem, env) && CircuitInScope(circuit, env)
    ensures Chain(GateCodes(circuit.gates, data) + PermutationCode(circuit, data), delta, y, mems,
                  IntValues(circuit.gates, env) + PermutationValues(circuit, data, mem, env, delta))
    ensures mems[0] == mem
    ensures mems[|GateCodes(circuit.gates, data) + PermutationCode(circuit, data)|]
            == mem[SCRATCH := Shift(mem, delta, |circuit.columns| - 1)]
  {
    hide YieldsAlways, GateCodes, PermutationCode, PermutationValues, IntValues, Shift, Compilable, NumChunks;
    var perm := ChainPermutation(circuit, data, mem, env, delta, y);
    ChainGates(circuit.gates, data, delta, y, mem, env);
    hide Presents, Loaded, ValidCircuit, CircuitInScope;
    var a, b := GateCodes(circuit.gates, data), PermutationCode(circuit, data);
    var ma := Constantly(mem, |circuit.gates|);
    ChainConcat(a, b, delta, y, ma, perm, IntValues(circuit.gates, env), PermutationValues(circuit, data, mem, env, delta));
    mems := ma[..|a|] + perm;
  }

  // The lookups, on the memory that the permutation argument leaves.
  lemma ChainLastPart(circuit: Circuit, data: EvalPlaces, mem: map<Ptr, int>, env: Env, delta: int, y: int, v: int)
    requires ValidCircuit(circuit, data) && Loaded(data, mem, env) && CircuitInScope(circuit, env)
    ensures var codes := LookupCode(circuit.lookups, data.lookups, data);
            Chain(codes, delta, y, Constantly(mem[SCRATCH := v], |codes|),
                  LookupValues(circuit.lookups, data.lookups, mem, env))
  {
    hide Chain, LookupCode, LookupValues, Compilable, NumChunks;
    var m := mem[SCRATCH := v];
    PresentsAgrees(m, mem, data.places, env);
    ChainLookups(circuit.lookups, data.lookups, data, delta, y, m, env);
    LookupValuesAgree(circuit.lookups, data.lookups, m, mem, env);
  }

  lemma ChainConstraints(circuit: Circuit, data: EvalPlaces, mem: map<Ptr, int>, env: Env, delta: int, y: int)
    returns (mems: seq<map<Ptr, int>>)
    requires ValidCircuit(circuit, data) && Loaded(data, mem, env) && CircuitInScope(circuit, env)
    ensures Chain(ConstraintCode(circuit, data), delta, y, mems, ConstraintValues(circuit, data, mem, env, delta))
    ensures mems[0] == mem
  {
    var c := LookupCode(circuit.lookups, data.lookups, data);
    var ab := GateCodes(circuit.gates, data) + PermutationCode(circuit, data);
    var vab := IntValues(circuit.gates, env) + PermutationValues(circuit, data, mem, env, delta);
    var vc := LookupValues(circuit.lookups, data.lookups, mem, env);
    hide YieldsAlways, GateCodes, PermutationCode, PermutationValues, IntValues, LookupCode, LookupValues, Shift;
    hide ValidCircuit, Loaded, CircuitInScope;
    var mab := ChainFirstParts(circuit, data, mem, env, delta, y);
    var v := Shift(mem, delta, |circuit.columns| - 1);
    ChainLastPart(circuit, data, mem, env, delta, y, v);
    var mc := Constantly(mem[SCRATCH := v], |c|);
    ChainConcat(ab, c, delta, y, mab, mc, vab, vc);
    mems := mab[..|ab|] + mc;
  }
}
