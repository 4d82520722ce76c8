/** Every constraint block yields the value of its constraint. */
module Blocks {
  import opened Common
  import opened Yul
  import opened Evaluation
  import opened Horner
  import opened Constraints
  import opened Quotient

  // `m` is `mem` with, possibly, the scratch word set.
  ghost predicate Agrees(m: map<Ptr, int>, mem: map<Ptr, int>) {
    forall p :: p in mem ==> p in m && m[p] == mem[p]
  }

  // -------- the permutation argument --------

  lemma YieldsFirstZ(z: ZEvals, delta: int, y: int, m: map<Ptr, int>)
    requires Named(L_0_MPTR) in m && z.cur in m
    ensures YieldsAlways(FirstZ(z), delta, y, m, m, Const(m, L_0_MPTR) * (1 - At(m, z.cur)))
  {
    var l0, v := Const(m, L_0_MPTR), At(m, z.cur);
    var d := Load(Named(L_0_MPTR));
    var e := AddM(Var(L_0), SubR(MulM(Var(L_0), Load(z.cur))));
    assert l0 + -(l0 * v) == l0 * (1 - v);
    forall q
      ensures TwoLets(L_0, d, e, State(Frame(q, delta, y), m), l0 * (1 - v))
    {
      hide YieldsAlways;
      var s := State(Frame(q, delta, y), m);
      EvalRules(s);
      EvalRules(s.(vars := s.vars[L_0 := l0]));
    }
    YieldsLets(L_0, d, e, delta, y, m, l0 * (1 - v));
  }

  lemma YieldsLastZ(z: ZEvals, delta: int, y: int, m: map<Ptr, int>)
    requires Named(L_LAST_MPTR) in m && z.cur in m
    ensures YieldsAlways(LastZ(z), delta, y, m, m,
                         Const(m, L_LAST_MPTR) * (At(m, z.cur) * At(m, z.cur) - At(m, z.cur)))
  {
    var v := At(m, z.cur);
    var d := Load(z.cur);
    var item := AddM(MulM(Var(PERM_Z_LAST), Var(PERM_Z_LAST)), SubR(Var(PERM_Z_LAST)));
    var e := MulM(Load(Named(L_LAST_MPTR)), item);
    forall q
      ensures TwoLets(PERM_Z_LAST, d, e, State(Frame(q, delta, y), m), Const(m, L_LAST_MPTR) * (v * v - v))
    {
      hide YieldsAlways;
      var s := State(Frame(q, delta, y), m);
      EvalRules(s);
      EvalRules(s.(vars := s.vars[PERM_Z_LAST := v]));
    }
    YieldsLets(PERM_Z_LAST, d, e, delta, y, m, Const(m, L_LAST_MPTR) * (v * v - v));
  }

  lemma YieldsLinkedZs(z: ZEvals, next: ZEvals, delta: int, y: int, m: map<Ptr, int>)
    requires Named(L_0_MPTR) in m && z.last in m && next.cur in m
    ensures YieldsAlways(LinkedZs(z, next), delta, y, m, m,
                         Const(m, L_0_MPTR) * (At(m, next.cur) - At(m, z.last)))
  {
    var e := MulM(Load(Named(L_0_MPTR)), AddM(Load(next.cur), SubR(Load(z.last))));
    var value := Const(m, L_0_MPTR) * (At(m, next.cur) - At(m, z.last));
    forall q
      ensures OneLet(e, State(Frame(q, delta, y), m), value)
    {
      hide YieldsAlways;
      EvalRules(State(Frame(q, delta, y), m));
    }
    YieldsLet(e, delta, y, m, value);
  }

  // Inside a chunk, beta and gamma are in their names.
  ghost predicate InChunk(s: State, data: EvalPlaces, mem: map<Ptr, int>) {
    && Agrees(s.mem, mem) && SCRATCH !in mem
    && GAMMA in s.vars && s.vars[GAMMA] == Const(mem, GAMMA_MPTR)
    && BETA in s.vars && s.vars[BETA] == Const(mem, BETA_MPTR)
    && LHS in s.vars && RHS in s.vars
  }

  // The word of every column is there and holds the evaluation of that column.
  ghost predicate ColumnsLoaded(columns: seq<Column>, data: EvalPlaces, mem: map<Ptr, int>, env: Env) {
    forall c :: c in columns ==>
      && KnownColumn(c, data) && ColumnEval(c, data) in mem && mem[ColumnEval(c, data)] == ColumnValue(c, env)
      && data.permutation[c] in mem
  }

  lemma RunLhsColumn(c: Column, data: EvalPlaces, s: State, mem: map<Ptr, int>, env: Env)
    requires InChunk(s, data, mem) && ColumnsLoaded([c], data, mem, env)
    ensures KnownColumn(c, data)
    ensures var item := MulM(Var(BETA), Load(data.permutation[c]));
            var e := MulM(Var(LHS), AddM(AddM(Load(ColumnEval(c, data)), item), Var(GAMMA)));
            Exec(Exact, [Assign(LHS, e)], s)
            == Some(s.(vars := s.vars[LHS := s.vars[LHS] * LeftFactor(c, data, mem, env)]))
  {
    hide Exec;
    assert c in [c];
    var item := MulM(Var(BETA), Load(data.permutation[c]));
    var e := MulM(Var(LHS), AddM(AddM(Load(ColumnEval(c, data)), item), Var(GAMMA)));
    assert Defined(e, s) && Eval(Exact, e, s) == s.vars[LHS] * LeftFactor(c, data, mem, env) by {
      EvalRules(s);
    }
    RunAssign(LHS, e, s);
  }

  lemma {:induction false} RunLhsLines(columns: seq<Column>, data: EvalPlaces, s: State, mem: map<Ptr, int>, env: Env)
    requires InChunk(s, data, mem) && ColumnsLoaded(columns, data, mem, env)
    ensures Exec(Exact, LhsLines(columns, data), s)
            == Some(s.(vars := s.vars[LHS := s.vars[LHS] * LeftProduct(columns, data, mem, env)]))
    decreases columns
  {
    hide Exec, LeftFactor, ColumnEval, ColumnValue, Const;
    if columns == [] {
      RunNothing(s);
      assert s.vars[LHS := s.vars[LHS]] == s.vars;
    } else {
      var c := columns[0];
      assert ColumnsLoaded([c], data, mem, env);
      RunLhsColumn(c, data, s, mem, env);
      var factor := LeftFactor(c, data, mem, env);
      var t := s.(vars := s.vars[LHS := s.vars[LHS] * factor]);
      ExecConcat(Exact, LhsLines(columns, data)[..1], LhsLines(columns[1..], data), s);
      assert LhsLines(columns, data) == LhsLines(columns, data)[..1] + LhsLines(columns[1..], data);
      RunLhsLines(columns[1..], data, t, mem, env);
      assert (s.vars[LHS] * factor) * LeftProduct(columns[1..], data, mem, env)
          == s.vars[LHS] * (factor * LeftProduct(columns[1..], data, mem, env));
      assert t.vars[LHS := s.vars[LHS] * LeftProduct(columns, data, mem, env)]
          == s.vars[LHS := s.vars[LHS] * LeftProduct(columns, data, mem, env)];
    }
  }

  lemma ShiftStep(mem: map<Ptr, int>, delta: int, j: nat)
    ensures Shift(mem, delta, j) * delta == Shift(mem, delta, j + 1)
  {
    var b, p := Const(mem, BETA_MPTR) * Const(mem, X_MPTR), Pow(delta, j);
    assert (b * p) * delta == b * (p * delta);
  }

  // How far a chunk advances the power of delta.
  function Advance(columns: seq<Column>, lastChunk: bool): nat {
    if lastChunk && columns != [] then |columns| - 1 else |columns|
  }

  // Inside a chunk, the scratch word holds the shift of the next column.
  ghost predicate InRhs(s: State, j: nat, data: EvalPlaces, mem: map<Ptr, int>, delta: int) {
    && InChunk(s, data, mem)
    && DELTA in s.vars && s.vars[DELTA] == delta
    && SCRATCH in s.mem && s.mem[SCRATCH] == Shift(mem, delta, j)
  }

  lemma RunRhsColumn(c: Column, j: nat, data: EvalPlaces, s: State, mem: map<Ptr, int>, env: Env, delta: int)
    requires InRhs(s, j, data, mem, delta) && ColumnsLoaded([c], data, mem, env)
    ensures KnownColumn(c, data)
    ensures var e := MulM(Var(RHS), AddM(AddM(Load(ColumnEval(c, data)), Load(SCRATCH)), Var(GAMMA)));
            Exec(Exact, [Assign(RHS, e)], s)
            == Some(s.(vars := s.vars[RHS := s.vars[RHS] * RightFactor(c, j, data, mem, env, delta)]))
  {
    hide Exec;
    assert c in [c];
    var e := MulM(Var(RHS), AddM(AddM(Load(ColumnEval(c, data)), Load(SCRATCH)), Var(GAMMA)));
    assert Defined(e, s) && Eval(Exact, e, s) == s.vars[RHS] * RightFactor(c, j, data, mem, env, delta) by {
      EvalRules(s);
    }
    RunAssign(RHS, e, s);
  }

  lemma RunAdvance(j: nat, data: EvalPlaces, s: State, mem: map<Ptr, int>, delta: int)
    requires InRhs(s, j, data, mem, delta)
    ensures var t := s.(mem := s.mem[SCRATCH := Shift(mem, delta, j + 1)]);
            && Exec(Exact, [Store(SCRATCH, MulM(Load(SCRATCH), Var(DELTA)))], s) == Some(t)
            && InRhs(t, j + 1, data, mem, delta)
  {
    hide Exec;
    var f := MulM(Load(SCRATCH), Var(DELTA));
    assert Defined(f, s) && Eval(Exact, f, s) == Shift(mem, delta, j) * delta by {
      EvalRules(s);
    }
    RunStore(SCRATCH, f, s);
    ShiftStep(mem, delta, j);
  }

  lemma {:induction false} RunRhsLines(columns: seq<Column>, base: nat, data: EvalPlaces, lastChunk: bool, s: State,
                                       mem: map<Ptr, int>, env: Env, delta: int)
    requires InRhs(s, base, data, mem, delta) && ColumnsLoaded(columns, data, mem, env)
    ensures Exec(Exact, RhsLines(columns, data, lastChunk), s)
            == Some(State(s.vars[RHS := s.vars[RHS] * RightProduct(columns, base, data, mem, env, delta)],
                          s.mem[SCRATCH := Shift(mem, delta, base + Advance(columns, lastChunk))]))
    decreases columns
  {
    hide Exec, Shift, RightFactor, ColumnEval, ColumnValue, Const;
    if columns == [] {
      RunNothing(s);
      assert s.vars[RHS := s.vars[RHS]] == s.vars;
      assert s.mem[SCRATCH := s.mem[SCRATCH]] == s.mem;
    } else {
      var c := columns[0];
      assert ColumnsLoaded([c], data, mem, env);
      RunRhsColumn(c, base, data, s, mem, env, delta);
      var e := MulM(Var(RHS), AddM(AddM(Load(ColumnEval(c, data)), Load(SCRATCH)), Var(GAMMA)));
      var factor := RightFactor(c, base, data, mem, env, delta);
      var t := s.(vars := s.vars[RHS := s.vars[RHS] * factor]);
      var right := RightProduct(columns[1..], base + 1, data, mem, env, delta);
      assert RightProduct(columns, base, data, mem, env, delta) == factor * right;
      assert (s.vars[RHS] * factor) * right == s.vars[RHS] * (factor * right);
      if lastChunk && |columns| == 1 {
        assert RhsLines(columns, data, lastChunk) == [Assign(RHS, e)];
        assert columns[1..] == [] && right == 1;
        assert s.mem[SCRATCH := s.mem[SCRATCH]] == s.mem;
      } else {
        var f := MulM(Load(SCRATCH), Var(DELTA));
        var rest := RhsLines(columns[1..], data, lastChunk);
        RunAdvance(base, data, t, mem, delta);
        var u := t.(mem := t.mem[SCRATCH := Shift(mem, delta, base + 1)]);
        assert RhsLines(columns, data, lastChunk) == [Assign(RHS, e)] + ([Store(SCRATCH, f)] + rest);
        ExecConcat(Exact, [Assign(RHS, e)], [Store(SCRATCH, f)] + rest, s);
        ExecConcat(Exact, [Store(SCRATCH, f)], rest, t);
        RunRhsLines(columns[1..], base + 1, data, lastChunk, u, mem, env, delta);
        Overwrites(s, u, s.vars[RHS] * (factor * right), base + 1, Advance(columns[1..], lastChunk), mem, delta);
      }
    }
  }

  lemma Overwrites(s: State, u: State, rhs: int, j: nat, n: nat, mem: map<Ptr, int>, delta: int)
    requires RHS in s.vars && RHS in u.vars && u.vars == s.vars[RHS := u.vars[RHS]]
    requires u.mem == s.mem[SCRATCH := Shift(mem, delta, j)]
    ensures u.vars[RHS := rhs] == s.vars[RHS := rhs]
    ensures u.mem[SCRATCH := Shift(mem, delta, j + n)] == s.mem[SCRATCH := Shift(mem, delta, j + n)]
  {
  }

  lemma RunChunkHead(z: ZEvals, data: EvalPlaces, f: map<Name, int>, m: map<Ptr, int>, mem: map<Ptr, int>) returns (s: State)
    requires Agrees(m, mem) && SCRATCH !in mem && ZLoaded(z, mem)
    requires Named(GAMMA_MPTR) in mem && Named(BETA_MPTR) in mem
    requires GAMMA !in f && BETA !in f && LHS !in f && RHS !in f
    ensures Exec(Exact, ChunkHead(z), State(f, m)) == Some(s)
    ensures s == State(f[GAMMA := Const(mem, GAMMA_MPTR)][BETA := Const(mem, BETA_MPTR)]
                        [LHS := At(mem, z.next)][RHS := At(mem, z.cur)], m)
  {
    hide Exec;
    var s0 := State(f, m);
    var s1 := s0.(vars := s0.vars[GAMMA := Const(mem, GAMMA_MPTR)]);
    var s2 := s1.(vars := s1.vars[BETA := Const(mem, BETA_MPTR)]);
    var s3 := s2.(vars := s2.vars[LHS := At(mem, z.next)]);
    s := s3.(vars := s3.vars[RHS := At(mem, z.cur)]);
    var g, b := Load(Named(GAMMA_MPTR)), Load(Named(BETA_MPTR));
    RunLet(GAMMA, g, s0);
    RunLet(BETA, b, s1);
    RunLet(LHS, Load(z.next), s2);
    RunLet(RHS, Load(z.cur), s3);
    ExecConcat(Exact, [Let(GAMMA, g)], [Let(BETA, b)], s0);
    ExecConcat(Exact, [Let(GAMMA, g)] + [Let(BETA, b)], [Let(LHS, Load(z.next))], s0);
    ExecConcat(Exact, [Let(GAMMA, g)] + [Let(BETA, b)] + [Let(LHS, Load(z.next))], [Let(RHS, Load(z.cur))], s0);
  }

  lemma RunChunkTail(s: State, mem: map<Ptr, int>) returns (t: State)
    requires Agrees(s.mem, mem) && Named(L_LAST_MPTR) in mem && Named(L_BLIND_MPTR) in mem
    requires LHS in s.vars && RHS in s.vars && LEFT_SUB_RIGHT !in s.vars && EVAL !in s.vars
    ensures Exec(Exact, ChunkTail(), s) == Some(t) && t.mem == s.mem
    ensures EVAL in t.vars && t.vars[EVAL] == Active(mem) * (s.vars[LHS] - s.vars[RHS])
    ensures forall x :: x in s.vars ==> x in t.vars && t.vars[x] == s.vars[x]
  {
    hide Exec;
    var d := s.vars[LHS] - s.vars[RHS];
    var k := Const(mem, L_LAST_MPTR) + Const(mem, L_BLIND_MPTR);
    var e1 := AddM(Var(LHS), SubR(Var(RHS)));
    var e2 := AddM(Var(LEFT_SUB_RIGHT),
                   SubR(MulM(Var(LEFT_SUB_RIGHT), AddM(Load(Named(L_LAST_MPTR)), Load(Named(L_BLIND_MPTR))))));
    var u := s.(vars := s.vars[LEFT_SUB_RIGHT := d]);
    assert Defined(e1, s) && Eval(Exact, e1, s) == d by {
      EvalRules(s);
    }
    assert Defined(e2, u) && Eval(Exact, e2, u) == d + -(d * k) by {
      EvalRules(u);
    }
    assert d + -(d * k) == (1 - k) * d;
    RunLet(LEFT_SUB_RIGHT, e1, s);
    RunLet(EVAL, e2, u);
    ExecConcat(Exact, [Let(LEFT_SUB_RIGHT, e1)], [Let(EVAL, e2)], s);
    t := u.(vars := u.vars[EVAL := d + -(d * k)]);
  }

  lemma RunChunkSeed(s: State, data: EvalPlaces, mem: map<Ptr, int>, delta: int)
    requires InChunk(s, data, mem) && DELTA in s.vars && s.vars[DELTA] == delta && Named(X_MPTR) in mem
    ensures var t := s.(mem := s.mem[SCRATCH := Shift(mem, delta, 0)]);
            && Exec(Exact, ChunkSeed(true), s) == Some(t)
            && InRhs(t, 0, data, mem, delta)
  {
    hide Exec;
    var e := MulM(Var(BETA), Load(Named(X_MPTR)));
    assert Defined(e, s) && Eval(Exact, e, s) == Const(mem, BETA_MPTR) * Const(mem, X_MPTR) by {
      EvalRules(s);
    }
    assert Pow(delta, 0) == 1;
    RunStore(SCRATCH, e, s);
  }

  // The memory before a chunk: the first one seeds the scratch word itself.
  ghost predicate BeforeChunk(m: map<Ptr, int>, firstChunk: bool, base: nat, mem: map<Ptr, int>, delta: int) {
    && Agrees(m, mem)
    && if firstChunk then base == 0 else SCRATCH in m && m[SCRATCH] == Shift(mem, delta, base)
  }

  lemma RunChunk(columns: seq<Column>, base: nat, z: ZEvals, data: EvalPlaces, firstChunk: bool, lastChunk: bool,
                 f: map<Name, int>, m: map<Ptr, int>, mem: map<Ptr, int>, env: Env, delta: int)
    requires SCRATCH !in mem && NamesLoaded(mem) && ZLoaded(z, mem) && ColumnsLoaded(columns, data, mem, env)
    requires BeforeChunk(m, firstChunk, base, mem, delta)
    requires f.Keys == {QUOTIENT_EVAL_NUMER, DELTA, Y} && f[DELTA] == delta
    ensures Yields(ChunkCode(columns, z, data, firstChunk, lastChunk), f, m,
                   m[SCRATCH := Shift(mem, delta, base + Advance(columns, lastChunk))],
                   ChunkValue(columns, base, z, data, mem, env, delta))
  {
    hide Exec, Shift, LhsLines, RhsLines, LeftProduct, RightProduct;
    var s0 := State(f, m);
    var s1 := RunChunkHead(z, data, f, m, mem);
    RunLhsLines(columns, data, s1, mem, env);
    var s2 := s1.(vars := s1.vars[LHS := s1.vars[LHS] * LeftProduct(columns, data, mem, env)]);
    var s3 := if firstChunk then s2.(mem := s2.mem[SCRATCH := Shift(mem, delta, base)]) else s2;
    if firstChunk {
      RunChunkSeed(s2, data, mem, delta);
    } else {
      RunNothing(s2);
    }
    RunRhsLines(columns, base, data, lastChunk, s3, mem, env, delta);
    var s4 := Exec(Exact, RhsLines(columns, data, lastChunk), s3).value;
    var s5 := RunChunkTail(s4, mem);
    var a, b, c, d, e := ChunkHead(z), LhsLines(columns, data), ChunkSeed(firstChunk),
                         RhsLines(columns, data, lastChunk), ChunkTail();
    ExecConcat(Exact, a, b, s0);
    ExecConcat(Exact, a + b, c, s0);
    ExecConcat(Exact, a + b + c, d, s0);
    ExecConcat(Exact, a + b + c + d, e, s0);
  }

  lemma YieldsChunk(columns: seq<Column>, base: nat, z: ZEvals, data: EvalPlaces, firstChunk: bool, lastChunk: bool,
                    m: map<Ptr, int>, mem: map<Ptr, int>, env: Env, delta: int, y: int)
    requires SCRATCH !in mem && NamesLoaded(mem) && ZLoaded(z, mem) && ColumnsLoaded(columns, data, mem, env)
    requires BeforeChunk(m, firstChunk, base, mem, delta)
    ensures YieldsAlways(ChunkCode(columns, z, data, firstChunk, lastChunk), delta, y, m,
                         m[SCRATCH := Shift(mem, delta, base + Advance(columns, lastChunk))],
                         ChunkValue(columns, base, z, data, mem, env, delta))
  {
    forall q
      ensures Yields(ChunkCode(columns, z, data, firstChunk, lastChunk), Frame(q, delta, y), m,
                     m[SCRATCH := Shift(mem, delta, base + Advance(columns, lastChunk))],
                     ChunkValue(columns, base, z, data, mem, env, delta))
    {
      hide Yields;
      RunChunk(columns, base, z, data, firstChunk, lastChunk, Frame(q, delta, y), m, mem, env, delta);
    }
  }

  // All chunks, the power of delta carried from one to the next: the memory before chunk i
  // holds the shift of its first column.
  lemma {:induction false} ChainChunks(columns: seq<Column>, base: nat, chunkLen: nat, zs: seq<ZEvals>,
                                       data: EvalPlaces, firstChunk: bool, m: map<Ptr, int>, mem: map<Ptr, int>, env: Env,
                                       delta: int, y: int)
    returns (mems: seq<map<Ptr, int>>)
    requires SCRATCH !in mem && NamesLoaded(mem) && ColumnsLoaded(columns, data, mem, env)
    requires forall i :: 0 <= i < |zs| ==> ZLoaded(zs[i], mem)
    requires chunkLen >= 1 && |zs| == NumChunks(|columns|, chunkLen)
    requires BeforeChunk(m, firstChunk, base, mem, delta)
    ensures Chain(ChunkCodes(columns, chunkLen, zs, data, firstChunk), delta, y, mems,
                  ChunkValues(columns, base, chunkLen, zs, data, mem, env, delta))
    ensures |mems| == |zs| + 1 && mems[0] == m
    ensures mems[|zs|] == if zs == [] then m else m[SCRATCH := Shift(mem, delta, base + |columns| - 1)]
    decreases zs
  {
    hide YieldsAlways, Shift, ChunkCode, ChunkValue, ChunkCodes, ChunkValues, KnownColumn, ColumnEval, NamesLoaded;
    if zs == [] {
      mems := [m];
      NoChunks(columns, base, chunkLen, data, firstChunk, mem, env, delta);
    } else {
      var n := Min(chunkLen, |columns|);
      var last := |zs| == 1;
      var m' := m[SCRATCH := Shift(mem, delta, base + Advance(columns[..n], last))];
      YieldsChunk(columns[..n], base, zs[0], data, firstChunk, last, m, mem, env, delta, y);
      var code := ChunkCode(columns[..n], zs[0], data, firstChunk, last);
      var value := ChunkValue(columns[..n], base, zs[0], data, mem, env, delta);
      ChainOne(code, delta, y, m, m', value);
      ChunkCodesUnfold(columns, chunkLen, zs, data, firstChunk);
      ChunkValuesUnfold(columns, base, chunkLen, zs, data, mem, env, delta);
      if last {
        assert n == |columns| && columns[n..] == [] && zs[1..] == [];
        NoChunks(columns[n..], base + n, chunkLen, data, false, mem, env, delta);
        mems := [m, m'];
      } else {
        var rest := ChainChunks(columns[n..], base + n, chunkLen, zs[1..], data, false, m', mem, env, delta, y);
        hide Chain;
        ChainConcat([code], ChunkCodes(columns[n..], chunkLen, zs[1..], data, false), delta, y, [m, m'], rest,
                    [value], ChunkValues(columns[n..], base + n, chunkLen, zs[1..], data, mem, env, delta));
        mems := [m, m'][..1] + rest;
        assert m'[SCRATCH := Shift(mem, delta, base + |columns| - 1)] == m[SCRATCH := Shift(mem, delta, base + |columns| - 1)];
      }
    }
  }

  lemma NoChunks(columns: seq<Column>, base: nat, chunkLen: nat, data: EvalPlaces, firstChunk: bool,
                 mem: map<Ptr, int>, env: Env, delta: int)
    requires forall c :: c in columns ==> KnownColumn(c, data)
    ensures ChunkCodes(columns, chunkLen, [], data, firstChunk) == []
    ensures ChunkValues(columns, base, chunkLen, [], data, mem, env, delta) == []
  {
  }

  lemma ChunkCodesUnfold(columns: seq<Column>, chunkLen: nat, zs: seq<ZEvals>, data: EvalPlaces, firstChunk: bool)
    requires (forall c :: c in columns ==> KnownColumn(c, data)) && zs != []
    ensures var n := Min(chunkLen, |columns|);
            ChunkCodes(columns, chunkLen, zs, data, firstChunk)
            == [ChunkCode(columns[..n], zs[0], data, firstChunk, |zs| == 1)]
               + ChunkCodes(columns[n..], chunkLen, zs[1..], data, false)
  {
    hide ChunkCode;
  }

  // Memory that a group of blocks does not change.
  function Constantly(m: map<Ptr, int>, n: nat): seq<map<Ptr, int>> {
    seq(n + 1, _ => m)
  }

  lemma ChainConstantly(a: Snippet, b: seq<Snippet>, delta: int, y: int, m: map<Ptr, int>, va: int, vb: seq<int>)
    requires YieldsAlways(a, delta, y, m, m, va) && Chain(b, delta, y, Constantly(m, |b|), vb)
    ensures Chain([a] + b, delta, y, Constantly(m, |b| + 1), [va] + vb)
  {
    hide YieldsAlways;
    ChainOne(a, delta, y, m, m, va);
    ChainConcat([a], b, delta, y, [m, m], Constantly(m, |b|), [va], vb);
    assert [m, m][..1] + Constantly(m, |b|) == Constantly(m, |b| + 1);
  }

  lemma {:induction false} ChainLinks(zs: seq<ZEvals>, delta: int, y: int, mem: map<Ptr, int>)
    requires Named(L_0_MPTR) in mem
    requires forall i :: 0 <= i < |zs| ==> ZLoaded(zs[i], mem)
    requires forall i :: 0 <= i < |zs| - 1 ==> zs[i].last in mem
    ensures Chain(LinkCodes(zs), delta, y, Constantly(mem, |LinkCodes(zs)|), LinkValues(zs, mem))
  {
    hide YieldsAlways;
    if |zs| >= 2 {
      YieldsLinkedZs(zs[0], zs[1], delta, y, mem);
      ChainLinks(zs[1..], delta, y, mem);
      ChainConstantly(LinkedZs(zs[0], zs[1]), LinkCodes(zs[1..]), delta, y, mem,
                      Const(mem, L_0_MPTR) * (At(mem, zs[1].cur) - At(mem, zs[0].last)), LinkValues(zs[1..], mem));
    }
  }

  function HeadCodes(zs: seq<ZEvals>): seq<Snippet>
    requires zs != []
  {
    [FirstZ(zs[0])] + ([LastZ(zs[|zs| - 1])] + LinkCodes(zs))
  }

  function HeadValues(zs: seq<ZEvals>, mem: map<Ptr, int>): seq<int>
    requires zs != []
  {
    var zLast := At(mem, zs[|zs| - 1].cur);
    [Const(mem, L_0_MPTR) * (1 - At(mem, zs[0].cur))]
    + ([Const(mem, L_LAST_MPTR) * (zLast * zLast - zLast)] + LinkValues(zs, mem))
  }

  // The blocks that tie the grand products together.
  lemma ChainHead(zs: seq<ZEvals>, delta: int, y: int, mem: map<Ptr, int>)
    requires zs != [] && NamesLoaded(mem)
    requires forall i :: 0 <= i < |zs| ==> ZLoaded(zs[i], mem)
    requires forall i :: 0 <= i < |zs| - 1 ==> zs[i].last in mem
    ensures Chain(HeadCodes(zs), delta, y, Constantly(mem, |HeadCodes(zs)|), HeadValues(zs, mem))
  {
    hide Chain, YieldsAlways, LinkCodes, LinkValues, FirstZ, LastZ;
    var n := |zs| - 1;
    assert ZLoaded(zs[0], mem) && ZLoaded(zs[n], mem);
    YieldsFirstZ(zs[0], delta, y, mem);
    YieldsLastZ(zs[n], delta, y, mem);
    ChainLinks(zs, delta, y, mem);
    var l0, zLast := Const(mem, L_0_MPTR) * (1 - At(mem, zs[0].cur)), At(mem, zs[n].cur);
    var lLast := Const(mem, L_LAST_MPTR) * (zLast * zLast - zLast);
    ChainConstantly(LastZ(zs[n]), LinkCodes(zs), delta, y, mem, lLast, LinkValues(zs, mem));
    ChainConstantly(FirstZ(zs[0]), [LastZ(zs[n])] + LinkCodes(zs), delta, y, mem, l0, [lLast] + LinkValues(zs, mem));
  }

  lemma ColumnsAreLoaded(circuit: Circuit, data: EvalPlaces, mem: map<Ptr, int>, env: Env)
    requires ValidCircuit(circuit, data) && Loaded(data, mem, env)
    ensures ColumnsLoaded(circuit.columns, data, mem, env)
  {
    hide NumChunks, Compilable;
    forall c | c in circuit.columns
      ensures KnownColumn(c, data) && ColumnEval(c, data) in mem && mem[ColumnEval(c, data)] == ColumnValue(c, env)
      ensures data.permutation[c] in mem
    {
      assert KnownColumn(c, data);
    }
  }

  lemma PermutationParts(circuit: Circuit, data: EvalPlaces, mem: map<Ptr, int>, env: Env, delta: int)
    requires ValidCircuit(circuit, data)
    ensures data.permutationZs != []
    ensures PermutationCode(circuit, data)
            == HeadCodes(data.permutationZs) + ChunkCodes(circuit.columns, circuit.chunkLen, data.permutationZs, data, true)
    ensures PermutationValues(circuit, data, mem, env, delta)
            == HeadValues(data.permutationZs, mem)
               + ChunkValues(circuit.columns, 0, circuit.chunkLen, data.permutationZs, data, mem, env, delta)
  {
    hide FirstZ, LastZ, LinkCodes, LinkValues, ChunkCodes, ChunkValues, Compilable, KnownColumn;
  }

  // The blocks of the permutation argument yield its constraints, for any number of columns
  // and any chunk length.
  lemma ChainPermutation(circuit: Circuit, data: EvalPlaces, mem: map<Ptr, int>, env: Env, delta: int, y: int)
    returns (mems: seq<map<Ptr, int>>)
    requires ValidCircuit(circuit, data) && Loaded(data, mem, env)
    ensures Chain(PermutationCode(circuit, data), delta, y, mems, PermutationValues(circuit, data, mem, env, delta))
    ensures mems[0] == mem
    ensures mems[|PermutationCode(circuit, data)|] == mem[SCRATCH := Shift(mem, delta, |circuit.columns| - 1)]
  {
    ColumnsAreLoaded(circuit, data, mem, env);
    PermutationParts(circuit, data, mem, env, delta);
    hide YieldsAlways, Shift, ChunkCodes, ChunkValues, PermutationCode, PermutationValues, HeadCodes, HeadValues;
    hide NumChunks, Compilable, ColumnsLoaded, Presents;
    var zs := data.permutationZs;
    var chunks := ChainChunks(circuit.columns, 0, circuit.chunkLen, zs, data, true, mem, mem, env, delta, y);
    ChainHead(zs, delta, y, mem);
    var head, codes := HeadCodes(zs), ChunkCodes(circuit.columns, circuit.chunkLen, zs, data, true);
    ChainConcat(head, codes, delta, y, Constantly(mem, |head|), chunks, HeadValues(zs, mem),
                ChunkValues(circuit.columns, 0, circuit.chunkLen, zs, data, mem, env, delta));
    mems := Constantly(mem, |head|)[..|head|] + chunks;
  }
}
