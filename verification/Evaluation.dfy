/**
  The expression compiler of the Halo2 verifier generator: PLONK expressions become
  straight-line Yul with common subexpressions shared through a cache of right-hand sides.
 */
module Evaluation {
  import opened Common
  import opened Words
  import opened Yul

  type Query = (nat, int)  // column index and rotation

  datatype Expression =
    | Constant(value: int)
    | Selector(index: nat)
    | Fixed(query: Query)
    | Advice(query: Query)
    | Instance(query: Query)
    | Challenge(index: nat)
    | Negated(e: Expression)
    | Sum(l: Expression, r: Expression)
    | Product(l: Expression, r: Expression)
    | Scaled(e: Expression, scalar: int)

  // Where the verifier finds the values that expressions query.
  datatype Places = Places(
    fixed: map<Query, Ptr>, advice: map<Query, Ptr>, instance_: Ptr, challenges: seq<Ptr>)

  // What the compiler demands: no selectors (it panics on them), every query among those of
  // the constraint system, and constants that are field elements.
  predicate Compilable(e: Expression, places: Places) {
    match e
    case Constant(c) => 0 <= c < R
    case Selector(_) => false
    case Fixed(q) => q in places.fixed
    case Advice(q) => q in places.advice
    case Instance(_) => true
    case Challenge(i) => i < |places.challenges|
    case Negated(a) => Compilable(a, places)
    case Sum(a, b) => Compilable(a, places) && Compilable(b, places)
    case Product(a, b) => Compilable(a, places) && Compilable(b, places)
    case Scaled(a, c) => Compilable(a, places) && 0 <= c < R
  }

  // -------- what an expression means --------

  datatype Env = Env(
    fixed: map<Query, int>, advice: map<Query, int>, instance_: int, challenges: seq<int>)

  predicate InScope(e: Expression, env: Env) {
    match e
    case Constant(_) => true
    case Selector(_) => false
    case Fixed(q) => q in env.fixed
    case Advice(q) => q in env.advice
    case Instance(_) => true
    case Challenge(i) => i < |env.challenges|
    case Negated(a) => InScope(a, env)
    case Sum(a, b) => InScope(a, env) && InScope(b, env)
    case Product(a, b) => InScope(a, env) && InScope(b, env)
    case Scaled(a, _) => InScope(a, env)
  }

  // The value in the scalar field, every operation reduced.
  function FieldValue(e: Expression, env: Env): int
    requires InScope(e, env)
  {
    match e
    case Constant(c) => c % R
    case Fixed(q) => env.fixed[q] % R
    case Advice(q) => env.advice[q] % R
    case Instance(_) => env.instance_ % R
    case Challenge(i) => env.challenges[i] % R
    case Negated(a) => (R - FieldValue(a, env)) % R
    case Sum(a, b) => (FieldValue(a, env) + FieldValue(b, env)) % R
    case Product(a, b) => (FieldValue(a, env) * FieldValue(b, env)) % R
    case Scaled(a, c) => (FieldValue(a, env) * (c % R)) % R
  }

  // The same polynomial over the integers.
  function IntValue(e: Expression, env: Env): int
    requires InScope(e, env)
  {
    match e
    case Constant(c) => c
    case Fixed(q) => env.fixed[q]
    case Advice(q) => env.advice[q]
    case Instance(_) => env.instance_
    case Challenge(i) => env.challenges[i]
    case Negated(a) => -IntValue(a, env)
    case Sum(a, b) => IntValue(a, env) + IntValue(b, env)
    case Product(a, b) => IntValue(a, env) * IntValue(b, env)
    case Scaled(a, c) => IntValue(a, env) * c
  }

  // The word that the operations of the EVM compute, where negation is a bare subtraction.
  function WordValue(e: Expression, env: Env): int
    requires InScope(e, env)
  {
    match e
    case Constant(c) => c
    case Fixed(q) => env.fixed[q]
    case Advice(q) => env.advice[q]
    case Instance(_) => env.instance_
    case Challenge(i) => env.challenges[i]
    case Negated(a) => Sub(R, WordValue(a, env))
    case Sum(a, b) => AddMod(WordValue(a, env), WordValue(b, env))
    case Product(a, b) => MulMod(WordValue(a, env), WordValue(b, env))
    case Scaled(a, c) => MulMod(WordValue(a, env), c)
  }

  function Value(sem: Semantics, e: Expression, env: Env): int
    requires InScope(e, env)
  {
    if sem.Evm? then WordValue(e, env) else IntValue(e, env)
  }

  lemma {:induction false} FieldValueIsIntValue(e: Expression, env: Env)
    requires InScope(e, env)
    ensures FieldValue(e, env) == IntValue(e, env) % R
  {
    match e
    case Negated(a) =>
      FieldValueIsIntValue(a, env);
      CongReduce(IntValue(a, env));
      CongNeg(FieldValue(a, env), IntValue(a, env));
    case Sum(a, b) =>
      FieldValueIsIntValue(a, env);
      FieldValueIsIntValue(b, env);
      CongReduce(IntValue(a, env));
      CongReduce(IntValue(b, env));
      CongAdd(FieldValue(a, env), IntValue(a, env), FieldValue(b, env), IntValue(b, env));
    case Product(a, b) =>
      FieldValueIsIntValue(a, env);
      FieldValueIsIntValue(b, env);
      CongReduce(IntValue(a, env));
      CongReduce(IntValue(b, env));
      CongMul(FieldValue(a, env), IntValue(a, env), FieldValue(b, env), IntValue(b, env));
    case Scaled(a, c) =>
      FieldValueIsIntValue(a, env);
      CongReduce(IntValue(a, env));
      CongReduce(c);
      CongMul(FieldValue(a, env), IntValue(a, env), c % R, c);
    case _ =>
  }

  // -------- the compiler as a function --------

  // The evaluator's mutable state: the counter of temporaries and the cache that maps each
  // emitted right-hand side to the name that holds it.
  datatype Scope = Scope(counter: nat, cache: map<Expr, Name>)

  const FRESH: Scope := Scope(0, map[])

  datatype Code = Code(lines: seq<Stmt>, result: Name, scope: Scope)

  function Bind(value: Expr, name: Option<Name>, sc: Scope): Code {
    if value in sc.cache then Code([], sc.cache[value], sc)
    else match name
      case Some(x) => Code([Let(x, value)], x, sc.(cache := sc.cache[value := x]))
      case None =>
        var x := Temp(sc.counter);
        Code([Let(x, value)], x, Scope(sc.counter + 1, sc.cache[value := x]))
  }

  function Compile(e: Expression, places: Places, sc: Scope): Code
    requires Compilable(e, places)
  {
    match e
    case Constant(c) => Bind(Num(c), None, sc)
    case Fixed(q) => Bind(Load(places.fixed[q]), Some(FixedEval(q.0, q.1)), sc)
    case Advice(q) => Bind(Load(places.advice[q]), Some(AdviceEval(q.0, q.1)), sc)
    case Instance(_) => Bind(Load(places.instance_), Some(InstanceEval), sc)
    case Challenge(i) => Bind(Load(places.challenges[i]), Some(ChallengeEval(i)), sc)
    case Negated(a) =>
      var x := Compile(a, places, sc);
      Then(x.lines, Bind(SubR(Var(x.result)), None, x.scope))
    case Sum(a, b) =>
      var x := Compile(a, places, sc);
      var y := Compile(b, places, x.scope);
      Then(x.lines + y.lines, Bind(AddM(Var(x.result), Var(y.result)), None, y.scope))
    case Product(a, b) =>
      var x := Compile(a, places, sc);
      var y := Compile(b, places, x.scope);
      Then(x.lines + y.lines, Bind(MulM(Var(x.result), Var(y.result)), None, y.scope))
    case Scaled(a, c) =>
      var x := Compile(a, places, sc);
      Then(x.lines, Bind(MulM(Var(x.result), Num(c)), None, x.scope))
  }

  function Then(lines: seq<Stmt>, c: Code): Code {
    c.(lines := lines + c.lines)
  }

  datatype CodeList = CodeList(lines: seq<Stmt>, results: seq<Name>, scope: Scope)

  // Several expressions in one scope, as the inputs or the tables of a lookup are compiled.
  function CompileAll(es: seq<Expression>, places: Places, sc: Scope): (c: CodeList)
    requires forall e :: e in es ==> Compilable(e, places)
    ensures |c.results| == |es|
  {
    if es == [] then CodeList([], [], sc)
    else
      var init := CompileAll(es[..|es| - 1], places, sc);
      var last := Compile(es[|es| - 1], places, init.scope);
      CodeList(init.lines + last.lines, init.results + [last.result], last.scope)
  }

  // -------- soundness of the cache --------

  predicate CompilerName(x: Name) {
    x.Temp? || x.FixedEval? || x.AdviceEval? || x.InstanceEval? || x.ChallengeEval?
  }

  // Which right-hand side a compiler name may stand for.
  predicate NameFits(value: Expr, x: Name, places: Places, counter: nat) {
    match x
    case Temp(n) => n < counter
    case FixedEval(c, rot) => (c, rot) in places.fixed && value == Load(places.fixed[(c, rot)])
    case AdviceEval(c, rot) => (c, rot) in places.advice && value == Load(places.advice[(c, rot)])
    case InstanceEval => value == Load(places.instance_)
    case ChallengeEval(i) => i < |places.challenges| && value == Load(places.challenges[i])
    case _ => false
  }

  ghost predicate ScopeFits(sc: Scope, places: Places) {
    forall v :: v in sc.cache ==> NameFits(v, sc.cache[v], places, sc.counter)
  }

  // Every cached name holds the value of its right-hand side, and no compiler name is
  // visible that is not cached.
  ghost predicate Holds(sem: Semantics, sc: Scope, s: State) {
    && (forall v :: v in sc.cache ==>
          && sc.cache[v] in s.vars
          && Defined(v, s)
          && s.vars[sc.cache[v]] == Eval(sem, v, s))
    && (forall x :: x in s.vars && CompilerName(x) ==> x in sc.cache.Values)
  }

  // `t` is `s` with more names.
  ghost predicate Extends(s: State, t: State) {
    && t.mem == s.mem
    && s.vars.Keys <= t.vars.Keys
    && forall x :: x in s.vars ==> t.vars[x] == s.vars[x]
  }

  lemma BindKeepsFit(value: Expr, name: Option<Name>, sc: Scope, places: Places)
    requires ScopeFits(sc, places)
    requires name.Some? ==> !name.value.Temp? && NameFits(value, name.value, places, sc.counter)
    ensures ScopeFits(Bind(value, name, sc).scope, places)
  {
  }

  // A name that is about to be declared is not visible yet.
  lemma BindNameIsNew(sem: Semantics, value: Expr, name: Option<Name>, sc: Scope, places: Places, s: State)
    requires ScopeFits(sc, places) && Holds(sem, sc, s) && value !in sc.cache
    requires name.Some? ==> !name.value.Temp? && NameFits(value, name.value, places, sc.counter)
    ensures Bind(value, name, sc).result !in s.vars
  {
  }

  lemma RunBind(sem: Semantics, value: Expr, name: Option<Name>, sc: Scope, places: Places, s: State) returns (t: State)
    requires ScopeFits(sc, places) && Holds(sem, sc, s) && Defined(value, s)
    requires name.Some? ==> !name.value.Temp? && NameFits(value, name.value, places, sc.counter)
    ensures var c := Bind(value, name, sc);
            && ScopeFits(c.scope, places)
            && Exec(sem, c.lines, s) == Some(t)
            && Extends(s, t) && Holds(sem, c.scope, t)
            && c.result in t.vars && t.vars[c.result] == Eval(sem, value, s)
  {
    BindKeepsFit(value, name, sc, places);
    var c := Bind(value, name, sc);
    if value in sc.cache {
      t := s;
    } else {
      BindNameIsNew(sem, value, name, sc, places, s);
      t := s.(vars := s.vars[c.result := Eval(sem, value, s)]);
      assert c.lines[1..] == [];
      assert Exec(sem, c.lines, s) == Some(t);
      HoldsAfterLet(sem, value, c.result, sc, c.scope, s, t);
    }
  }

  // Declaring a new name for a new right-hand side keeps the cache correct.
  lemma HoldsAfterLet(sem: Semantics, value: Expr, x: Name, sc: Scope, sc': Scope, s: State, t: State)
    requires Holds(sem, sc, s) && value !in sc.cache && Defined(value, s) && x !in s.vars
    requires sc'.cache == sc.cache[value := x] && t == s.(vars := s.vars[x := Eval(sem, value, s)])
    ensures Holds(sem, sc', t)
  {
    hide Eval, Defined;
    forall v | v in sc'.cache
      ensures sc'.cache[v] in t.vars && Defined(v, t)
      ensures t.vars[sc'.cache[v]] == Eval(sem, v, t)
    {
      EvalGrows(sem, v, s, t);
    }
    forall y | y in t.vars && CompilerName(y)
      ensures y in sc'.cache.Values
    {
      if y == x {
        assert sc'.cache[value] == y;
      } else {
        var v :| v in sc.cache && sc.cache[v] == y;
        assert sc'.cache[v] == y;
      }
    }
  }

  // The environment that the verifier's memory and calldata present to expressions.
  ghost predicate Presents(mem: map<Ptr, int>, places: Places, env: Env) {
    && env.fixed.Keys == places.fixed.Keys
    && (forall q :: q in places.fixed ==> places.fixed[q] in mem && mem[places.fixed[q]] == env.fixed[q])
    && env.advice.Keys == places.advice.Keys
    && (forall q :: q in places.advice ==> places.advice[q] in mem && mem[places.advice[q]] == env.advice[q])
    && places.instance_ in mem && mem[places.instance_] == env.instance_
    && |env.challenges| == |places.challenges|
    && forall i :: 0 <= i < |places.challenges| ==>
         places.challenges[i] in mem && mem[places.challenges[i]] == env.challenges[i]
  }

  lemma {:induction false} CompilableInScope(e: Expression, places: Places, mem: map<Ptr, int>, env: Env)
    requires Compilable(e, places) && Presents(mem, places, env)
    ensures InScope(e, env)
  {
    match e
    case Negated(a) => CompilableInScope(a, places, mem, env);
    case Sum(a, b) =>
      CompilableInScope(a, places, mem, env);
      CompilableInScope(b, places, mem, env);
    case Product(a, b) =>
      CompilableInScope(a, places, mem, env);
      CompilableInScope(b, places, mem, env);
    case Scaled(a, _) => CompilableInScope(a, places, mem, env);
    case _ =>
  }

  // Appending one more right-hand side to lines that already run.
  lemma RunThen(sem: Semantics, lines: seq<Stmt>, value: Expr, sc: Scope, places: Places, s: State, u: State)
    returns (t: State)
    requires Exec(sem, lines, s) == Some(u) && Extends(s, u)
    requires ScopeFits(sc, places) && Holds(sem, sc, u) && Defined(value, u)
    ensures var c := Then(lines, Bind(value, None, sc));
            && ScopeFits(c.scope, places)
            && Exec(sem, c.lines, s) == Some(t)
            && Extends(s, t) && Holds(sem, c.scope, t)
            && c.result in t.vars && t.vars[c.result] == Eval(sem, value, u)
  {
    t := RunBind(sem, value, None, sc, places, u);
    ExecConcat(sem, lines, Bind(value, None, sc).lines, s);
  }

  // Running the emitted lines on exact integers, in any scope left by earlier siblings,
  // leaves the value of the expression in the returned name.
  lemma {:induction false} RunCompiled(sem: Semantics, e: Expression, places: Places, sc: Scope, s: State, env: Env)
    returns (t: State)
    requires Compilable(e, places) && Presents(s.mem, places, env) && InScope(e, env)
    requires ScopeFits(sc, places) && Holds(sem, sc, s)
    ensures var c := Compile(e, places, sc);
            && ScopeFits(c.scope, places)
            && Exec(sem, c.lines, s) == Some(t)
            && Extends(s, t) && Holds(sem, c.scope, t)
            && c.result in t.vars && t.vars[c.result] == Value(sem, e, env)
    decreases e, 1
  {
    hide ScopeFits, Holds, Presents;
    match e
    case Negated(a) =>
      var x := Compile(a, places, sc);
      var u := RunCompiled(sem, a, places, sc, s, env);
      t := RunThen(sem, x.lines, SubR(Var(x.result)), x.scope, places, s, u);
    case Sum(a, b) =>
      var x, y, u := RunBoth(sem, e, a, b, places, sc, s, env);
      t := RunThen(sem, x.lines + y.lines, AddM(Var(x.result), Var(y.result)), y.scope, places, s, u);
    case Product(a, b) =>
      var x, y, u := RunBoth(sem, e, a, b, places, sc, s, env);
      t := RunThen(sem, x.lines + y.lines, MulM(Var(x.result), Var(y.result)), y.scope, places, s, u);
    case Scaled(a, c) =>
      var x := Compile(a, places, sc);
      var u := RunCompiled(sem, a, places, sc, s, env);
      t := RunThen(sem, x.lines, MulM(Var(x.result), Num(c)), x.scope, places, s, u);
    case _ => t := RunLeaf(sem, e, places, sc, s, env);
  }

  lemma RunLeaf(sem: Semantics, e: Expression, places: Places, sc: Scope, s: State, env: Env) returns (t: State)
    requires e.Constant? || e.Fixed? || e.Advice? || e.Instance? || e.Challenge?
    requires Compilable(e, places) && Presents(s.mem, places, env) && InScope(e, env)
    requires ScopeFits(sc, places) && Holds(sem, sc, s)
    ensures var c := Compile(e, places, sc);
            && ScopeFits(c.scope, places)
            && Exec(sem, c.lines, s) == Some(t)
            && Extends(s, t) && Holds(sem, c.scope, t)
            && c.result in t.vars && t.vars[c.result] == Value(sem, e, env)
  {
    match e
    case Constant(c) => t := RunBind(sem, Num(c), None, sc, places, s);
    case Fixed(q) => t := RunBind(sem, Load(places.fixed[q]), Some(FixedEval(q.0, q.1)), sc, places, s);
    case Advice(q) => t := RunBind(sem, Load(places.advice[q]), Some(AdviceEval(q.0, q.1)), sc, places, s);
    case Instance(_) => t := RunBind(sem, Load(places.instance_), Some(InstanceEval), sc, places, s);
    case Challenge(i) => t := RunBind(sem, Load(places.challenges[i]), Some(ChallengeEval(i)), sc, places, s);
  }

  lemma {:induction false} RunBoth(sem: Semantics, e: Expression, a: Expression, b: Expression, places: Places, sc: Scope,
                                   s: State, env: Env)
    returns (x: Code, y: Code, t: State)
    requires e == Sum(a, b) || e == Product(a, b)
    requires Compilable(e, places) && Presents(s.mem, places, env) && InScope(e, env)
    requires ScopeFits(sc, places) && Holds(sem, sc, s)
    ensures x == Compile(a, places, sc) && y == Compile(b, places, x.scope)
    ensures ScopeFits(y.scope, places)
    ensures Exec(sem, x.lines + y.lines, s) == Some(t)
    ensures Extends(s, t) && Holds(sem, y.scope, t)
    ensures x.result in t.vars && t.vars[x.result] == Value(sem, a, env)
    ensures y.result in t.vars && t.vars[y.result] == Value(sem, b, env)
    decreases e, 0
  {
    x := Compile(a, places, sc);
    y := Compile(b, places, x.scope);
    var u := RunCompiled(sem, a, places, sc, s, env);
    t := RunCompiled(sem, b, places, x.scope, u, env);
    ExecConcat(sem, x.lines, y.lines, s);
  }

  lemma {:induction false} RunCompiledAll(sem: Semantics, es: seq<Expression>, places: Places, sc: Scope, s: State, env: Env)
    returns (t: State)
    requires forall e :: e in es ==> Compilable(e, places) && InScope(e, env)
    requires Presents(s.mem, places, env)
    requires ScopeFits(sc, places) && Holds(sem, sc, s)
    ensures var c := CompileAll(es, places, sc);
            && ScopeFits(c.scope, places)
            && Exec(sem, c.lines, s) == Some(t)
            && Extends(s, t) && Holds(sem, c.scope, t)
            && forall i :: 0 <= i < |es| ==>
                 c.results[i] in t.vars && t.vars[c.results[i]] == Value(sem, es[i], env)
  {
    hide ScopeFits, Holds, Presents, Value, Compile;
    if es == [] {
      t := s;
    } else {
      var n := |es| - 1;
      var init := CompileAll(es[..n], places, sc);
      var u := RunCompiledAll(sem, es[..n], places, sc, s, env);
      t := RunCompiled(sem, es[n], places, init.scope, u, env);
      ExecConcat(sem, init.lines, Compile(es[n], places, init.scope).lines, s);
      forall i | 0 <= i < n
        ensures Value(sem, es[i], env) == Value(sem, es[..n][i], env)
      {
      }
    }
  }

  // -------- the emitted lines are in single-assignment form --------

  function Uses(e: Expr): set<Name> {
    match e
    case Num(_) => {}
    case Var(x) => {x}
    case Load(_) => {}
    case SubR(a) => Uses(a)
    case AddM(a, b) => Uses(a) + Uses(b)
    case MulM(a, b) => Uses(a) + Uses(b)
  }

  ghost predicate Declared(x: Name, lines: seq<Stmt>) {
    exists i :: 0 <= i < |lines| && lines[i].Let? && lines[i].x == x
  }

  // Every line declares a new name for a new right-hand side over names declared before it.
  ghost predicate SingleAssignment(lines: seq<Stmt>) {
    && (forall i :: 0 <= i < |lines| ==> lines[i].Let? && CompilerName(lines[i].x) && LiteralsFit(lines[i].e))
    && (forall i, j :: 0 <= i < j < |lines| ==> lines[i].x != lines[j].x && lines[i].e != lines[j].e)
    && (forall i, x :: 0 <= i < |lines| && x in Uses(lines[i].e) ==> Declared(x, lines[..i]))
  }

  // The cache holds exactly the lines emitted since the last reset.
  ghost predicate Mirrors(sc: Scope, lines: seq<Stmt>) {
    && (forall i :: 0 <= i < |lines| ==>
          lines[i].Let? && lines[i].e in sc.cache && sc.cache[lines[i].e] == lines[i].x)
    && (forall v :: v in sc.cache ==> exists i :: 0 <= i < |lines| && lines[i].Let? && lines[i].e == v)
  }

  lemma BindSingleAssignment(value: Expr, name: Option<Name>, sc: Scope, places: Places, lines: seq<Stmt>)
    requires ScopeFits(sc, places) && Mirrors(sc, lines) && SingleAssignment(lines)
    requires name.Some? ==> !name.value.Temp? && NameFits(value, name.value, places, sc.counter)
    requires LiteralsFit(value) && forall x :: x in Uses(value) ==> Declared(x, lines)
    ensures var c := Bind(value, name, sc);
            && ScopeFits(c.scope, places) && Mirrors(c.scope, lines + c.lines)
            && SingleAssignment(lines + c.lines) && Declared(c.result, lines + c.lines)
  {
    BindKeepsFit(value, name, sc, places);
    var c := Bind(value, name, sc);
    if value in sc.cache {
      assert lines + c.lines == lines;
    } else {
      forall i | 0 <= i < |lines|
        ensures lines[i].x != c.result && lines[i].e != value
      {
        assert NameFits(lines[i].e, lines[i].x, places, sc.counter);
      }
      AppendSingleAssignment(c.result, value, lines);
      AppendMirrors(c.result, value, sc, lines);
    }
  }

  lemma AppendSingleAssignment(x: Name, value: Expr, lines: seq<Stmt>)
    requires SingleAssignment(lines) && CompilerName(x) && LiteralsFit(value)
    requires forall y :: y in Uses(value) ==> Declared(y, lines)
    requires forall i :: 0 <= i < |lines| ==> lines[i].x != x && lines[i].e != value
    ensures SingleAssignment(lines + [Let(x, value)]) && Declared(x, lines + [Let(x, value)])
  {
    var all := lines + [Let(x, value)];
    assert all[|lines|] == Let(x, value);
    forall i, y | 0 <= i < |all| && y in Uses(all[i].e)
      ensures Declared(y, all[..i])
    {
      if i < |lines| {
        assert all[..i] == lines[..i];
      } else {
        assert all[..i] == lines;
      }
    }
  }

  lemma AppendMirrors(x: Name, value: Expr, sc: Scope, lines: seq<Stmt>)
    requires Mirrors(sc, lines) && value !in sc.cache
    ensures Mirrors(sc.(cache := sc.cache[value := x]), lines + [Let(x, value)])
  {
    var all := lines + [Let(x, value)];
    var cache := sc.cache[value := x];
    forall v | v in cache
      ensures exists i :: 0 <= i < |all| && all[i].Let? && all[i].e == v
    {
      if v == value {
        assert all[|lines|].e == v;
      } else {
        var i :| 0 <= i < |lines| && lines[i].Let? && lines[i].e == v;
        assert all[i].e == v;
      }
    }
  }

  lemma DeclaredStays(x: Name, lines: seq<Stmt>, more: seq<Stmt>)
    requires Declared(x, lines)
    ensures Declared(x, lines + more)
  {
    var i :| 0 <= i < |lines| && lines[i].Let? && lines[i].x == x;
    assert (lines + more)[i] == lines[i];
  }

  // Compiling further expressions into a scope keeps its lines in single-assignment form:
  // no name is declared twice, no right-hand side is emitted twice, no name is used early.
  lemma {:induction false} CompileSingleAssignment(e: Expression, places: Places, sc: Scope, lines: seq<Stmt>)
    requires Compilable(e, places) && ScopeFits(sc, places) && Mirrors(sc, lines) && SingleAssignment(lines)
    ensures var c := Compile(e, places, sc);
            && ScopeFits(c.scope, places) && Mirrors(c.scope, lines + c.lines)
            && SingleAssignment(lines + c.lines) && Declared(c.result, lines + c.lines)
    decreases e, 1
  {
    hide Mirrors, SingleAssignment, ScopeFits, Declared;
    match e
    case Constant(c) => BindSingleAssignment(Num(c), None, sc, places, lines);
    case Fixed(q) => BindSingleAssignment(Load(places.fixed[q]), Some(FixedEval(q.0, q.1)), sc, places, lines);
    case Advice(q) => BindSingleAssignment(Load(places.advice[q]), Some(AdviceEval(q.0, q.1)), sc, places, lines);
    case Instance(_) => BindSingleAssignment(Load(places.instance_), Some(InstanceEval), sc, places, lines);
    case Challenge(i) =>
      BindSingleAssignment(Load(places.challenges[i]), Some(ChallengeEval(i)), sc, places, lines);
    case Negated(a) =>
      var x := Compile(a, places, sc);
      CompileSingleAssignment(a, places, sc, lines);
      ThenSingleAssignment(x.lines, SubR(Var(x.result)), x.scope, places, lines);
    case Sum(a, b) =>
      var x, y := BothSingleAssignment(e, a, b, places, sc, lines);
      ThenSingleAssignment(x.lines + y.lines, AddM(Var(x.result), Var(y.result)), y.scope, places, lines);
    case Product(a, b) =>
      var x, y := BothSingleAssignment(e, a, b, places, sc, lines);
      ThenSingleAssignment(x.lines + y.lines, MulM(Var(x.result), Var(y.result)), y.scope, places, lines);
    case Scaled(a, c) =>
      var x := Compile(a, places, sc);
      CompileSingleAssignment(a, places, sc, lines);
      ThenSingleAssignment(x.lines, MulM(Var(x.result), Num(c)), x.scope, places, lines);
  }

  lemma ThenSingleAssignment(more: seq<Stmt>, value: Expr, sc: Scope, places: Places, lines: seq<Stmt>)
    requires ScopeFits(sc, places) && Mirrors(sc, lines + more) && SingleAssignment(lines + more)
    requires LiteralsFit(value) && forall x :: x in Uses(value) ==> Declared(x, lines + more)
    ensures var c := Then(more, Bind(value, None, sc));
            && ScopeFits(c.scope, places) && Mirrors(c.scope, lines + c.lines)
            && SingleAssignment(lines + c.lines) && Declared(c.result, lines + c.lines)
  {
    hide Mirrors, SingleAssignment, ScopeFits, Declared;
    var c := Bind(value, None, sc);
    BindSingleAssignment(value, None, sc, places, lines + more);
    assert lines + (more + c.lines) == (lines + more) + c.lines;
  }

  lemma {:induction false} BothSingleAssignment(e: Expression, a: Expression, b: Expression, places: Places,
                                                sc: Scope, lines: seq<Stmt>)
    returns (x: Code, y: Code)
    requires e == Sum(a, b) || e == Product(a, b)
    requires Compilable(e, places) && ScopeFits(sc, places) && Mirrors(sc, lines) && SingleAssignment(lines)
    ensures x == Compile(a, places, sc) && y == Compile(b, places, x.scope)
    ensures ScopeFits(y.scope, places) && Mirrors(y.scope, lines + (x.lines + y.lines))
    ensures SingleAssignment(lines + (x.lines + y.lines))
    ensures Declared(x.result, lines + (x.lines + y.lines)) && Declared(y.result, lines + (x.lines + y.lines))
    decreases e, 0
  {
    hide Mirrors, SingleAssignment, ScopeFits, Declared;
    x := Compile(a, places, sc);
    y := Compile(b, places, x.scope);
    CompileSingleAssignment(a, places, sc, lines);
    CompileSingleAssignment(b, places, x.scope, lines + x.lines);
    DeclaredStays(x.result, lines + x.lines, y.lines);
    assert lines + (x.lines + y.lines) == (lines + x.lines) + y.lines;
  }

  // One reset scope: a gate polynomial, or all inputs or all tables of a lookup.
  lemma {:induction false} CompileAllSingleAssignment(es: seq<Expression>, places: Places)
    requires forall e :: e in es ==> Compilable(e, places)
    ensures var c := CompileAll(es, places, FRESH);
            && ScopeFits(c.scope, places) && Mirrors(c.scope, c.lines) && SingleAssignment(c.lines)
            && forall i :: 0 <= i < |es| ==> Declared(c.results[i], c.lines)
  {
    if es != [] {
      var n := |es| - 1;
      var init := CompileAll(es[..n], places, FRESH);
      CompileAllSingleAssignment(es[..n], places);
      CompileSingleAssignment(es[n], places, init.scope, init.lines);
      forall i | 0 <= i < n
        ensures Declared(init.results[i], init.lines + Compile(es[n], places, init.scope).lines)
      {
        DeclaredStays(init.results[i], init.lines, Compile(es[n], places, init.scope).lines);
      }
    }
  }

  // -------- correctness on the EVM --------

  ghost predicate EnvReduced(env: Env) {
    && (forall q :: q in env.fixed ==> 0 <= env.fixed[q] < R)
    && (forall q :: q in env.advice ==> 0 <= env.advice[q] < R)
    && 0 <= env.instance_ < R
    && (forall i :: 0 <= i < |env.challenges| ==> 0 <= env.challenges[i] < R)
  }

  // Negating a reduced zero gives r, and negating that gives zero again.
  predicate Unreduced(e: Expression, env: Env)
    requires InScope(e, env)
  {
    e.Negated? && FieldValue(e.e, env) == 0 && !Unreduced(e.e, env)
  }

  function Negations(e: Expression): nat {
    if e.Negated? then 1 + Negations(e.e) else 0
  }

  function Core(e: Expression): Expression {
    if e.Negated? then Core(e.e) else e
  }

  // The expression is an odd number of negations around one whose value is zero.
  lemma {:induction false} UnreducedIsOdd(e: Expression, env: Env)
    requires InScope(e, env)
    ensures InScope(Core(e), env)
    ensures Unreduced(e, env) <==> Negations(e) % 2 == 1 && FieldValue(Core(e), env) == 0
    ensures FieldValue(e, env) == 0 <==> FieldValue(Core(e), env) == 0
  {
    if e.Negated? {
      UnreducedIsOdd(e.e, env);
      FieldValueReduced(e.e, env);
    }
  }

  lemma FieldValueReduced(e: Expression, env: Env)
    requires InScope(e, env)
    ensures 0 <= FieldValue(e, env) < R
  {
  }

  // The computed word is the field value itself, except for the r of an unreduced zero.
  lemma {:induction false} WordValueExact(e: Expression, places: Places, env: Env)
    requires Compilable(e, places) && InScope(e, env) && EnvReduced(env)
    ensures WordValue(e, env) == if Unreduced(e, env) then R else FieldValue(e, env)
  {
    hide EnvReduced, Cong, Sub, AddMod, MulMod, Compilable;
    match e
    case Negated(a) =>
      CompilableParts(e, places);
      WordValueExact(a, places, env);
      UnreducedIsZero(a, env);
      NegatedWord(WordValue(a, env), FieldValue(a, env));
    case Sum(a, b) =>
      CompilableParts(e, places);
      WordValueExact(a, places, env);
      WordValueExact(b, places, env);
      UnreducedIsZero(a, env);
      UnreducedIsZero(b, env);
      SumWord(WordValue(a, env), FieldValue(a, env), WordValue(b, env), FieldValue(b, env));
    case Product(a, b) =>
      CompilableParts(e, places);
      WordValueExact(a, places, env);
      WordValueExact(b, places, env);
      UnreducedIsZero(a, env);
      UnreducedIsZero(b, env);
      ProductWord(WordValue(a, env), FieldValue(a, env), WordValue(b, env), FieldValue(b, env));
    case Scaled(a, c) =>
      CompilableParts(e, places);
      WordValueExact(a, places, env);
      UnreducedIsZero(a, env);
      CongReduce(c);
      ProductWord(WordValue(a, env), FieldValue(a, env), c, c % R);
    case _ => LeafReduced(e, places, env);
  }

  lemma CompilableParts(e: Expression, places: Places)
    requires Compilable(e, places)
    ensures e.Negated? || e.Scaled? ==> Compilable(e.e, places)
    ensures e.Sum? || e.Product? ==> Compilable(e.l, places) && Compilable(e.r, places)
  {
  }

  lemma SumWord(v: int, f: int, w: int, g: int)
    requires Cong(v, f) && Cong(w, g)
    ensures AddMod(v, w) == (f + g) % R
  {
    AddModCong(v, f, w, g);
    SmallMod(AddMod(v, w), R);
  }

  lemma ProductWord(v: int, f: int, w: int, g: int)
    requires Cong(v, f) && Cong(w, g)
    ensures MulMod(v, w) == (f * g) % R
  {
    MulModCong(v, f, w, g);
    SmallMod(MulMod(v, w), R);
  }

  lemma LeafReduced(e: Expression, places: Places, env: Env)
    requires e.Constant? || e.Fixed? || e.Advice? || e.Instance? || e.Challenge?
    requires Compilable(e, places) && InScope(e, env) && EnvReduced(env)
    ensures WordValue(e, env) == FieldValue(e, env)
  {
    SmallMod(WordValue(e, env), R);
  }

  lemma NegatedWord(v: int, f: int)
    requires 0 <= f < R && (v == f || (v == R && f == 0))
    ensures Sub(R, v) == if v == 0 then R else if v == R then 0 else R - f
    ensures (R - f) % R == if f == 0 then 0 else R - f
  {
    SmallMod(R - v, WORD_SIZE);
    if f > 0 {
      SmallMod(R - f, R);
    }
  }

  lemma UnreducedIsZero(e: Expression, env: Env)
    requires InScope(e, env)
    ensures Unreduced(e, env) ==> FieldValue(e, env) == 0
    ensures 0 <= FieldValue(e, env) < R
    ensures Cong(if Unreduced(e, env) then R else FieldValue(e, env), FieldValue(e, env))
  {
    FieldValueReduced(e, env);
  }

  // For every expression, and every verifier state whose loaded words are field elements,
  // the emitted code runs and leaves in the returned name a value of [0, r] that is the
  // expression's field value modulo r. It is reduced except where it is r, and it is r
  // exactly for an odd number of negations around a zero.
  lemma CompilerCorrect(e: Expression, places: Places, s: State, env: Env) returns (t: State)
    requires Compilable(e, places) && Presents(s.mem, places, env)
    requires forall p :: p in s.mem ==> 0 <= s.mem[p] < R
    requires forall x :: x in s.vars ==> !CompilerName(x)
    ensures var c := Compile(e, places, FRESH);
            && InScope(e, env)
            && Exec(Evm, c.lines, s) == Some(t)
            && t.mem == s.mem
            && c.result in t.vars && 0 <= t.vars[c.result] <= R
            && t.vars[c.result] % R == FieldValue(e, env)
            && (t.vars[c.result] == R <==> Unreduced(e, env))
  {
    CompilableInScope(e, places, s.mem, env);
    assert EnvReduced(env);
    t := RunCompiled(Evm, e, places, FRESH, s, env);
    hide Compile, Presents, Compilable, FieldValue, WordValue;
    WordValueExact(e, places, env);
    UnreducedIsZero(e, env);
    SmallMod(FieldValue(e, env), R);
  }

  // The bound [0, r] is reached: the smallest such expression.
  lemma NegatedZeroIsNotReduced()
    ensures var places := Places(map[], map[], Named(INSTANCE_EVAL_MPTR), []);
            var c := Compile(Negated(Constant(0)), places, FRESH);
            && Exec(Evm, c.lines, State(map[], map[])).Some?
            && c.result in Exec(Evm, c.lines, State(map[], map[])).value.vars
            && Exec(Evm, c.lines, State(map[], map[])).value.vars[c.result] == R
  {
    var places := Places(map[], map[], Named(INSTANCE_EVAL_MPTR), []);
    var s0 := State(map[], map[]);
    var s1 := State(map[Temp(0) := 0], map[]);
    var s2 := State(map[Temp(0) := 0, Temp(1) := R], map[]);
    var x := Bind(Num(0), None, FRESH);
    var c := Compile(Negated(Constant(0)), places, FRESH);
    assert c.lines == [Let(Temp(0), Num(0)), Let(Temp(1), SubR(Var(Temp(0))))];
    assert c.lines[1..] == [Let(Temp(1), SubR(Var(Temp(0))))];
    assert Sub(R, 0) == R;
    assert Exec(Evm, c.lines[1..], s1) == Some(s2);
  }

  // -------- the evaluator itself --------

  datatype Snippet = Snippet(lines: seq<Stmt>, result: Name)

  function GateCode(e: Expression, places: Places): Snippet
    requires Compilable(e, places)
  {
    var c := Compile(e, places, FRESH);
    Snippet(c.lines, c.result)
  }

  class Evaluator {
    const places: Places
    var varCounter: nat
    var varCache: map<Expr, Name>

    constructor (places: Places)
      ensures this.places == places && Now() == FRESH
    {
      this.places := places;
      varCounter, varCache := 0, map[];
    }

    ghost function Now(): Scope
      reads this
    {
      Scope(varCounter, varCache)
    }

    method Reset()
      modifies this
      ensures Now() == FRESH
    {
      varCounter, varCache := 0, map[];
    }

    method NextVar() returns (x: Name)
      modifies this
      ensures x == Temp(old(varCounter)) && varCounter == old(varCounter) + 1
      ensures varCache == old(varCache)
    {
      var count := varCounter;
      varCounter := varCounter + 1;
      x := Temp(count);
    }

    method InitVar(value: Expr, name: Option<Name>) returns (lines: seq<Stmt>, x: Name)
      modifies this
      ensures Code(lines, x, Now()) == Bind(value, name, old(Now()))
    {
      if value in varCache {
        lines, x := [], varCache[value];
      } else {
        if name.Some? {
          x := name.value;
        } else {
          x := NextVar();
        }
        varCache := varCache[value := x];
        lines := [Let(x, value)];
      }
    }

    method Evaluate(e: Expression) returns (lines: seq<Stmt>, x: Name)
      requires Compilable(e, places)
      modifies this
      ensures Code(lines, x, Now()) == Compile(e, places, old(Now()))
      decreases e
    {
      match e
      case Constant(c) => lines, x := InitVar(Num(c), None);
      case Fixed(q) => lines, x := InitVar(Load(places.fixed[q]), Some(FixedEval(q.0, q.1)));
      case Advice(q) => lines, x := InitVar(Load(places.advice[q]), Some(AdviceEval(q.0, q.1)));
      case Instance(_) => lines, x := InitVar(Load(places.instance_), Some(InstanceEval));
      case Challenge(i) => lines, x := InitVar(Load(places.challenges[i]), Some(ChallengeEval(i)));
      case Negated(a) =>
        var acc, y := Evaluate(a);
        var more;
        more, x := InitVar(SubR(Var(y)), None);
        lines := acc + more;
      case Sum(a, b) =>
        var accA, y := Evaluate(a);
        var accB, z := Evaluate(b);
        var more;
        more, x := InitVar(AddM(Var(y), Var(z)), None);
        lines := accA + accB + more;
      case Product(a, b) =>
        var accA, y := Evaluate(a);
        var accB, z := Evaluate(b);
        var more;
        more, x := InitVar(MulM(Var(y), Var(z)), None);
        lines := accA + accB + more;
      case Scaled(a, c) =>
        var acc, y := Evaluate(a);
        var more;
        more, x := InitVar(MulM(Var(y), Num(c)), None);
        lines := acc + more;
    }

    method EvaluateAndReset(e: Expression) returns (code: Snippet)
      requires Compilable(e, places) && Now() == FRESH
      modifies this
      ensures code == GateCode(e, places) && Now() == FRESH
    {
      var lines, x := Evaluate(e);
      Reset();
      code := Snippet(lines, x);
    }

    // The inputs, or the tables, of one lookup: one scope for all of them.
    method EvaluateAllAndReset(es: seq<Expression>) returns (lines: seq<Stmt>, results: seq<Name>)
      requires (forall e :: e in es ==> Compilable(e, places)) && Now() == FRESH
      modifies this
      ensures Now() == FRESH
      ensures lines == CompileAll(es, places, FRESH).lines
      ensures results == CompileAll(es, places, FRESH).results
    {
      lines, results := [], [];
      for i := 0 to |es|
        invariant CodeList(lines, results, Now()) == CompileAll(es[..i], places, FRESH)
      {
        assert es[..i + 1][..i] == es[..i];
        var more, x := Evaluate(es[i]);
        lines, results := lines + more, results + [x];
      }
      assert es[..|es|] == es;
      Reset();
    }

    method GateComputations(polynomials: seq<Expression>) returns (code: seq<Snippet>)
      requires (forall e :: e in polynomials ==> Compilable(e, places)) && Now() == FRESH
      modifies this
      ensures Now() == FRESH && |code| == |polynomials|
      ensures forall i :: 0 <= i < |code| ==> code[i] == GateCode(polynomials[i], places)
    {
      code := [];
      for i := 0 to |polynomials|
        invariant Now() == FRESH && |code| == i
        invariant forall j :: 0 <= j < i ==> code[j] == GateCode(polynomials[j], places)
      {
        var snippet := EvaluateAndReset(polynomials[i]);
        code := code + [snippet];
      }
    }
  }
}
