/**
  The fragment of Yul that the Halo2 verifier generator emits for the quotient evaluation,
  with two semantics: `Evm`, on 256-bit words, and `Exact`, on unbounded integers where
  addmod, mulmod and sub(r, _) are plain ring operations. `Simulation` relates the two, so
  every statement about emitted code can be proved on exact integers.
 */
module Yul {
  import opened Common
  import opened Words

  datatype Location = Calldata | Memory

  // The named memory constants of the verifier contract.
  datatype Constant =
    | L_0_MPTR | L_LAST_MPTR | L_BLIND_MPTR | X_MPTR | BETA_MPTR | GAMMA_MPTR | THETA_MPTR
    | INSTANCE_EVAL_MPTR | QUOTIENT_EVAL_MPTR | QUOTIENT_X_MPTR | QUOTIENT_Y_MPTR

  datatype Value = Integer(n: int) | Identifier(id: Constant)

  // A pointer to a word. Adding one to it moves its value by 32 bytes.
  datatype Ptr = Ptr(loc: Location, value: Value)

  // The memory word 0x00, the only one that the emitted code stores to.
  const SCRATCH: Ptr := Ptr(Memory, Integer(0))

  function Named(id: Constant): Ptr {
    Ptr(Memory, Identifier(id))
  }

  datatype Name =
    // names that the expression compiler declares
    | Temp(n: nat)
    | FixedEval(column: nat, rotation: int)
    | AdviceEval(column: nat, rotation: int)
    | InstanceEval
    | ChallengeEval(index: nat)
    // names that the constraint templates declare
    | L_0 | L_LAST | PERM_Z_LAST | EVAL | GAMMA | BETA | THETA | LHS | RHS | LEFT_SUB_RIGHT
    | INPUT | TABLE
    // names that surround the constraint blocks
    | QUOTIENT_EVAL_NUMER | DELTA | Y

  datatype Expr =
    | Num(n: int)
    | Var(x: Name)
    | Load(ptr: Ptr)
    | SubR(e: Expr)              // sub(r, e)
    | AddM(a: Expr, b: Expr)     // addmod(a, b, r)
    | MulM(a: Expr, b: Expr)     // mulmod(a, b, r)

  datatype Stmt =
    | Let(x: Name, e: Expr)
    | Declare(x: Name)           // let x
    | Assign(x: Name, e: Expr)
    | Store(ptr: Ptr, e: Expr)   // mstore
    | Block(body: seq<Stmt>)

  datatype State = State(vars: map<Name, int>, mem: map<Ptr, int>)

  datatype Semantics = Evm | Exact

  predicate Defined(e: Expr, s: State) {
    match e
    case Num(_) => true
    case Var(x) => x in s.vars
    case Load(p) => p in s.mem
    case SubR(a) => Defined(a, s)
    case AddM(a, b) => Defined(a, s) && Defined(b, s)
    case MulM(a, b) => Defined(a, s) && Defined(b, s)
  }

  function Eval(sem: Semantics, e: Expr, s: State): int
    requires Defined(e, s)
  {
    match e
    case Num(n) => n
    case Var(x) => s.vars[x]
    case Load(p) => s.mem[p]
    case SubR(a) =>
      var v := Eval(sem, a, s);
      if sem.Evm? then Sub(R, v) else -v
    case AddM(a, b) =>
      var v, w := Eval(sem, a, s), Eval(sem, b, s);
      if sem.Evm? then AddMod(v, w) else v + w
    case MulM(a, b) =>
      var v, w := Eval(sem, a, s), Eval(sem, b, s);
      if sem.Evm? then MulMod(v, w) else v * w
  }

  function Restrict(vars: map<Name, int>, scope: set<Name>): map<Name, int> {
    map x | x in vars && x in scope :: vars[x]
  }

  // None when the code is ill-formed at this point: an undeclared name or an unset word is
  // read, an undeclared name is assigned, or a visible name is declared again.
  function Exec(sem: Semantics, p: seq<Stmt>, s: State): Option<State>
    decreases p
  {
    if p == [] then Some(s) else
    match p[0]
    case Let(x, e) =>
      if x in s.vars || !Defined(e, s) then None
      else Exec(sem, p[1..], s.(vars := s.vars[x := Eval(sem, e, s)]))
    case Declare(x) =>
      if x in s.vars then None else Exec(sem, p[1..], s.(vars := s.vars[x := 0]))
    case Assign(x, e) =>
      if x !in s.vars || !Defined(e, s) then None
      else Exec(sem, p[1..], s.(vars := s.vars[x := Eval(sem, e, s)]))
    case Store(q, e) =>
      if !Defined(e, s) then None
      else Exec(sem, p[1..], s.(mem := s.mem[q := Eval(sem, e, s)]))
    case Block(body) =>
      match Exec(sem, body, s)
      case None => None
      case Some(t) => Exec(sem, p[1..], State(Restrict(t.vars, s.vars.Keys), t.mem))
  }

  lemma {:induction false} ExecConcat(sem: Semantics, p: seq<Stmt>, q: seq<Stmt>, s: State)
    ensures Exec(sem, p + q, s) ==
            match Exec(sem, p, s) case None => None case Some(t) => Exec(sem, q, t)
    decreases p
  {
    if p == [] {
      assert p + q == q;
    } else {
      assert (p + q)[0] == p[0] && (p + q)[1..] == p[1..] + q;
      match p[0]
      case Let(x, e) =>
        if x !in s.vars && Defined(e, s) {
          ExecConcat(sem, p[1..], q, s.(vars := s.vars[x := Eval(sem, e, s)]));
        }
      case Declare(x) => ExecConcat(sem, p[1..], q, s.(vars := s.vars[x := 0]));
      case Assign(x, e) =>
        if x in s.vars && Defined(e, s) {
          ExecConcat(sem, p[1..], q, s.(vars := s.vars[x := Eval(sem, e, s)]));
        }
      case Store(w, e) =>
        if Defined(e, s) {
          ExecConcat(sem, p[1..], q, s.(mem := s.mem[w := Eval(sem, e, s)]));
        }
      case Block(body) =>
        match Exec(sem, body, s) {
          case None =>
          case Some(t) =>
            ExecConcat(sem, p[1..], q, State(Restrict(t.vars, s.vars.Keys), t.mem));
        }
    }
  }

  // -------- memory that is not read --------

  // The state t has all names and words of s, with the same values, and possibly more.
  ghost predicate Grows(s: State, t: State) {
    && (forall x :: x in s.vars ==> x in t.vars && t.vars[x] == s.vars[x])
    && (forall p :: p in s.mem ==> p in t.mem && t.mem[p] == s.mem[p])
  }

  lemma {:induction false} EvalGrows(sem: Semantics, e: Expr, s: State, t: State)
    requires Grows(s, t) && Defined(e, s)
    ensures Defined(e, t) && Eval(sem, e, t) == Eval(sem, e, s)
  {
    match e
    case SubR(a) => EvalGrows(sem, a, s, t);
    case AddM(a, b) =>
      EvalGrows(sem, a, s, t);
      EvalGrows(sem, b, s, t);
    case MulM(a, b) =>
      EvalGrows(sem, a, s, t);
      EvalGrows(sem, b, s, t);
    case _ =>
  }

  // A program that runs without some words runs in the same way whatever they hold: it
  // writes them before it reads them, or not at all.
  lemma {:induction false} ExecExtends(sem: Semantics, p: seq<Stmt>, s: State, t: State)
    requires t.vars == s.vars && Grows(s, t) && Exec(sem, p, s).Some?
    ensures Exec(sem, p, t).Some? && Exec(sem, p, t).value.vars == Exec(sem, p, s).value.vars
    ensures Grows(Exec(sem, p, s).value, Exec(sem, p, t).value)
    decreases p
  {
    if p == [] {
      return;
    }
    match p[0]
    case Let(x, e) =>
      EvalGrows(sem, e, s, t);
      var v := Eval(sem, e, s);
      ExecExtends(sem, p[1..], s.(vars := s.vars[x := v]), t.(vars := t.vars[x := v]));
    case Declare(x) =>
      ExecExtends(sem, p[1..], s.(vars := s.vars[x := 0]), t.(vars := t.vars[x := 0]));
    case Assign(x, e) =>
      EvalGrows(sem, e, s, t);
      var v := Eval(sem, e, s);
      ExecExtends(sem, p[1..], s.(vars := s.vars[x := v]), t.(vars := t.vars[x := v]));
    case Store(q, e) =>
      EvalGrows(sem, e, s, t);
      var v := Eval(sem, e, s);
      ExecExtends(sem, p[1..], s.(mem := s.mem[q := v]), t.(mem := t.mem[q := v]));
    case Block(body) =>
      ExecExtends(sem, body, s, t);
      var s', t' := Exec(sem, body, s).value, Exec(sem, body, t).value;
      ExecExtends(sem, p[1..], State(Restrict(s'.vars, s.vars.Keys), s'.mem),
                  State(Restrict(t'.vars, t.vars.Keys), t'.mem));
  }

  // -------- relating the two semantics --------

  ghost predicate Represents(v: int, w: int) {
    0 <= v <= R && Cong(v, w)
  }

  // `s` holds, for every name and word of `t`, a representative of its exact value.
  ghost predicate Related(s: State, t: State) {
    && s.vars.Keys == t.vars.Keys
    && s.mem.Keys == t.mem.Keys
    && (forall x :: x in s.vars ==> Represents(s.vars[x], t.vars[x]))
    && (forall p :: p in s.mem ==> Represents(s.mem[p], t.mem[p]))
  }

  // Literals in emitted code are field elements.
  predicate LiteralsFit(e: Expr) {
    match e
    case Num(n) => 0 <= n < R
    case Var(_) => true
    case Load(_) => true
    case SubR(a) => LiteralsFit(a)
    case AddM(a, b) => LiteralsFit(a) && LiteralsFit(b)
    case MulM(a, b) => LiteralsFit(a) && LiteralsFit(b)
  }

  predicate StmtFits(st: Stmt) {
    match st
    case Let(_, e) => LiteralsFit(e)
    case Declare(_) => true
    case Assign(_, e) => LiteralsFit(e)
    case Store(_, e) => LiteralsFit(e)
    case Block(body) => forall b :: b in body ==> StmtFits(b)
  }

  predicate AllLiteralsFit(p: seq<Stmt>) {
    forall st :: st in p ==> StmtFits(st)
  }

  lemma {:induction false} EvalSimulation(e: Expr, s: State, t: State)
    requires Related(s, t) && LiteralsFit(e)
    ensures Defined(e, s) <==> Defined(e, t)
    ensures Defined(e, s) ==> Represents(Eval(Evm, e, s), Eval(Exact, e, t))
  {
    match e
    case Num(_) =>
    case Var(_) =>
    case Load(_) =>
    case SubR(a) =>
      EvalSimulation(a, s, t);
      if Defined(a, s) {
        SubCong(Eval(Evm, a, s), Eval(Exact, a, t));
      }
    case AddM(a, b) =>
      EvalSimulation(a, s, t);
      EvalSimulation(b, s, t);
      if Defined(e, s) {
        AddModCong(Eval(Evm, a, s), Eval(Exact, a, t), Eval(Evm, b, s), Eval(Exact, b, t));
      }
    case MulM(a, b) =>
      EvalSimulation(a, s, t);
      EvalSimulation(b, s, t);
      if Defined(e, s) {
        MulModCong(Eval(Evm, a, s), Eval(Exact, a, t), Eval(Evm, b, s), Eval(Exact, b, t));
      }
  }

  // For every emitted program: the EVM run is stuck exactly when the exact run is, never
  // underflows in sub(r, _), and ends with a representative of every exact value.
  lemma {:induction false} Simulation(p: seq<Stmt>, s: State, t: State)
    requires Related(s, t) && AllLiteralsFit(p)
    ensures Exec(Evm, p, s).Some? <==> Exec(Exact, p, t).Some?
    ensures Exec(Evm, p, s).Some? ==> Related(Exec(Evm, p, s).value, Exec(Exact, p, t).value)
    decreases p
  {
    if p == [] {
      return;
    }
    assert StmtFits(p[0]) && AllLiteralsFit(p[1..]);
    match p[0]
    case Let(x, e) =>
      EvalSimulation(e, s, t);
      if x !in s.vars && Defined(e, s) {
        Simulation(p[1..], s.(vars := s.vars[x := Eval(Evm, e, s)]),
                   t.(vars := t.vars[x := Eval(Exact, e, t)]));
      }
    case Declare(x) =>
      if x !in s.vars {
        Simulation(p[1..], s.(vars := s.vars[x := 0]), t.(vars := t.vars[x := 0]));
      }
    case Assign(x, e) =>
      EvalSimulation(e, s, t);
      if x in s.vars && Defined(e, s) {
        Simulation(p[1..], s.(vars := s.vars[x := Eval(Evm, e, s)]),
                   t.(vars := t.vars[x := Eval(Exact, e, t)]));
      }
    case Store(q, e) =>
      EvalSimulation(e, s, t);
      if Defined(e, s) {
        Simulation(p[1..], s.(mem := s.mem[q := Eval(Evm, e, s)]),
                   t.(mem := t.mem[q := Eval(Exact, e, t)]));
      }
    case Block(body) =>
      Simulation(body, s, t);
      if Exec(Evm, body, s).Some? {
        var s', t' := Exec(Evm, body, s).value, Exec(Exact, body, t).value;
        Simulation(p[1..], State(Restrict(s'.vars, s.vars.Keys), s'.mem),
                   State(Restrict(t'.vars, t.vars.Keys), t'.mem));
      }
  }

  // A state of field elements represents itself.
  lemma CanonicalSelfRelated(s: State)
    requires forall x :: x in s.vars ==> 0 <= s.vars[x] < R
    requires forall p :: p in s.mem ==> 0 <= s.mem[p] < R
    ensures Related(s, s)
  {
  }
}
