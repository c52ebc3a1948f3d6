/** The TDS25 syntax tree and what a program means.

    A method body has one variable cell per name: the back end looks variables up by name, so a
    redeclaration in an inner block shares the cell of the outer one. Values that no program may rely
    on (an unset variable, the result of a void call) are absent; using one in an operation has no
    meaning (the evaluators return a failure). */
module Source {
  import opened Words

  datatype Type = TInt | TBool
  datatype RetType = RInt | RBool | RVoid

  datatype BinOp = Add | Sub | Mul | Div | Mod | Les | Grt | Eq | Neq | Leq | Geq | And | Or
  datatype UnOp = Minus | Neg

  /** An identifier leaf holds a pointer to its symbol: the name, the declared type, and `bits`, the
      C int obtained when the pointer is read through the integer member of the leaf union. */
  datatype Expr =
    | IntLit(n: CInt)
    | BoolLit(b: bool)
    | Id(x: string, ty: Type, bits: CInt)
    | Binary(op: BinOp, left: Expr, right: Expr)
    | Unary(uop: UnOp, arg: Expr)
    | CallE(f: string, args: ExprList)

  datatype ExprList = NoExpr | ExprCons(first: Expr, next: ExprList)

  /** A block the parser found empty is a null node: here, SNil as a branch or a body. */
  datatype Stmt =
    | Assign(x: string, ty: Type, e: Expr)
    | Decl(x: string, ty: Type, init: Option<Expr>)
    | CallS(f: string, args: ExprList)
    | Return(val: Option<Expr>)
    | If(cond: Expr, thn: StmtList, els: StmtList)
    | While(cond: Expr, body: StmtList)
    | Block(stmts: StmtList)

  datatype StmtList = SNil | SCons(first: Stmt, next: StmtList)

  datatype Param = Param(name: string, ty: Type)
  datatype Method = Method(name: string, params: seq<Param>, ret: RetType, isExtern: bool, body: StmtList)

  /** Every call is an event; an extern method answers with a function of the events so far. */
  datatype Event = Event(f: string, args: seq<Word>)
  type Trace = seq<Event>
  datatype Program = Program(methods: seq<Method>, ext: Trace -> Option<Word>)

  function Find(ms: seq<Method>, f: string): (r: Option<Method>)
    ensures r.Some? ==> r.value in ms && r.value.name == f
    ensures r.None? ==> forall m :: m in ms ==> m.name != f
  {
    if ms == [] then None
    else if ms[0].name == f then Some(ms[0])
    else Find(ms[1..], f)
  }

  function ListLength(es: ExprList): nat {
    match es
    case NoExpr => 0
    case ExprCons(_, next) => 1 + ListLength(next)
  }

  function ParamNames(ps: seq<Param>): (r: seq<string>)
    ensures |r| == |ps|
    ensures forall i :: 0 <= i < |ps| ==> r[i] == ps[i].name
  {
    seq(|ps|, i requires 0 <= i < |ps| => ps[i].name)
  }

  // ----- leaves -----

  predicate IsLiteral(e: Expr) {
    e.IntLit? || e.BoolLit?
  }

  function LiteralValue(e: Expr): CInt
    requires IsLiteral(e)
  {
    match e
    case IntLit(n) => n
    case BoolLit(b) => if b then 1 else 0
  }

  /** What the integer member of a leaf's union holds. */
  function LeafBits(e: Expr): Option<CInt> {
    match e
    case IntLit(n) => Some(n)
    case BoolLit(b) => Some(if b then 1 else 0)
    case Id(_, _, bits) => Some(bits)
    case _ => None
  }

  // ----- operators -----

  function Compare(op: BinOp, a: int, b: int): bool
    requires op in {Les, Grt, Eq, Neq, Leq, Geq}
  {
    match op
    case Les => a < b
    case Grt => a > b
    case Eq => a == b
    case Neq => a != b
    case Leq => a <= b
    case Geq => a >= b
  }

  /** The operators of the language. Division by zero and the quotient that is not a word have no
      meaning; neither has the remainder of that same pair. */
  function Apply(op: BinOp, a: Word, b: Word): Option<Word> {
    match op
    case Add => Some(Wrap(a + b))
    case Sub => Some(Wrap(a - b))
    case Mul => Some(Wrap(a * b))
    case Div =>
      if b == 0 || (a == -TWO63 && b == -1) then None else (TruncDivFits(a, b); Some(TruncDiv(a, b)))
    case Mod =>
      if b == 0 || (a == -TWO63 && b == -1) then None else (TruncDivFits(a, b); Some(TruncMod(a, b)))
    case And => Some(BoolWord(a != 0 && b != 0))
    case Or => Some(BoolWord(a != 0 || b != 0))
    case _ => Some(BoolWord(Compare(op, a, b)))
  }

  function ApplyUn(op: UnOp, a: Word): Word {
    match op
    case Minus => Wrap(0 - a)
    case Neg => BoolWord(a == 0)
  }

  // ----- evaluation -----

  type Env = map<string, Word>

  function Get<K(!new), V>(m: map<K, V>, k: K): Option<V> {
    if k in m then Some(m[k]) else None
  }

  function Set<K(!new), V>(m: map<K, V>, k: K, v: Option<V>): (m': map<K, V>)
    ensures Get(m', k) == v
    ensures forall j :: j != k ==> Get(m', j) == Get(m, j)
  {
    match v
    case Some(w) => m[k := w]
    case None => m - {k}
  }

  datatype ExprResult = Value(v: Option<Word>, tr: Trace) | ExprFail
  datatype ArgsResult = Args(vs: seq<Word>, tr: Trace) | ArgsFail
  datatype StmtResult = Normal(env: Env, tr: Trace) | Returned(v: Option<Word>, tr: Trace) | StmtFail

  function Bind(xs: seq<string>, vs: seq<Word>): (env: Env)
    requires |xs| == |vs|
  {
    if xs == [] then map[] else Bind(xs[..|xs| - 1], vs[..|vs| - 1])[xs[|xs| - 1] := vs[|vs| - 1]]
  }

  function EvalExpr(p: Program, e: Expr, env: Env, tr: Trace, fuel: nat): ExprResult
    decreases fuel, 0, e
  {
    match e
    case IntLit(n) => Value(Some(n as Word), tr)
    case BoolLit(b) => Value(Some(BoolWord(b)), tr)
    case Id(x, _, _) => Value(Get(env, x), tr)
    case Binary(op, l, r) =>
      (match EvalExpr(p, l, env, tr, fuel)
       case ExprFail => ExprFail
       case Value(a, tr1) =>
         match EvalExpr(p, r, env, tr1, fuel)
         case ExprFail => ExprFail
         case Value(b, tr2) =>
           if a.None? || b.None? then ExprFail
           else match Apply(op, a.value, b.value)
             case None => ExprFail
             case Some(w) => Value(Some(w), tr2))
    case Unary(op, arg) =>
      (match EvalExpr(p, arg, env, tr, fuel)
       case ExprFail => ExprFail
       case Value(a, tr1) => if a.None? then ExprFail else Value(Some(ApplyUn(op, a.value)), tr1))
    case CallE(f, args) =>
      (match EvalArgs(p, args, env, tr, fuel)
       case ArgsFail => ExprFail
       case Args(vs, tr1) => if fuel == 0 then ExprFail else CallMethod(p, f, vs, tr1, fuel - 1))
  }

  function EvalArgs(p: Program, es: ExprList, env: Env, tr: Trace, fuel: nat): (r: ArgsResult)
    ensures r.Args? ==> |r.vs| == ListLength(es)
    decreases fuel, 0, es
  {
    match es
    case NoExpr => Args([], tr)
    case ExprCons(e, next) =>
      match EvalExpr(p, e, env, tr, fuel)
      case ExprFail => ArgsFail
      case Value(v, tr1) =>
        match EvalArgs(p, next, env, tr1, fuel)
        case ArgsFail => ArgsFail
        case Args(vs, tr2) => if v.None? then ArgsFail else Args([v.value] + vs, tr2)
  }

  /** A call runs the callee's body on fresh cells that hold only its parameters. A body that ends
      without a return yields no value. */
  function CallMethod(p: Program, f: string, vs: seq<Word>, tr: Trace, fuel: nat): ExprResult
    decreases fuel, 1, SNil
  {
    var tr1 := tr + [Event(f, vs)];
    match Find(p.methods, f)
    case None => ExprFail
    case Some(m) =>
      if |m.params| != |vs| then ExprFail
      else if m.isExtern then Value(p.ext(tr1), tr1)
      else match ExecList(p, m.body, Bind(ParamNames(m.params), vs), tr1, fuel)
        case StmtFail => ExprFail
        case Normal(_, tr2) => Value(None, tr2)
        case Returned(v, tr2) => Value(v, tr2)
  }

  function Exec(p: Program, s: Stmt, env: Env, tr: Trace, fuel: nat): StmtResult
    decreases fuel, 0, s
  {
    match s
    case Assign(x, _, e) =>
      (match EvalExpr(p, e, env, tr, fuel)
       case ExprFail => StmtFail
       case Value(v, tr1) => Normal(Set(env, x, v), tr1))
    case Decl(x, _, init) =>
      if init.None? then Normal(env, tr)
      else (match EvalExpr(p, init.value, env, tr, fuel)
            case ExprFail => StmtFail
            case Value(v, tr1) => Normal(Set(env, x, v), tr1))
    case CallS(f, args) =>
      (match EvalArgs(p, args, env, tr, fuel)
       case ArgsFail => StmtFail
       case Args(vs, tr1) =>
         if fuel == 0 then StmtFail
         else match CallMethod(p, f, vs, tr1, fuel - 1)
           case ExprFail => StmtFail
           case Value(_, tr2) => Normal(env, tr2))
    case Return(val) =>
      if val.None? then Returned(None, tr)
      else (match EvalExpr(p, val.value, env, tr, fuel)
            case ExprFail => StmtFail
            case Value(v, tr1) => Returned(v, tr1))
    case If(cond, thn, els) =>
      (match EvalExpr(p, cond, env, tr, fuel)
       case ExprFail => StmtFail
       case Value(c, tr1) =>
         if c.None? then StmtFail
         else if c.value != 0 then ExecList(p, thn, env, tr1, fuel)
         else ExecList(p, els, env, tr1, fuel))
    case While(cond, body) =>
      (match EvalExpr(p, cond, env, tr, fuel)
       case ExprFail => StmtFail
       case Value(c, tr1) =>
         if c.None? then StmtFail
         else if c.value == 0 then Normal(env, tr1)
         else match ExecList(p, body, env, tr1, fuel)
           case StmtFail => StmtFail
           case Returned(v, tr2) => Returned(v, tr2)
           case Normal(env2, tr2) => if fuel == 0 then StmtFail else Exec(p, s, env2, tr2, fuel - 1))
    case Block(stmts) => ExecList(p, stmts, env, tr, fuel)
  }

  function ExecList(p: Program, ss: StmtList, env: Env, tr: Trace, fuel: nat): StmtResult
    decreases fuel, 0, ss
  {
    match ss
    case SNil => Normal(env, tr)
    case SCons(s, next) =>
      match Exec(p, s, env, tr, fuel)
      case StmtFail => StmtFail
      case Returned(v, tr1) => Returned(v, tr1)
      case Normal(env1, tr1) => ExecList(p, next, env1, tr1, fuel)
  }
}
