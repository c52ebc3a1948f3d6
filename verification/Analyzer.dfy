/** The semantic analyzer: one pass that type-checks the tree and, with optimisation on, rewrites it
    (constant folding, literal branches, dead loops). A rejected program is a failure result. */
module Analyzer {
  import opened Words
  import opened Source

  datatype ExprCheck = Typed(ty: RetType, e: Expr) | BadExpr
  datatype ArgsCheck = TypedArgs(es: ExprList) | BadArgs
  datatype StmtCheck = TypedStmt(s: Stmt) | BadStmt
  datatype ListCheck = TypedList(ss: StmtList) | BadList

  function RetOf(ty: Type): RetType {
    if ty == TInt then RInt else RBool
  }

  /** Operand and result types. Equality compares any two operands of one type, void included. */
  function BinType(op: BinOp, l: RetType, r: RetType): Option<RetType> {
    match op
    case Add | Sub | Mul | Div | Mod => if l == RInt && r == RInt then Some(RInt) else None
    case Les | Grt | Neq | Leq | Geq => if l == RInt && r == RInt then Some(RBool) else None
    case Eq => if l == r then Some(RBool) else None
    case And | Or => if l == RBool && r == RBool then Some(RBool) else None
  }

  /** Folding of two literals in C int arithmetic. The compiler itself traps on a zero divisor and on
      the overflowing quotient. */
  function FoldBin(op: BinOp, a: CInt, b: CInt): Option<Expr> {
    match op
    case Add => Some(IntLit(WrapInt(a + b)))
    case Sub => Some(IntLit(WrapInt(a - b)))
    case Mul => Some(IntLit(WrapInt(a * b)))
    case Div => if b == 0 || (a == -TWO31 && b == -1) then None else Some(IntLit(WrapInt(TruncDiv(a, b))))
    case Mod => if b == 0 || (a == -TWO31 && b == -1) then None else Some(IntLit(WrapInt(TruncMod(a, b))))
    case And => Some(BoolLit(a != 0 && b != 0))
    case Or => Some(BoolLit(a != 0 || b != 0))
    case _ => Some(BoolLit(Compare(op, a, b)))
  }

  function CheckExpr(ms: seq<Method>, e: Expr, opt: bool): ExprCheck
    decreases e
  {
    match e
    case IntLit(_) => Typed(RInt, e)
    case BoolLit(_) => Typed(RBool, e)
    case Id(_, ty, _) => Typed(RetOf(ty), e)
    case Binary(op, l, r) =>
      (match CheckExpr(ms, l, opt)
       case BadExpr => BadExpr
       case Typed(tl, l1) =>
         match CheckExpr(ms, r, opt)
         case BadExpr => BadExpr
         case Typed(tr, r1) =>
           match BinType(op, tl, tr)
           case None => BadExpr
           case Some(ty) =>
             if opt && IsLiteral(l1) && IsLiteral(r1) then
               match FoldBin(op, LiteralValue(l1), LiteralValue(r1))
               case None => BadExpr
               case Some(lit) => Typed(ty, lit)
             else Typed(ty, Binary(op, l1, r1)))
    case Unary(op, arg) =>
      (match CheckExpr(ms, arg, opt)
       case BadExpr => BadExpr
       case Typed(ty, a1) =>
         if ty == (if op == Minus then RInt else RBool) then Typed(ty, Unary(op, a1)) else BadExpr)
    case CallE(f, args) =>
      (match Find(ms, f)
       case None => BadExpr
       case Some(m) =>
         if ListLength(args) != |m.params| then BadExpr
         else match CheckArgs(ms, args, m.params, opt)
           case BadArgs => BadExpr
           case TypedArgs(as1) => Typed(m.ret, CallE(f, as1)))
  }

  function CheckArgs(ms: seq<Method>, es: ExprList, ps: seq<Param>, opt: bool): (r: ArgsCheck)
    requires ListLength(es) == |ps|
    ensures r.TypedArgs? ==> ListLength(r.es) == |ps|
    decreases es
  {
    match es
    case NoExpr => TypedArgs(NoExpr)
    case ExprCons(e, next) =>
      match CheckExpr(ms, e, opt)
      case BadExpr => BadArgs
      case Typed(ty, e1) =>
        if ty != RetOf(ps[0].ty) then BadArgs
        else match CheckArgs(ms, next, ps[1..], opt)
          case BadArgs => BadArgs
          case TypedArgs(next1) => TypedArgs(ExprCons(e1, next1))
  }

  /** ret is the declared return type of the method being checked. */
  function CheckStmt(ms: seq<Method>, s: Stmt, ret: RetType, opt: bool): StmtCheck
    decreases s
  {
    match s
    case Assign(x, ty, e) =>
      (match CheckExpr(ms, e, opt)
       case BadExpr => BadStmt
       case Typed(te, e1) => if te == RetOf(ty) then TypedStmt(Assign(x, ty, e1)) else BadStmt)
    case Decl(x, ty, init) =>
      if init.None? then TypedStmt(s)
      else (match CheckExpr(ms, init.value, opt)
            case BadExpr => BadStmt
            case Typed(te, e1) =>
              // a void initialiser passes
              if te == RetOf(ty) || te == RVoid then TypedStmt(Decl(x, ty, Some(e1))) else BadStmt)
    case CallS(f, args) =>
      (match Find(ms, f)
       case None => BadStmt
       case Some(m) =>
         if ListLength(args) != |m.params| then BadStmt
         else match CheckArgs(ms, args, m.params, opt)
           case BadArgs => BadStmt
           case TypedArgs(as1) => TypedStmt(CallS(f, as1)))
    case Return(val) =>
      if val.None? then (if ret == RVoid then TypedStmt(s) else BadStmt)
      else (match CheckExpr(ms, val.value, opt)
            case BadExpr => BadStmt
            case Typed(te, e1) => if te == ret then TypedStmt(Return(Some(e1))) else BadStmt)
    case If(cond, thn, els) =>
      (match CheckExpr(ms, cond, opt)
       case BadExpr => BadStmt
       case Typed(tc, c1) =>
         if tc != RBool then BadStmt
         else match KeptBranch(c1, els, opt)
           case Both =>
             (match CheckBody(ms, thn, ret, opt)
              case BadList => BadStmt
              case TypedList(thn1) =>
                match CheckList(ms, els, ret, opt)
                case BadList => BadStmt
                case TypedList(els1) => TypedStmt(If(c1, thn1, els1)))
           case Then =>
             (match CheckBody(ms, thn, ret, opt)
              case BadList => BadStmt
              case TypedList(ss) => TypedStmt(Block(ss)))
           case Else =>
             match CheckBody(ms, els, ret, opt)
             case BadList => BadStmt
             case TypedList(ss) => TypedStmt(Block(ss)))
    case While(cond, body) =>
      (match CheckExpr(ms, cond, opt)
       case BadExpr => BadStmt
       case Typed(tc, c1) =>
         if tc != RBool then BadStmt
         else match CheckBody(ms, body, ret, opt)
           case BadList => BadStmt
           case TypedList(body1) =>
             if LoopRemoved(c1, opt) then TypedStmt(Block(SNil)) else TypedStmt(While(c1, body1)))
    case Block(stmts) =>
      match CheckList(ms, stmts, ret, opt)
      case BadList => BadStmt
      case TypedList(ss) => TypedStmt(Block(ss))
  }

  datatype Kept = Both | Then | Else

  /** The guard looks at the union's integer member of any leaf, literal or not. */
  function KeptBranch(cond: Expr, els: StmtList, opt: bool): Kept {
    if opt && LeafBits(cond).Some? then
      if LeafBits(cond).value == 1 then Then else if els != SNil then Else else Both
    else Both
  }

  predicate LoopRemoved(cond: Expr, opt: bool) {
    opt && LeafBits(cond) == Some(0)
  }

  /** A null block is an error. */
  function CheckBody(ms: seq<Method>, ss: StmtList, ret: RetType, opt: bool): ListCheck
    decreases ss, 1
  {
    if ss == SNil then BadList else CheckList(ms, ss, ret, opt)
  }

  function CheckList(ms: seq<Method>, ss: StmtList, ret: RetType, opt: bool): ListCheck
    decreases ss, 0
  {
    match ss
    case SNil => TypedList(SNil)
    case SCons(s, next) =>
      match CheckStmt(ms, s, ret, opt)
      case BadStmt => BadList
      case TypedStmt(s1) =>
        match CheckList(ms, next, ret, opt)
        case BadList => BadList
        case TypedList(next1) => TypedList(SCons(s1, next1))
  }

  function CheckMethod(ms: seq<Method>, m: Method, opt: bool): Option<Method> {
    if m.isExtern then Some(m)
    else match CheckBody(ms, m.body, m.ret, opt)
      case BadList => None
      case TypedList(ss) => Some(m.(body := ss))
  }

  function CheckMethods(ms: seq<Method>, todo: seq<Method>, opt: bool): (r: Option<seq<Method>>)
    ensures r.Some? ==> |r.value| == |todo|
  {
    if todo == [] then Some([])
    else match CheckMethod(ms, todo[0], opt)
      case None => None
      case Some(m) =>
        match CheckMethods(ms, todo[1..], opt)
        case None => None
        case Some(rest) => Some([m] + rest)
  }

  /** The whole analysis: the tree the later passes see, or a rejection. */
  function Analyze(p: Program, opt: bool): Option<Program> {
    match CheckMethods(p.methods, p.methods, opt)
    case None => None
    case Some(ms) => if Find(p.methods, "main").None? then None else Some(p.(methods := ms))
  }
}
