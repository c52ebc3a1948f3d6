/** Which programs are well typed and what a program reduces to, told without the analyzer. The analyzer
    accepts exactly the well typed programs with a main method and hands on exactly what they reduce to;
    optimising, it also rejects a fold that traps, and does not look at a branch that it drops. */
module AnalyzerExact {
  import opened Words
  import opened Source
  import opened Analyzer
  import opened AnalyzerCorrect

  // ----- the type rules -----

  /** Operands of types l and r give type t. Equality compares any two operands of one type. */
  predicate Rule(op: BinOp, l: RetType, r: RetType, t: RetType) {
    || (op in {Add, Sub, Mul, Div, Mod} && l == RInt && r == RInt && t == RInt)
    || (op in {Les, Grt, Neq, Leq, Geq} && l == RInt && r == RInt && t == RBool)
    || (op in {And, Or} && l == RBool && r == RBool && t == RBool)
    || (op == Eq && l == r && t == RBool)
  }

  ghost predicate HasType(ms: seq<Method>, e: Expr, t: RetType)
    decreases e
  {
    match e
    case IntLit(_) => t == RInt
    case BoolLit(_) => t == RBool
    case Id(_, ty, _) => (ty == TInt && t == RInt) || (ty == TBool && t == RBool)
    case Binary(op, l, r) => exists tl, tr :: HasType(ms, l, tl) && HasType(ms, r, tr) && Rule(op, tl, tr, t)
    case Unary(Minus, a) => t == RInt && HasType(ms, a, RInt)
    case Unary(Neg, a) => t == RBool && HasType(ms, a, RBool)
    case CallE(f, args) =>
      Find(ms, f).Some? && t == Find(ms, f).value.ret && ArgsHaveTypes(ms, args, Find(ms, f).value.params)
  }

  /** As many arguments as parameters, each of its parameter's type. */
  ghost predicate ArgsHaveTypes(ms: seq<Method>, es: ExprList, ps: seq<Param>)
    decreases es
  {
    match es
    case NoExpr => ps == []
    case ExprCons(e, next) => ps != [] && HasType(ms, e, RetOf(ps[0].ty)) && ArgsHaveTypes(ms, next, ps[1..])
  }

  // ----- constants -----

  /** The pairs on which a C division of two ints has no result. */
  predicate Traps(op: BinOp, a: CInt, b: CInt) {
    (op == Div || op == Mod) && (b == 0 || (a == -TWO31 && b == -1))
  }

  /** What a tree of binary operators over literals comes to: at each node the run-time result, cut to a
      C int. */
  function ConstValue(e: Expr): Option<CInt>
    decreases e
  {
    match e
    case IntLit(n) => Some(n)
    case BoolLit(b) => Some(if b then 1 else 0)
    case Binary(op, l, r) =>
      (match ConstValue(l)
       case None => None
       case Some(a) =>
         match ConstValue(r)
         case None => None
         case Some(b) =>
           if Traps(op, a, b) || Apply(op, a, b).None? then None else Some(WrapInt(Apply(op, a, b).value)))
    case _ => None
  }

  /** No division of two constants in e traps. */
  predicate NoTrap(e: Expr)
    decreases e
  {
    match e
    case Binary(op, l, r) =>
      && NoTrap(l) && NoTrap(r)
      && (ConstValue(l).Some? && ConstValue(r).Some? ==> !Traps(op, ConstValue(l).value, ConstValue(r).value))
    case Unary(_, a) => NoTrap(a)
    case CallE(_, args) => ArgsNoTrap(args)
    case _ => true
  }

  predicate ArgsNoTrap(es: ExprList)
    decreases es
  {
    match es
    case NoExpr => true
    case ExprCons(e, next) => NoTrap(e) && ArgsNoTrap(next)
  }

  // ----- statements -----

  /** What the guards of the optimising pass read from a condition: a constant's value, or the bits of an
      identifier's leaf. */
  function GuardValue(c: Expr): Option<CInt> {
    if c.Id? then Some(c.bits) else ConstValue(c)
  }

  /** The branches that the optimising pass does not look at. */
  predicate ThenSkipped(c: Expr, els: StmtList, opt: bool) {
    opt && GuardValue(c).Some? && GuardValue(c).value != 1 && els != SNil
  }

  predicate ElseSkipped(c: Expr, opt: bool) {
    opt && GuardValue(c) == Some(1)
  }

  /** ret is the declared return type. A void initialiser passes; a null branch or body does not, except
      as an else. */
  ghost predicate StmtOk(ms: seq<Method>, s: Stmt, ret: RetType, opt: bool)
    decreases s
  {
    match s
    case Assign(_, ty, e) => HasType(ms, e, RetOf(ty))
    case Decl(_, ty, init) => init.Some? ==> HasType(ms, init.value, RetOf(ty)) || HasType(ms, init.value, RVoid)
    case CallS(f, args) => Find(ms, f).Some? && ArgsHaveTypes(ms, args, Find(ms, f).value.params)
    case Return(val) => if val.Some? then HasType(ms, val.value, ret) else ret == RVoid
    case If(c, thn, els) =>
      && HasType(ms, c, RBool)
      && (ThenSkipped(c, els, opt) || (thn != SNil && ListOk(ms, thn, ret, opt)))
      && (ElseSkipped(c, opt) || ListOk(ms, els, ret, opt))
    case While(c, body) => HasType(ms, c, RBool) && body != SNil && ListOk(ms, body, ret, opt)
    case Block(ss) => ListOk(ms, ss, ret, opt)
  }

  ghost predicate ListOk(ms: seq<Method>, ss: StmtList, ret: RetType, opt: bool)
    decreases ss
  {
    match ss
    case SNil => true
    case SCons(s, next) => StmtOk(ms, s, ret, opt) && ListOk(ms, next, ret, opt)
  }

  /** No fold of the optimising pass traps. */
  predicate StmtNoTrap(s: Stmt)
    decreases s
  {
    match s
    case Assign(_, _, e) => NoTrap(e)
    case Decl(_, _, init) => init.Some? ==> NoTrap(init.value)
    case CallS(_, args) => ArgsNoTrap(args)
    case Return(val) => val.Some? ==> NoTrap(val.value)
    case If(c, thn, els) =>
      && NoTrap(c)
      && (ThenSkipped(c, els, true) || ListNoTrap(thn))
      && (ElseSkipped(c, true) || ListNoTrap(els))
    case While(c, body) => NoTrap(c) && ListNoTrap(body)
    case Block(ss) => ListNoTrap(ss)
  }

  predicate ListNoTrap(ss: StmtList)
    decreases ss
  {
    match ss
    case SNil => true
    case SCons(s, next) => StmtNoTrap(s) && ListNoTrap(next)
  }

  ghost predicate ProgramOk(p: Program, opt: bool) {
    && (exists m :: m in p.methods && m.name == "main")
    && (forall m :: m in p.methods && !m.isExtern ==> m.body != SNil && ListOk(p.methods, m.body, m.ret, opt))
  }

  predicate ProgramNoTrap(p: Program) {
    forall m :: m in p.methods && !m.isExtern ==> ListNoTrap(m.body)
  }

  // ----- what the optimising pass makes of a program -----

  /** Every constant tree becomes its value. */
  function Reduced(e: Expr): Expr
    decreases e
  {
    match e
    case Binary(op, l, r) =>
      if ConstValue(e).None? then Binary(op, Reduced(l), Reduced(r))
      else if op in {Add, Sub, Mul, Div, Mod} then IntLit(ConstValue(e).value)
      else BoolLit(ConstValue(e).value != 0)
    case Unary(op, a) => Unary(op, Reduced(a))
    case CallE(f, args) => CallE(f, ArgsReduced(args))
    case _ => e
  }

  function ArgsReduced(es: ExprList): ExprList
    decreases es
  {
    match es
    case NoExpr => NoExpr
    case ExprCons(e, next) => ExprCons(Reduced(e), ArgsReduced(next))
  }

  /** An if-statement with a skipped branch becomes the other one, a loop on 0 an empty block. */
  function StmtReduced(s: Stmt): Stmt
    decreases s
  {
    match s
    case Assign(x, ty, e) => Assign(x, ty, Reduced(e))
    case Decl(x, ty, init) => Decl(x, ty, if init.None? then None else Some(Reduced(init.value)))
    case CallS(f, args) => CallS(f, ArgsReduced(args))
    case Return(val) => Return(if val.None? then None else Some(Reduced(val.value)))
    case If(c, thn, els) =>
      if ElseSkipped(c, true) then Block(ListReduced(thn))
      else if ThenSkipped(c, els, true) then Block(ListReduced(els))
      else If(Reduced(c), ListReduced(thn), ListReduced(els))
    case While(c, body) =>
      if GuardValue(c) == Some(0) then Block(SNil) else While(Reduced(c), ListReduced(body))
    case Block(ss) => Block(ListReduced(ss))
  }

  function ListReduced(ss: StmtList): StmtList
    decreases ss
  {
    match ss
    case SNil => SNil
    case SCons(s, next) => SCons(StmtReduced(s), ListReduced(next))
  }

  function MethodReduced(m: Method): Method {
    if m.isExtern then m else m.(body := ListReduced(m.body))
  }

  /** What the analyzer hands on. */
  function ProgramReduced(p: Program, opt: bool): Program {
    if opt then p.(methods := seq(|p.methods|, i requires 0 <= i < |p.methods| => MethodReduced(p.methods[i])))
    else p
  }

  // ----- expressions are accepted exactly when typed -----

  /** In 64 bits no operator but the trapping divisions leaves the words on C ints. */
  lemma {:induction false} AppliedToInts(op: BinOp, a: CInt, b: CInt)
    requires !Traps(op, a, b)
    ensures Apply(op, a, b) ==
            match op
            case Add => Some(a + b)
            case Sub => Some(a - b)
            case Mul => Some((ProductFits(a, b); a * b))
            case Div => Some((FoldedQuotient(a, b); TruncDiv(a, b)))
            case Mod => Some((FoldedQuotient(a, b); TruncMod(a, b)))
            case And => Some(BoolWord(a != 0 && b != 0))
            case Or => Some(BoolWord(a != 0 || b != 0))
            case _ => Some(BoolWord(Compare(op, a, b)))
  {
    hide Compare, TruncDiv, TruncMod;
    if op == Mul {
      ProductFits(a, b);
    }
  }

  lemma {:induction false} FoldedValue(op: BinOp, a: CInt, b: CInt)
    ensures FoldBin(op, a, b).None? <==> Traps(op, a, b)
    ensures FoldBin(op, a, b).Some? ==>
              && Apply(op, a, b).Some?
              && var v := WrapInt(Apply(op, a, b).value);
                 && FoldBin(op, a, b).value == (if op in {Add, Sub, Mul, Div, Mod} then IntLit(v) else BoolLit(v != 0))
                 && LiteralValue(FoldBin(op, a, b).value) == v
  {
    hide Apply, Compare, TruncDiv, TruncMod, WrapInt;
    WrapIntExact(0);
    WrapIntExact(1);
    if !Traps(op, a, b) {
      AppliedToInts(op, a, b);
    }
  }

  /** A checked expression is a literal exactly when the expression is constant, and has its value. */
  lemma {:induction false} ConstantsFold(ms: seq<Method>, e: Expr)
    requires CheckExpr(ms, e, true).Typed?
    ensures var e1 := CheckExpr(ms, e, true).e;
            && (IsLiteral(e1) <==> ConstValue(e).Some?)
            && (IsLiteral(e1) ==> LiteralValue(e1) == ConstValue(e).value)
            && LeafBits(e1) == GuardValue(e)
    decreases e
  {
    hide Apply, FoldBin, WrapInt, Traps;
    if e.Binary? {
      ConstantsFold(ms, e.left);
      ConstantsFold(ms, e.right);
      var l1, r1 := CheckExpr(ms, e.left, true).e, CheckExpr(ms, e.right, true).e;
      if IsLiteral(l1) && IsLiteral(r1) {
        FoldedValue(e.op, LiteralValue(l1), LiteralValue(r1));
      }
    }
  }

  lemma RuleIsBinType(op: BinOp, l: RetType, r: RetType, t: RetType)
    ensures BinType(op, l, r) == Some(t) <==> Rule(op, l, r, t)
  {
  }

  /** An expression is accepted with type t exactly when it has type t and, optimising, no fold in it
      traps; otherwise it is left as it is. */
  lemma {:induction false} ExprAccepted(ms: seq<Method>, e: Expr, opt: bool, t: RetType)
    ensures (CheckExpr(ms, e, opt).Typed? && CheckExpr(ms, e, opt).ty == t)
            <==> HasType(ms, e, t) && (opt ==> NoTrap(e))
    ensures !opt && CheckExpr(ms, e, opt).Typed? ==> CheckExpr(ms, e, opt).e == e
    decreases e, 1
  {
    hide FoldBin, BinType, Rule, Traps;
    match e
    case Binary(op, l, r) => BinaryAccepted(ms, op, l, r, opt, t);
    case Unary(op, a) => ExprAccepted(ms, a, opt, if op == Minus then RInt else RBool);
    case CallE(f, args) =>
      if Find(ms, f).Some? {
        ArgsAccepted(ms, args, Find(ms, f).value.params, opt);
      }
    case _ =>
  }

  lemma {:induction false} BinaryAccepted(ms: seq<Method>, op: BinOp, l: Expr, r: Expr, opt: bool, t: RetType)
    ensures var e := Binary(op, l, r);
            && ((CheckExpr(ms, e, opt).Typed? && CheckExpr(ms, e, opt).ty == t)
                <==> HasType(ms, e, t) && (opt ==> NoTrap(e)))
            && (!opt && CheckExpr(ms, e, opt).Typed? ==> CheckExpr(ms, e, opt).e == e)
    decreases Binary(op, l, r), 0
  {
    hide FoldBin, BinType, Rule, Traps, CheckArgs, ArgsHaveTypes, ArgsNoTrap, LeafBits, GuardValue, ConstValue;
    var e := Binary(op, l, r);
    forall tl
      ensures (CheckExpr(ms, l, opt).Typed? && CheckExpr(ms, l, opt).ty == tl)
              <==> HasType(ms, l, tl) && (opt ==> NoTrap(l))
      ensures (CheckExpr(ms, r, opt).Typed? && CheckExpr(ms, r, opt).ty == tl)
              <==> HasType(ms, r, tl) && (opt ==> NoTrap(r))
    {
      ExprAccepted(ms, l, opt, tl);
      ExprAccepted(ms, r, opt, tl);
    }
    var cl, cr := CheckExpr(ms, l, opt), CheckExpr(ms, r, opt);
    if cl.Typed? && cr.Typed? {
      RuleIsBinType(op, cl.ty, cr.ty, t);
      ExprAccepted(ms, l, opt, cl.ty);
      ExprAccepted(ms, r, opt, cr.ty);
      if opt {
        ConstantsFold(ms, l);
        ConstantsFold(ms, r);
        if IsLiteral(cl.e) && IsLiteral(cr.e) {
          FoldedValue(op, LiteralValue(cl.e), LiteralValue(cr.e));
        }
      }
    }
  }

  lemma {:induction false} ArgsAccepted(ms: seq<Method>, es: ExprList, ps: seq<Param>, opt: bool)
    ensures ListLength(es) == |ps| && CheckArgs(ms, es, ps, opt).TypedArgs?
            <==> ArgsHaveTypes(ms, es, ps) && (opt ==> ArgsNoTrap(es))
    ensures !opt && ListLength(es) == |ps| && CheckArgs(ms, es, ps, opt).TypedArgs? ==>
              CheckArgs(ms, es, ps, opt).es == es
    decreases es
  {
    hide CheckExpr, HasType, NoTrap;
    match es
    case NoExpr =>
    case ExprCons(e, next) =>
      if ps != [] {
        ExprAccepted(ms, e, opt, RetOf(ps[0].ty));
        ArgsAccepted(ms, next, ps[1..], opt);
      }
  }

  // ----- statements and programs -----

  lemma {:induction false} StmtAccepted(ms: seq<Method>, s: Stmt, ret: RetType, opt: bool)
    ensures CheckStmt(ms, s, ret, opt).TypedStmt? <==> StmtOk(ms, s, ret, opt) && (opt ==> StmtNoTrap(s))
    ensures !opt && CheckStmt(ms, s, ret, opt).TypedStmt? ==> CheckStmt(ms, s, ret, opt).s == s
    decreases s
  {
    hide CheckExpr, CheckArgs, CheckList, HasType, ArgsHaveTypes, ListOk, NoTrap, ArgsNoTrap, ListNoTrap, GuardValue;
    match s
    case Assign(_, ty, e) => ExprAccepted(ms, e, opt, RetOf(ty));
    case Decl(_, ty, init) =>
      if init.Some? {
        ExprAccepted(ms, init.value, opt, RetOf(ty));
        ExprAccepted(ms, init.value, opt, RVoid);
      }
    case CallS(f, args) =>
      if Find(ms, f).Some? {
        ArgsAccepted(ms, args, Find(ms, f).value.params, opt);
      }
    case Return(val) =>
      if val.Some? {
        ExprAccepted(ms, val.value, opt, ret);
      }
    case If(c, thn, els) =>
      ExprAccepted(ms, c, opt, RBool);
      ListAccepted(ms, thn, ret, opt);
      ListAccepted(ms, els, ret, opt);
      if CheckExpr(ms, c, opt).Typed? {
        GuardRead(ms, c, els, opt);
      }
    case While(c, body) =>
      ExprAccepted(ms, c, opt, RBool);
      ListAccepted(ms, body, ret, opt);
    case Block(ss) => ListAccepted(ms, ss, ret, opt);
  }

  /** The guard on the checked condition, told from the condition. */
  lemma {:induction false} GuardRead(ms: seq<Method>, c: Expr, els: StmtList, opt: bool)
    requires CheckExpr(ms, c, opt).Typed?
    ensures var c1 := CheckExpr(ms, c, opt).e;
            && (KeptBranch(c1, els, opt) == Then <==> ElseSkipped(c, opt))
            && (KeptBranch(c1, els, opt) == Else <==> ThenSkipped(c, els, opt))
            && (LoopRemoved(c1, opt) <==> opt && GuardValue(c) == Some(0))
  {
    hide CheckExpr, GuardValue;
    if opt {
      ConstantsFold(ms, c);
    }
  }

  lemma {:induction false} ListAccepted(ms: seq<Method>, ss: StmtList, ret: RetType, opt: bool)
    ensures CheckList(ms, ss, ret, opt).TypedList? <==> ListOk(ms, ss, ret, opt) && (opt ==> ListNoTrap(ss))
    ensures !opt && CheckList(ms, ss, ret, opt).TypedList? ==> CheckList(ms, ss, ret, opt).ss == ss
    decreases ss
  {
    hide CheckStmt, StmtOk, StmtNoTrap;
    match ss
    case SNil =>
    case SCons(s, next) =>
      StmtAccepted(ms, s, ret, opt);
      ListAccepted(ms, next, ret, opt);
  }

  lemma {:induction false} MethodsAccepted(ms: seq<Method>, todo: seq<Method>, opt: bool)
    ensures CheckMethods(ms, todo, opt).Some? <==>
              forall m :: m in todo && !m.isExtern ==>
                m.body != SNil && ListOk(ms, m.body, m.ret, opt) && (opt ==> ListNoTrap(m.body))
    ensures !opt && CheckMethods(ms, todo, opt).Some? ==> CheckMethods(ms, todo, opt).value == todo
    decreases |todo|
  {
    hide CheckList, ListOk, ListNoTrap;
    if todo != [] {
      ListAccepted(ms, todo[0].body, todo[0].ret, opt);
      MethodsAccepted(ms, todo[1..], opt);
      assert todo == [todo[0]] + todo[1..];
    }
  }

  // ----- what comes out -----

  /** A checked expression is the reduced one. */
  lemma {:induction false} ExprReduces(ms: seq<Method>, e: Expr)
    requires CheckExpr(ms, e, true).Typed?
    ensures CheckExpr(ms, e, true).e == Reduced(e)
    decreases e
  {
    hide Apply, FoldBin, WrapInt, Traps, BinType;
    match e
    case Binary(op, l, r) =>
      ExprReduces(ms, l);
      ExprReduces(ms, r);
      ConstantsFold(ms, e);
      ConstantsFold(ms, l);
      ConstantsFold(ms, r);
      var l1, r1 := CheckExpr(ms, l, true).e, CheckExpr(ms, r, true).e;
      if IsLiteral(l1) && IsLiteral(r1) {
        FoldedValue(op, LiteralValue(l1), LiteralValue(r1));
      }
    case Unary(_, a) => ExprReduces(ms, a);
    case CallE(f, args) => ArgsReduce(ms, args, Find(ms, f).value.params);
    case _ =>
  }

  lemma {:induction false} ArgsReduce(ms: seq<Method>, es: ExprList, ps: seq<Param>)
    requires ListLength(es) == |ps| && CheckArgs(ms, es, ps, true).TypedArgs?
    ensures CheckArgs(ms, es, ps, true).es == ArgsReduced(es)
    decreases es
  {
    hide CheckExpr, Reduced;
    match es
    case NoExpr =>
    case ExprCons(e, next) =>
      ExprReduces(ms, e);
      ArgsReduce(ms, next, ps[1..]);
  }

  /** A checked statement is the reduced one. */
  lemma {:induction false} StmtReduces(ms: seq<Method>, s: Stmt, ret: RetType)
    requires CheckStmt(ms, s, ret, true).TypedStmt?
    ensures CheckStmt(ms, s, ret, true).s == StmtReduced(s)
    decreases s
  {
    hide CheckExpr, CheckArgs, CheckList, Reduced, ArgsReduced, ListReduced, GuardValue, KeptBranch, ThenSkipped,
         ElseSkipped, LoopRemoved;
    match s
    case Assign(_, _, e) => ExprReduces(ms, e);
    case Decl(_, _, init) =>
      if init.Some? {
        ExprReduces(ms, init.value);
      }
    case CallS(f, args) => ArgsReduce(ms, args, Find(ms, f).value.params);
    case Return(val) =>
      if val.Some? {
        ExprReduces(ms, val.value);
      }
    case If(c, thn, els) =>
      ExprReduces(ms, c);
      GuardRead(ms, c, els, true);
      if CheckList(ms, thn, ret, true).TypedList? {
        ListReduces(ms, thn, ret);
      }
      if CheckList(ms, els, ret, true).TypedList? {
        ListReduces(ms, els, ret);
      }
    case While(c, body) =>
      ExprReduces(ms, c);
      GuardRead(ms, c, body, true);
      ListReduces(ms, body, ret);
    case Block(ss) => ListReduces(ms, ss, ret);
  }

  /** An accepted if-statement on a constant becomes the block of the branch the constant selects; one on
      false without an else stays. */
  lemma {:induction false} ConstantIf(ms: seq<Method>, c: Expr, thn: StmtList, els: StmtList, ret: RetType)
    requires CheckStmt(ms, If(c, thn, els), ret, true).TypedStmt? && ConstValue(c).Some?
    ensures CheckStmt(ms, If(c, thn, els), ret, true).s ==
            if ConstValue(c).value != 0 then Block(ListReduced(thn))
            else if els != SNil then Block(ListReduced(els))
            else If(BoolLit(false), ListReduced(thn), SNil)
  {
    ConstantCondition(ms, c);
    StmtReduces(ms, If(c, thn, els), ret);
  }

  /** An accepted loop on false becomes an empty block, one on true stays. */
  lemma {:induction false} ConstantWhile(ms: seq<Method>, c: Expr, body: StmtList, ret: RetType)
    requires CheckStmt(ms, While(c, body), ret, true).TypedStmt? && ConstValue(c).Some?
    ensures CheckStmt(ms, While(c, body), ret, true).s ==
            if ConstValue(c).value != 0 then While(BoolLit(true), ListReduced(body)) else Block(SNil)
  {
    ConstantCondition(ms, c);
    StmtReduces(ms, While(c, body), ret);
  }

  lemma {:induction false} ConstantCondition(ms: seq<Method>, c: Expr)
    requires CheckExpr(ms, c, true).Typed? && CheckExpr(ms, c, true).ty == RBool && ConstValue(c).Some?
    ensures IsBool(ConstValue(c).value) && Reduced(c) == BoolLit(ConstValue(c).value != 0)
  {
    ConstantsFold(ms, c);
    ExprReduces(ms, c);
    ExprRechecks(ms, ms, c, true);
  }

  lemma {:induction false} ListReduces(ms: seq<Method>, ss: StmtList, ret: RetType)
    requires CheckList(ms, ss, ret, true).TypedList?
    ensures CheckList(ms, ss, ret, true).ss == ListReduced(ss)
    decreases ss
  {
    hide CheckStmt, StmtReduced;
    match ss
    case SNil =>
    case SCons(s, next) =>
      StmtReduces(ms, s, ret);
      ListReduces(ms, next, ret);
  }

  lemma {:induction false} MethodsReduce(ms: seq<Method>, todo: seq<Method>)
    requires CheckMethods(ms, todo, true).Some?
    ensures forall i :: 0 <= i < |todo| ==> CheckMethods(ms, todo, true).value[i] == MethodReduced(todo[i])
    decreases |todo|
  {
    hide CheckList, ListReduced;
    if todo != [] {
      if !todo[0].isExtern {
        ListReduces(ms, todo[0].body, todo[0].ret);
      }
      MethodsReduce(ms, todo[1..]);
    }
  }

  /** The analyzer accepts exactly the well typed programs that have a main method, except that optimising
      no fold may trap either, and hands on what they reduce to. */
  lemma {:induction false} AcceptedExactly(p: Program, opt: bool)
    ensures Analyze(p, opt).Some? <==> ProgramOk(p, opt) && (opt ==> ProgramNoTrap(p))
    ensures Analyze(p, opt).Some? ==> Analyze(p, opt).value == ProgramReduced(p, opt)
  {
    hide CheckMethods, ListOk, ListNoTrap, MethodReduced;
    MethodsAccepted(p.methods, p.methods, opt);
    if opt && Analyze(p, opt).Some? {
      MethodsReduce(p.methods, p.methods);
      assert Analyze(p, opt).value.methods == ProgramReduced(p, opt).methods;
    }
  }

  // ----- the two modes -----

  lemma {:induction false} StmtOkOptimised(ms: seq<Method>, s: Stmt, ret: RetType)
    requires StmtOk(ms, s, ret, false)
    ensures StmtOk(ms, s, ret, true)
    decreases s
  {
    hide HasType, ArgsHaveTypes, ListOk, GuardValue;
    match s
    case If(_, thn, els) =>
      ListOkOptimised(ms, thn, ret);
      ListOkOptimised(ms, els, ret);
    case While(_, body) => ListOkOptimised(ms, body, ret);
    case Block(ss) => ListOkOptimised(ms, ss, ret);
    case _ =>
  }

  lemma {:induction false} ListOkOptimised(ms: seq<Method>, ss: StmtList, ret: RetType)
    requires ListOk(ms, ss, ret, false)
    ensures ListOk(ms, ss, ret, true)
    decreases ss
  {
    hide StmtOk;
    match ss
    case SNil =>
    case SCons(s, next) =>
      StmtOkOptimised(ms, s, ret);
      ListOkOptimised(ms, next, ret);
  }

  /** Of the programs accepted without optimisation, optimising accepts exactly those in which no fold
      traps. */
  lemma {:induction false} AcceptedInBothModes(p: Program)
    requires Analyze(p, false).Some?
    ensures Analyze(p, true).Some? <==> ProgramNoTrap(p)
  {
    hide Analyze, ListOk, ListNoTrap;
    AcceptedExactly(p, false);
    AcceptedExactly(p, true);
    forall m | m in p.methods && !m.isExtern
      ensures ListOk(p.methods, m.body, m.ret, true)
    {
      ListOkOptimised(p.methods, m.body, m.ret);
    }
  }
}
