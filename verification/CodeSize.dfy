/** How many instructions a program is translated to, by a recursion over the tree; optimising never makes
    it longer. */
module CodeSize {
  import opened Source
  import opened AnalyzerExact
  import opened IrGen

  // ----- the size of a tree -----

  function ExprSize(e: Expr, quiet: bool, opt: bool): nat
    decreases e
  {
    match e
    case IntLit(_) => 1
    case BoolLit(_) => 1
    case Id(_, _, _) => if quiet then 0 else 1
    case Binary(op, l, r) =>
      ExprSize(l, false, opt) + (if ShiftFor(op, r, opt).Some? then 0 else ExprSize(r, false, opt)) + 1
    case Unary(_, a) => ExprSize(a, false, opt) + 1
    case CallE(_, args) => ArgsSize(args, opt) + ListLength(args) + 1
  }

  function ArgsSize(es: ExprList, opt: bool): nat
    decreases es
  {
    match es
    case NoExpr => 0
    case ExprCons(e, next) => ExprSize(e, false, opt) + ArgsSize(next, opt)
  }

  /** An if-statement adds two jumps and two labels, a loop too. */
  function StmtSize(s: Stmt, opt: bool): nat
    decreases s
  {
    match s
    case Assign(_, _, e) => if opt && IsLiteral(e) then 1 else ExprSize(e, true, opt) + 1
    case Decl(_, _, init) => if init.None? then 0 else ExprSize(init.value, true, opt) + 1
    case CallS(_, args) => ArgsSize(args, opt) + ListLength(args) + 1
    case Return(val) => if val.None? then 1 else ExprSize(val.value, false, opt) + 1
    case If(c, thn, els) => ExprSize(c, false, opt) + ListSize(thn, opt) + ListSize(els, opt) + 4
    case While(c, body) => ExprSize(c, false, opt) + ListSize(body, opt) + 4
    case Block(ss) => ListSize(ss, opt)
  }

  function ListSize(ss: StmtList, opt: bool): nat
    decreases ss
  {
    match ss
    case SNil => 0
    case SCons(s, next) => StmtSize(s, opt) + (if opt && s.Return? then 0 else ListSize(next, opt))
  }

  function MethodSize(m: Method, opt: bool): nat {
    if m.isExtern then 1 else ListSize(m.body, opt) + 2
  }

  function MethodsSize(ms: seq<Method>, opt: bool): nat {
    if ms == [] then 0 else MethodsSize(ms[..|ms| - 1], opt) + MethodSize(ms[|ms| - 1], opt)
  }

  // ----- the code has that size -----

  lemma {:induction false} BinaryCode(op: BinOp, l: Expr, r: Expr, quiet: bool, t: nat, opt: bool)
    ensures var gl := GenExpr(l, false, t, opt);
            var gr := GenExpr(r, false, gl.t, opt);
            |GenExpr(Binary(op, l, r), quiet, t, opt).code|
            == |gl.code| + (if ShiftFor(op, r, opt).Some? then 0 else |gr.code|) + 1
  {
    hide ShiftFor;
  }

  lemma {:induction false} ExprCodeSize(e: Expr, quiet: bool, t: nat, opt: bool)
    ensures |GenExpr(e, quiet, t, opt).code| == ExprSize(e, quiet, opt)
    decreases e
  {
    hide ShiftFor, GenArgs, ArgsSize, Params;
    match e
    case Binary(op, l, r) =>
      ExprCodeSize(l, false, t, opt);
      ExprCodeSize(r, false, GenExpr(l, false, t, opt).t, opt);
      BinaryCode(op, l, r, quiet, t, opt);
      hide GenExpr;
    case Unary(_, a) =>
      ExprCodeSize(a, false, t, opt);
    case CallE(_, args) =>
      ArgsCodeSize(args, t, opt);
    case _ =>
  }

  lemma {:induction false} ArgsCodeSize(es: ExprList, t: nat, opt: bool)
    ensures |GenArgs(es, t, opt).code| == ArgsSize(es, opt)
    decreases es
  {
    hide GenExpr, ExprSize;
    match es
    case NoExpr =>
    case ExprCons(e, next) =>
      ExprCodeSize(e, false, t, opt);
      ArgsCodeSize(next, GenExpr(e, false, t, opt).t, opt);
  }

  lemma {:induction false} StmtCodeSize(s: Stmt, t: nat, l: nat, opt: bool)
    ensures |GenStmt(s, t, l, opt).code| == StmtSize(s, opt)
    decreases s
  {
    hide GenExpr, GenArgs, GenList, ExprSize, ArgsSize, ListSize;
    match s
    case Assign(_, _, e) => ExprCodeSize(e, true, t, opt);
    case Decl(_, _, init) =>
      if init.Some? {
        ExprCodeSize(init.value, true, t, opt);
      }
    case CallS(_, args) => ArgsCodeSize(args, t, opt);
    case Return(val) =>
      if val.Some? {
        ExprCodeSize(val.value, false, t, opt);
      }
    case If(cond, thn, els) =>
      ExprCodeSize(cond, false, t, opt);
      var c := GenExpr(cond, false, t, opt);
      ListCodeSize(thn, c.t, l + 2, opt);
      var g := GenList(thn, c.t, l + 2, opt);
      ListCodeSize(els, g.t, g.l, opt);
    case While(cond, body) =>
      ExprCodeSize(cond, false, t, opt);
      ListCodeSize(body, GenExpr(cond, false, t, opt).t, l + 2, opt);
    case Block(ss) => ListCodeSize(ss, t, l, opt);
  }

  lemma {:induction false} ListCodeSize(ss: StmtList, t: nat, l: nat, opt: bool)
    ensures |GenList(ss, t, l, opt).code| == ListSize(ss, opt)
    decreases ss
  {
    hide GenStmt, StmtSize;
    match ss
    case SNil =>
    case SCons(s, next) =>
      StmtCodeSize(s, t, l, opt);
      var g := GenStmt(s, t, l, opt);
      ListCodeSize(next, g.t, g.l, opt);
  }

  /** A program takes exactly as many instructions as its size. */
  lemma {:induction false} ProgramCodeSize(ms: seq<Method>, opt: bool)
    ensures |GenMethods(ms, 0, 0, opt).code| == MethodsSize(ms, opt)
    decreases |ms|
  {
    hide GenList, ListSize;
    if ms != [] {
      var ms0, m := ms[..|ms| - 1], ms[|ms| - 1];
      ProgramCodeSize(ms0, opt);
      var g := GenMethods(ms0, 0, 0, opt);
      ListCodeSize(m.body, g.t, g.l, opt);
    }
  }

  // ----- optimising does not lengthen it -----

  lemma {:induction false} ReducedNotLonger(e: Expr, quiet: bool)
    ensures ExprSize(Reduced(e), quiet, true) <= ExprSize(e, quiet, false)
    decreases e
  {
    hide ShiftFor, Reduced, ArgsSize, ArgsReduced;
    ReducedForm(e);
    match e
    case Binary(op, l, r) =>
      ReducedNotLonger(l, false);
      ReducedNotLonger(r, false);
      NoShift(op, r);
    case Unary(_, a) => ReducedNotLonger(a, false);
    case CallE(_, args) => ArgsNotLonger(args);
    case _ =>
  }

  lemma {:induction false} ReducedForm(e: Expr)
    ensures match e
            case Binary(op, l, r) => IsLiteral(Reduced(e)) || Reduced(e) == Binary(op, Reduced(l), Reduced(r))
            case Unary(op, a) => Reduced(e) == Unary(op, Reduced(a))
            case CallE(f, args) => Reduced(e) == CallE(f, ArgsReduced(args))
            case _ => Reduced(e) == e
  {
    hide ConstValue, ArgsReduced;
  }

  lemma NoShift(op: BinOp, r: Expr)
    ensures ShiftFor(op, r, false).None?
  {
  }

  lemma {:induction false} ArgsNotLonger(es: ExprList)
    ensures ArgsSize(ArgsReduced(es), true) <= ArgsSize(es, false) && ListLength(ArgsReduced(es)) == ListLength(es)
    decreases es
  {
    hide ExprSize, Reduced;
    match es
    case NoExpr =>
    case ExprCons(e, next) =>
      ReducedNotLonger(e, false);
      ArgsNotLonger(next);
  }

  lemma {:induction false} StmtNotLonger(s: Stmt)
    ensures StmtSize(StmtReduced(s), true) <= StmtSize(s, false)
    decreases s
  {
    hide ExprSize, ArgsSize, ListSize, Reduced, ArgsReduced, ListReduced, ThenSkipped, ElseSkipped, GuardValue;
    match s
    case Assign(_, _, e) => ReducedNotLonger(e, true);
    case Decl(_, _, init) =>
      if init.Some? {
        ReducedNotLonger(init.value, true);
      }
    case CallS(_, args) => ArgsNotLonger(args);
    case Return(val) =>
      if val.Some? {
        ReducedNotLonger(val.value, false);
      }
    case If(c, thn, els) =>
      ReducedNotLonger(c, false);
      ListNotLonger(thn);
      ListNotLonger(els);
    case While(c, body) =>
      ReducedNotLonger(c, false);
      ListNotLonger(body);
      EmptySize();
    case Block(ss) => ListNotLonger(ss);
  }

  lemma EmptySize()
    ensures ListSize(SNil, true) == 0
  {
  }

  lemma {:induction false} ListNotLonger(ss: StmtList)
    ensures ListSize(ListReduced(ss), true) <= ListSize(ss, false)
    decreases ss
  {
    hide StmtSize, StmtReduced;
    match ss
    case SNil =>
    case SCons(s, next) =>
      StmtNotLonger(s);
      ListNotLonger(next);
  }

  /** The optimised code of a program is never longer than the plain one. */
  lemma {:induction false} OptimisedNotLonger(p: Program)
    ensures |Translate(ProgramReduced(p, true), true).code| <= |Translate(p, false).code|
  {
    hide GenMethods, MethodReduced;
    ProgramCodeSize(p.methods, false);
    ProgramCodeSize(ProgramReduced(p, true).methods, true);
    MethodsNotLonger(p.methods, ProgramReduced(p, true).methods);
  }

  lemma {:induction false} MethodsNotLonger(ms: seq<Method>, ms1: seq<Method>)
    requires |ms| == |ms1| && forall i :: 0 <= i < |ms| ==> ms1[i] == MethodReduced(ms[i])
    ensures MethodsSize(ms1, true) <= MethodsSize(ms, false)
    decreases |ms|
  {
    hide ListSize, ListReduced;
    if ms != [] {
      MethodsNotLonger(ms[..|ms| - 1], ms1[..|ms| - 1]);
      ListNotLonger(ms[|ms| - 1].body);
    }
  }
}
