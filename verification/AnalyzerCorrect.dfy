/** What the analyzer's rewriting keeps: types, names, and meaning. */
module AnalyzerCorrect {
  import opened Words
  import opened Source
  import opened IrLayout
  import opened Analyzer
  import opened TypeSoundness
  import opened IrGenCorrect

  // ----- when folding and branch removal are exact -----

  /** The exact result fits the C int in which the compiler folds. */
  predicate FoldFits(op: BinOp, a: CInt, b: CInt) {
    match op
    case Add => FitsInt(a + b)
    case Sub => FitsInt(a - b)
    case Mul => FitsInt(a * b)
    case _ => true
  }

  lemma ProductAtMost(m: int, n: int, k: int)
    requires 0 <= m <= k && 0 <= n <= k
    ensures 0 <= m * n <= k * k
  {
    assert k * k - m * n == k * (k - n) + (k - m) * n;
  }

  lemma ProductFits(a: CInt, b: CInt)
    ensures -TWO63 <= a * b < TWO63
  {
    var m: int := if a < 0 then 0 - a else a;
    var n: int := if b < 0 then 0 - b else b;
    ProductAtMost(m, n, TWO31);
    assert a * b == m * n || a * b == -(m * n);
  }

  lemma FoldedQuotient(a: CInt, b: CInt)
    requires b != 0 && !(a == -TWO31 && b == -1)
    ensures FitsInt(TruncDiv(a, b)) && FitsInt(TruncMod(a, b))
  {
    TruncDivMeaning(a, b);
    var d := if a >= 0 then a as int else 0 - a;
    QuotientBound(d, b);
    if b == -1 {
      ByMinusOne(a);
    }
  }

  /** Folding two literals gives the value the operator has at run time exactly when the exact result
      fits a C int. */
  lemma FoldExact(op: BinOp, a: CInt, b: CInt)
    requires FoldBin(op, a, b).Some?
    ensures Apply(op, a, b) == Some(LiteralValue(FoldBin(op, a, b).value)) <==> FoldFits(op, a, b)
  {
    ProductFits(a, b);
    match op
    case Add => WrapIntExact(a + b);
    case Sub => WrapIntExact(a - b);
    case Mul => WrapIntExact(a * b);
    case Div => FoldedQuotient(a, b);
    case Mod => FoldedQuotient(a, b);
    case _ =>
  }

  /** A smallest counterexample of the other case: 2147483647 + 1 folds to a negative number. */
  lemma FoldOverflows()
    ensures FoldBin(Add, 0x7fff_ffff, 1) == Some(IntLit(-0x8000_0000))
    ensures Apply(Add, 0x7fff_ffff, 1) == Some(0x8000_0000)
  {
  }

  /** The branch of an if-statement the source takes. */
  predicate Selected(v: Word, kept: Kept) {
    kept == Both || (kept == Then <==> v != 0)
  }

  /** An if-statement is reduced to the branch that every run takes exactly when its condition is a
      literal; the guard also accepts an identifier, whose branch depends on the run. */
  lemma BranchRemovalExact(p: Program, c: Expr, els: StmtList)
    requires CheckExpr(p.methods, c, false).Typed? && CheckExpr(p.methods, c, false).ty == RBool
    requires KeptBranch(c, els, true) != Both
    ensures (forall env: Env, v: Word :: EvalExpr(p, c, env, [], 0) == Value(Some(v), []) ==>
               Selected(v, KeptBranch(c, els, true)))
            <==> !c.Id?
  {
    if c.Id? {
      var v: Word := if KeptBranch(c, els, true) == Then then 0 else 1;
      var env: Env := map[c.x := v];
      assert EvalExpr(p, c, env, [], 0) == Value(Some(v), []);
      assert !Selected(v, KeptBranch(c, els, true));
    }
  }

  ghost predicate FalseIfAny(p: Program, c: Expr, env: Env, v: Word) {
    EvalExpr(p, c, env, [], 0) == Value(Some(v), []) ==> v == 0
  }

  /** A loop is removed although some run enters it exactly when its condition is an identifier. */
  lemma LoopRemovalExact(p: Program, c: Expr)
    requires CheckExpr(p.methods, c, false).Typed? && CheckExpr(p.methods, c, false).ty == RBool
    requires LoopRemoved(c, true)
    ensures (forall env: Env, v: Word :: FalseIfAny(p, c, env, v)) <==> !c.Id?
  {
    hide CheckExpr;
    if c.Id? {
      var env: Env := map[c.x := 1];
      assert !FalseIfAny(p, c, env, 1);
    }
  }

  /** Every fold inside e is exact. */
  ghost predicate ExprFolds(ms: seq<Method>, e: Expr)
    decreases e
  {
    match e
    case Binary(op, l, r) =>
      && ExprFolds(ms, l) && ExprFolds(ms, r)
      && var l1 := CheckExpr(ms, l, true);
         var r1 := CheckExpr(ms, r, true);
         (l1.Typed? && r1.Typed? && IsLiteral(l1.e) && IsLiteral(r1.e) ==>
           FoldFits(op, LiteralValue(l1.e), LiteralValue(r1.e)))
    case Unary(_, a) => ExprFolds(ms, a)
    case CallE(_, args) => ArgsFolds(ms, args)
    case _ => true
  }

  ghost predicate ArgsFolds(ms: seq<Method>, es: ExprList)
    decreases es
  {
    match es
    case NoExpr => true
    case ExprCons(e, next) => ExprFolds(ms, e) && ArgsFolds(ms, next)
  }

  /** No statement is rewritten because of an identifier condition. */
  ghost predicate GuardIsLiteral(c: Expr, els: StmtList) {
    c.Id? ==> KeptBranch(c, els, true) == Both && !LoopRemoved(c, true)
  }

  ghost predicate StmtRewrites(ms: seq<Method>, s: Stmt)
    decreases s
  {
    match s
    case Assign(_, _, e) => ExprFolds(ms, e)
    case Decl(_, _, init) => init.Some? ==> ExprFolds(ms, init.value)
    case CallS(_, args) => ArgsFolds(ms, args)
    case Return(val) => val.Some? ==> ExprFolds(ms, val.value)
    case If(c, thn, els) =>
      GuardIsLiteral(c, els) && ExprFolds(ms, c) && ListRewrites(ms, thn) && ListRewrites(ms, els)
    case While(c, body) => GuardIsLiteral(c, SNil) && ExprFolds(ms, c) && ListRewrites(ms, body)
    case Block(ss) => ListRewrites(ms, ss)
  }

  ghost predicate ListRewrites(ms: seq<Method>, ss: StmtList)
    decreases ss
  {
    match ss
    case SNil => true
    case SCons(s, next) => StmtRewrites(ms, s) && ListRewrites(ms, next)
  }

  // ----- the rewritten program -----

  ghost predicate SameHeader(m: Method, m1: Method) {
    m1.name == m.name && m1.params == m.params && m1.ret == m.ret && m1.isExtern == m.isExtern
  }

  /** ms1 is the analyzer's output for ms, method by method. */
  ghost predicate Rewritten(ms: seq<Method>, ms1: seq<Method>, opt: bool) {
    |ms1| == |ms| && forall i :: 0 <= i < |ms| ==> CheckMethod(ms, ms[i], opt) == Some(ms1[i])
  }

  lemma {:induction false} CheckMethodsEach(ms: seq<Method>, todo: seq<Method>, opt: bool)
    requires CheckMethods(ms, todo, opt).Some?
    ensures forall i :: 0 <= i < |todo| ==> CheckMethod(ms, todo[i], opt) == Some(CheckMethods(ms, todo, opt).value[i])
    decreases |todo|
  {
    if todo != [] {
      CheckMethodsEach(ms, todo[1..], opt);
    }
  }

  lemma HeadersKept(ms: seq<Method>, ms1: seq<Method>, opt: bool)
    requires Rewritten(ms, ms1, opt)
    ensures forall i :: 0 <= i < |ms| ==> SameHeader(ms[i], ms1[i])
  {
  }

  lemma {:induction false} FindRewritten(ms: seq<Method>, ms1: seq<Method>, f: string) returns (i: nat)
    requires |ms| == |ms1| && forall j :: 0 <= j < |ms| ==> SameHeader(ms[j], ms1[j])
    ensures Find(ms, f).Some? <==> Find(ms1, f).Some?
    ensures Find(ms, f).Some? ==> i < |ms| && Find(ms, f).value == ms[i] && Find(ms1, f).value == ms1[i]
    decreases |ms|
  {
    i := 0;
    if ms != [] && ms[0].name != f {
      i := FindRewritten(ms[1..], ms1[1..], f);
      i := i + 1;
    }
  }

  ghost predicate SameHeaders(ms: seq<Method>, ms1: seq<Method>) {
    forall f :: Find(ms, f).Some? == Find(ms1, f).Some?
             && (Find(ms, f).Some? ==> SameHeader(Find(ms, f).value, Find(ms1, f).value))
  }

  lemma RewrittenHeaders(ms: seq<Method>, ms1: seq<Method>, opt: bool)
    requires Rewritten(ms, ms1, opt)
    ensures SameHeaders(ms, ms1)
  {
    HeadersKept(ms, ms1, opt);
    forall f
      ensures Find(ms, f).Some? == Find(ms1, f).Some?
      ensures Find(ms, f).Some? ==> SameHeader(Find(ms, f).value, Find(ms1, f).value)
    {
      var i := FindRewritten(ms, ms1, f);
    }
  }

  // ----- the output is accepted as it stands -----

  lemma {:induction false} ExprRechecks(ms: seq<Method>, ms1: seq<Method>, e: Expr, opt: bool)
    requires SameHeaders(ms, ms1) && CheckExpr(ms, e, opt).Typed?
    ensures var r := CheckExpr(ms, e, opt); CheckExpr(ms1, r.e, false) == r
    decreases e
  {
    match e
    case Binary(_, l, r) =>
      ExprRechecks(ms, ms1, l, opt);
      ExprRechecks(ms, ms1, r, opt);
    case Unary(_, a) => ExprRechecks(ms, ms1, a, opt);
    case CallE(f, args) => ArgsRecheck(ms, ms1, args, Find(ms, f).value.params, opt);
    case _ =>
  }

  lemma {:induction false} ArgsRecheck(ms: seq<Method>, ms1: seq<Method>, es: ExprList, ps: seq<Param>, opt: bool)
    requires SameHeaders(ms, ms1) && ListLength(es) == |ps| && CheckArgs(ms, es, ps, opt).TypedArgs?
    ensures var r := CheckArgs(ms, es, ps, opt); CheckArgs(ms1, r.es, ps, false) == r
    decreases es
  {
    match es
    case NoExpr =>
    case ExprCons(e, next) =>
      ExprRechecks(ms, ms1, e, opt);
      ArgsRecheck(ms, ms1, next, ps[1..], opt);
  }

  lemma NothingRechecks(ms: seq<Method>, ret: RetType)
    ensures CheckList(ms, SNil, ret, false) == TypedList(SNil)
  {
  }

  lemma {:induction false} StmtRechecks(ms: seq<Method>, ms1: seq<Method>, s: Stmt, ret: RetType, opt: bool)
    requires SameHeaders(ms, ms1) && CheckStmt(ms, s, ret, opt).TypedStmt?
    ensures var r := CheckStmt(ms, s, ret, opt); CheckStmt(ms1, r.s, ret, false) == r
    decreases s
  {
    hide CheckExpr, CheckArgs, CheckList;
    NothingRechecks(ms1, ret);
    match s
    case Assign(_, _, e) => ExprRechecks(ms, ms1, e, opt);
    case Decl(_, _, init) => if init.Some? { ExprRechecks(ms, ms1, init.value, opt); }
    case CallS(f, args) => ArgsRecheck(ms, ms1, args, Find(ms, f).value.params, opt);
    case Return(val) => if val.Some? { ExprRechecks(ms, ms1, val.value, opt); }
    case If(c, thn, els) =>
      ExprRechecks(ms, ms1, c, opt);
      if CheckList(ms, thn, ret, opt).TypedList? {
        ListRechecks(ms, ms1, thn, ret, opt);
      }
      if CheckList(ms, els, ret, opt).TypedList? {
        ListRechecks(ms, ms1, els, ret, opt);
      }
    case While(c, body) =>
      ExprRechecks(ms, ms1, c, opt);
      ListRechecks(ms, ms1, body, ret, opt);
    case Block(ss) => ListRechecks(ms, ms1, ss, ret, opt);
  }

  lemma {:induction false} ListRechecks(ms: seq<Method>, ms1: seq<Method>, ss: StmtList, ret: RetType, opt: bool)
    requires SameHeaders(ms, ms1) && CheckList(ms, ss, ret, opt).TypedList?
    ensures var r := CheckList(ms, ss, ret, opt);
            CheckList(ms1, r.ss, ret, false) == r && (r.ss == SNil <==> ss == SNil)
    decreases ss
  {
    match ss
    case SNil =>
    case SCons(s, next) =>
      StmtRechecks(ms, ms1, s, ret, opt);
      ListRechecks(ms, ms1, next, ret, opt);
  }

  // ----- names and divisors survive -----

  lemma {:induction false} ExprKept(ms: seq<Method>, ts: Types, e: Expr, opt: bool)
    requires CheckExpr(ms, e, opt).Typed?
    ensures var e1 := CheckExpr(ms, e, opt).e;
            && (ExprNames(ts, e) ==> ExprNames(ts, e1))
            && (ExprDivisors(e) ==> ExprDivisors(e1))
            && (e1.Id? ==> e1 == e)
    decreases e
  {
    match e
    case Binary(op, l, r) =>
      ExprKept(ms, ts, l, opt);
      ExprKept(ms, ts, r, opt);
    case Unary(_, a) => ExprKept(ms, ts, a, opt);
    case CallE(f, args) => ArgsKept(ms, ts, args, Find(ms, f).value.params, opt);
    case _ =>
  }

  lemma {:induction false} ArgsKept(ms: seq<Method>, ts: Types, es: ExprList, ps: seq<Param>, opt: bool)
    requires ListLength(es) == |ps| && CheckArgs(ms, es, ps, opt).TypedArgs?
    ensures var es1 := CheckArgs(ms, es, ps, opt).es;
            && (ArgsNames(ts, es) ==> ArgsNames(ts, es1))
            && (ArgsDivisors(es) ==> ArgsDivisors(es1))
    decreases es
  {
    match es
    case NoExpr =>
    case ExprCons(e, next) =>
      ExprKept(ms, ts, e, opt);
      ArgsKept(ms, ts, next, ps[1..], opt);
  }

  lemma EmptyKept(ts: Types)
    ensures ListNames(ts, SNil) && ListDivisors(SNil)
  {
  }

  lemma {:induction false} StmtKept(ms: seq<Method>, ts: Types, s: Stmt, ret: RetType, opt: bool)
    requires CheckStmt(ms, s, ret, opt).TypedStmt?
    ensures var s1 := CheckStmt(ms, s, ret, opt).s;
            && (StmtNames(ts, s) ==> StmtNames(ts, s1))
            && (StmtDivisors(s) ==> StmtDivisors(s1))
    decreases s
  {
    EmptyKept(ts);
    hide CheckExpr, CheckArgs, CheckList, ExprNames, ArgsNames, ListNames, ExprDivisors, ArgsDivisors, ListDivisors,
         Find;
    match s
    case Assign(_, _, e) => ExprKept(ms, ts, e, opt);
    case Decl(_, _, init) => if init.Some? { ExprKept(ms, ts, init.value, opt); }
    case CallS(f, args) => ArgsKept(ms, ts, args, Find(ms, f).value.params, opt);
    case Return(val) => if val.Some? { ExprKept(ms, ts, val.value, opt); }
    case If(c, thn, els) =>
      ExprKept(ms, ts, c, opt);
      if CheckList(ms, thn, ret, opt).TypedList? {
        ListKept(ms, ts, thn, ret, opt);
      }
      if CheckList(ms, els, ret, opt).TypedList? {
        ListKept(ms, ts, els, ret, opt);
      }
    case While(c, body) =>
      ExprKept(ms, ts, c, opt);
      ListKept(ms, ts, body, ret, opt);
    case Block(ss) => ListKept(ms, ts, ss, ret, opt);
  }

  lemma {:induction false} ListKept(ms: seq<Method>, ts: Types, ss: StmtList, ret: RetType, opt: bool)
    requires CheckList(ms, ss, ret, opt).TypedList?
    ensures var ss1 := CheckList(ms, ss, ret, opt).ss;
            && (ListNames(ts, ss) ==> ListNames(ts, ss1))
            && (ListDivisors(ss) ==> ListDivisors(ss1))
    decreases ss
  {
    match ss
    case SNil =>
    case SCons(s, next) =>
      StmtKept(ms, ts, s, ret, opt);
      ListKept(ms, ts, next, ret, opt);
  }

  // ----- folding reaches a normal form -----

  /** No binary node with two literal operands is left. */
  ghost predicate Folded(e: Expr)
    decreases e
  {
    match e
    case Binary(_, l, r) => Folded(l) && Folded(r) && !(IsLiteral(l) && IsLiteral(r))
    case Unary(_, a) => Folded(a)
    case CallE(_, args) => ArgsFolded(args)
    case _ => true
  }

  ghost predicate ArgsFolded(es: ExprList)
    decreases es
  {
    match es
    case NoExpr => true
    case ExprCons(e, next) => Folded(e) && ArgsFolded(next)
  }

  lemma {:induction false} FoldingNormalizes(ms: seq<Method>, e: Expr)
    requires CheckExpr(ms, e, true).Typed?
    ensures Folded(CheckExpr(ms, e, true).e)
    decreases e
  {
    match e
    case Binary(_, l, r) =>
      FoldingNormalizes(ms, l);
      FoldingNormalizes(ms, r);
    case Unary(_, a) => FoldingNormalizes(ms, a);
    case CallE(f, args) => ArgsNormalize(ms, args, Find(ms, f).value.params);
    case _ =>
  }

  lemma {:induction false} ArgsNormalize(ms: seq<Method>, es: ExprList, ps: seq<Param>)
    requires ListLength(es) == |ps| && CheckArgs(ms, es, ps, true).TypedArgs?
    ensures ArgsFolded(CheckArgs(ms, es, ps, true).es)
    decreases es
  {
    match es
    case NoExpr =>
    case ExprCons(e, next) =>
      FoldingNormalizes(ms, e);
      ArgsNormalize(ms, next, ps[1..]);
  }

  /** Every expression is folded, no if-statement is left on true, none on false that has an else, and no
      loop on false; nor on an identifier whose leaf reads like that. */
  ghost predicate StmtNormal(s: Stmt)
    decreases s
  {
    match s
    case Assign(_, _, e) => Folded(e)
    case Decl(_, _, init) => init.Some? ==> Folded(init.value)
    case CallS(_, args) => ArgsFolded(args)
    case Return(val) => val.Some? ==> Folded(val.value)
    case If(c, thn, els) =>
      && c != BoolLit(true) && (c == BoolLit(false) ==> els == SNil)
      && (c.Id? ==> c.bits != 1 && els == SNil)
      && Folded(c) && ListNormal(thn) && ListNormal(els)
    case While(c, body) =>
      && c != BoolLit(false)
      && (c.Id? ==> c.bits != 0)
      && Folded(c) && ListNormal(body)
    case Block(ss) => ListNormal(ss)
  }

  ghost predicate ListNormal(ss: StmtList)
    decreases ss
  {
    match ss
    case SNil => true
    case SCons(s, next) => StmtNormal(s) && ListNormal(next)
  }

  lemma {:induction false} StmtNormalizes(ms: seq<Method>, s: Stmt, ret: RetType)
    requires CheckStmt(ms, s, ret, true).TypedStmt?
    ensures StmtNormal(CheckStmt(ms, s, ret, true).s)
    decreases s
  {
    hide CheckExpr, CheckArgs, Folded, ArgsFolded, Find;
    match s
    case Assign(_, _, e) => FoldingNormalizes(ms, e);
    case Decl(_, _, init) =>
      if init.Some? {
        FoldingNormalizes(ms, init.value);
      }
    case CallS(f, args) => ArgsNormalize(ms, args, Find(ms, f).value.params);
    case Return(val) =>
      if val.Some? {
        FoldingNormalizes(ms, val.value);
      }
    case If(c, thn, els) =>
      FoldingNormalizes(ms, c);
      var kept := KeptBranch(CheckExpr(ms, c, true).e, els, true);
      if kept != Else {
        ListNormalizes(ms, thn, ret);
      }
      if kept != Then {
        ListNormalizes(ms, els, ret);
      }
    case While(c, body) =>
      FoldingNormalizes(ms, c);
      ListNormalizes(ms, body, ret);
    case Block(ss) => ListNormalizes(ms, ss, ret);
  }

  lemma {:induction false} ListNormalizes(ms: seq<Method>, ss: StmtList, ret: RetType)
    requires CheckList(ms, ss, ret, true).TypedList?
    ensures ListNormal(CheckList(ms, ss, ret, true).ss)
    ensures CheckList(ms, ss, ret, true).ss == SNil <==> ss == SNil
    decreases ss
  {
    hide CheckStmt, StmtNormal;
    match ss
    case SNil =>
    case SCons(s, next) =>
      StmtNormalizes(ms, s, ret);
      ListNormalizes(ms, next, ret);
  }

  /** The whole program the optimising analysis hands on is in normal form. */
  lemma {:induction false} ProgramNormalizes(p: Program)
    requires Analyze(p, true).Some?
    ensures forall m :: m in Analyze(p, true).value.methods && !m.isExtern ==> ListNormal(m.body)
  {
    hide Analyze, ListNormal, CheckList;
    AnalyzedShape(p, true);
    var ms, ms1 := p.methods, Analyze(p, true).value.methods;
    forall m | m in ms1 && !m.isExtern
      ensures ListNormal(m.body)
    {
      var i :| 0 <= i < |ms1| && ms1[i] == m;
      ListNormalizes(ms, ms[i].body, ms[i].ret);
    }
  }

  // ----- meaning -----

  /** p1 is what the analyzer makes of p, and its rewriting is exact. */
  ghost predicate Preserved(p: Program, p1: Program, opt: bool) {
    && Rewritten(p.methods, p1.methods, opt) && p1.ext == p.ext
    && (opt ==> forall m :: m in p.methods && !m.isExtern ==> ListRewrites(p.methods, m.body))
  }

  lemma BinaryFolded(p: Program, op: BinOp, l1: Expr, r1: Expr, env: Env, tr: Trace, fuel: nat)
    requires IsLiteral(l1) && IsLiteral(r1) && FoldFits(op, LiteralValue(l1), LiteralValue(r1))
    requires FoldBin(op, LiteralValue(l1), LiteralValue(r1)).Some?
    ensures EvalExpr(p, FoldBin(op, LiteralValue(l1), LiteralValue(r1)).value, env, tr, fuel)
         == EvalExpr(p, Binary(op, l1, r1), env, tr, fuel)
  {
    FoldExact(op, LiteralValue(l1), LiteralValue(r1));
    assert EvalExpr(p, l1, env, tr, fuel) == Value(Some(LiteralValue(l1) as Word), tr);
    assert EvalExpr(p, r1, env, tr, fuel) == Value(Some(LiteralValue(r1) as Word), tr);
  }

  lemma {:induction false} ExprPreserved(p: Program, p1: Program, e: Expr, opt: bool, env: Env, tr: Trace, fuel: nat)
    requires Preserved(p, p1, opt) && CheckExpr(p.methods, e, opt).Typed? && (opt ==> ExprFolds(p.methods, e))
    ensures EvalExpr(p1, CheckExpr(p.methods, e, opt).e, env, tr, fuel) == EvalExpr(p, e, env, tr, fuel)
    decreases fuel, 0, e
  {
    hide Apply, FoldFits, FoldBin, Rewritten;
    match e
    case Binary(op, l, r) =>
      ExprPreserved(p, p1, l, opt, env, tr, fuel);
      var a := EvalExpr(p, l, env, tr, fuel);
      var l1, r1 := CheckExpr(p.methods, l, opt).e, CheckExpr(p.methods, r, opt).e;
      if a.Value? {
        ExprPreserved(p, p1, r, opt, env, a.tr, fuel);
      }
      assert EvalExpr(p1, Binary(op, l1, r1), env, tr, fuel) == EvalExpr(p, e, env, tr, fuel);
      if opt && IsLiteral(l1) && IsLiteral(r1) {
        BinaryFolded(p1, op, l1, r1, env, tr, fuel);
      }
    case Unary(_, a) => ExprPreserved(p, p1, a, opt, env, tr, fuel);
    case CallE(f, args) =>
      ArgsPreserved(p, p1, args, Find(p.methods, f).value.params, opt, env, tr, fuel);
      var a := EvalArgs(p, args, env, tr, fuel);
      if a.Args? && fuel > 0 {
        CallPreserved(p, p1, opt, f, a.vs, a.tr, fuel - 1);
      }
    case _ =>
  }

  lemma {:induction false} ArgsPreserved(p: Program, p1: Program, es: ExprList, ps: seq<Param>, opt: bool,
                                         env: Env, tr: Trace, fuel: nat)
    requires Preserved(p, p1, opt) && ListLength(es) == |ps| && CheckArgs(p.methods, es, ps, opt).TypedArgs?
    requires opt ==> ArgsFolds(p.methods, es)
    ensures EvalArgs(p1, CheckArgs(p.methods, es, ps, opt).es, env, tr, fuel) == EvalArgs(p, es, env, tr, fuel)
    decreases fuel, 0, es
  {
    hide EvalExpr, CheckExpr, ExprFolds, Rewritten;
    match es
    case NoExpr =>
    case ExprCons(e, next) =>
      ExprPreserved(p, p1, e, opt, env, tr, fuel);
      var a := EvalExpr(p, e, env, tr, fuel);
      if a.Value? {
        ArgsPreserved(p, p1, next, ps[1..], opt, env, a.tr, fuel);
      }
  }

  lemma {:induction false} CallPreserved(p: Program, p1: Program, opt: bool, f: string, vs: seq<Word>, tr: Trace,
      fuel: nat)
    requires Preserved(p, p1, opt)
    ensures CallMethod(p1, f, vs, tr, fuel) == CallMethod(p, f, vs, tr, fuel)
    decreases fuel, 1, SNil
  {
    hide ExecList, CheckList, ListRewrites;
    HeadersKept(p.methods, p1.methods, opt);
    var i := FindRewritten(p.methods, p1.methods, f);
    if Find(p.methods, f).Some? {
      var m := p.methods[i];
      assert m in p.methods;
      if !m.isExtern && |m.params| == |vs| {
        ListPreserved(p, p1, m.body, m.ret, opt, Bind(ParamNames(m.params), vs), tr + [Event(f, vs)], fuel);
      }
    }
  }

  /** Folding, literal branches and dead loops change no run: same variables, value and events. */
  lemma {:induction false} StmtPreserved(p: Program, p1: Program, s: Stmt, ret: RetType, opt: bool,
                                         env: Env, tr: Trace, fuel: nat)
    requires Preserved(p, p1, opt) && CheckStmt(p.methods, s, ret, opt).TypedStmt?
    requires opt ==> StmtRewrites(p.methods, s)
    ensures Exec(p1, CheckStmt(p.methods, s, ret, opt).s, env, tr, fuel) == Exec(p, s, env, tr, fuel)
    decreases fuel, 0, s
  {
    hide EvalExpr, ExecList, CheckExpr, CheckList, CheckArgs, EvalArgs, ExprFolds, ListRewrites, ArgsFolds, Rewritten,
         CallMethod;
    match s
    case Assign(_, _, e) => ExprPreserved(p, p1, e, opt, env, tr, fuel);
    case Decl(_, _, init) => if init.Some? { ExprPreserved(p, p1, init.value, opt, env, tr, fuel); }
    case CallS(f, args) =>
      ArgsPreserved(p, p1, args, Find(p.methods, f).value.params, opt, env, tr, fuel);
      var a := EvalArgs(p, args, env, tr, fuel);
      if a.Args? && fuel > 0 {
        CallPreserved(p, p1, opt, f, a.vs, a.tr, fuel - 1);
      }
    case Return(val) => if val.Some? { ExprPreserved(p, p1, val.value, opt, env, tr, fuel); }
    case If(c, thn, els) => IfPreserved(p, p1, c, thn, els, ret, opt, env, tr, fuel);
    case While(c, body) => WhilePreserved(p, p1, c, body, ret, opt, env, tr, fuel);
    case Block(ss) => ListPreserved(p, p1, ss, ret, opt, env, tr, fuel);
  }

  /** A literal condition decides its statement. */
  lemma LiteralCondition(p: Program, p1: Program, c: Expr, c1: Expr, els: StmtList, env: Env, tr: Trace, fuel: nat)
    requires CheckExpr(p.methods, c, true) == Typed(RBool, c1)
    requires EvalExpr(p1, c1, env, tr, fuel) == EvalExpr(p, c, env, tr, fuel)
    requires LeafBits(c1).Some? && !c1.Id?
    ensures EvalExpr(p, c, env, tr, fuel) == Value(Some(LeafBits(c1).value as Word), tr)
    ensures KeptBranch(c1, els, true) == Then <==> LeafBits(c1).value != 0
    ensures LoopRemoved(c1, true) <==> LeafBits(c1).value == 0
  {
    ExprRechecks(p.methods, p.methods, c, true);
    assert CheckExpr(p.methods, c1, false) == Typed(RBool, c1);
  }

  lemma {:induction false} IfPreserved(p: Program, p1: Program, c: Expr, thn: StmtList, els: StmtList, ret: RetType,
                                       opt: bool, env: Env, tr: Trace, fuel: nat)
    requires Preserved(p, p1, opt) && CheckStmt(p.methods, If(c, thn, els), ret, opt).TypedStmt?
    requires opt ==> StmtRewrites(p.methods, If(c, thn, els))
    ensures Exec(p1, CheckStmt(p.methods, If(c, thn, els), ret, opt).s, env, tr, fuel)
         == Exec(p, If(c, thn, els), env, tr, fuel)
    decreases fuel, 0, If(c, thn, els), 0
  {
    hide EvalExpr, ExecList, CheckExpr, CheckList, ExprFolds, ListRewrites, Rewritten, KeptBranch, LeafBits,
         CheckMethod, ExprNames, ExprDivisors, CallMethod;
    ExprPreserved(p, p1, c, opt, env, tr, fuel);
    ExprKept(p.methods, map[], c, opt);
    var a := EvalExpr(p, c, env, tr, fuel);
    var c1 := CheckExpr(p.methods, c, opt).e;
    var kept := KeptBranch(c1, els, opt);
    KeptMeans(c1, els, opt);
    if a.Value? {
      if CheckList(p.methods, thn, ret, opt).TypedList? {
        ListPreserved(p, p1, thn, ret, opt, env, a.tr, fuel);
      }
      if CheckList(p.methods, els, ret, opt).TypedList? {
        ListPreserved(p, p1, els, ret, opt, env, a.tr, fuel);
      }
    }
    if kept != Both {
      LiteralCondition(p, p1, c, c1, els, env, tr, fuel);
    }
    hide Preserved, StmtRewrites;
  }

  lemma KeptMeans(c: Expr, els: StmtList, opt: bool)
    ensures KeptBranch(c, els, opt) != Both ==> opt && LeafBits(c).Some?
  {
  }

  lemma RemovedMeans(c: Expr, opt: bool)
    requires LoopRemoved(c, opt)
    ensures opt && LeafBits(c).Some?
  {
  }

  lemma {:induction false} WhilePreserved(p: Program, p1: Program, c: Expr, body: StmtList, ret: RetType,
                                          opt: bool, env: Env, tr: Trace, fuel: nat)
    requires Preserved(p, p1, opt) && CheckStmt(p.methods, While(c, body), ret, opt).TypedStmt?
    requires opt ==> StmtRewrites(p.methods, While(c, body))
    ensures Exec(p1, CheckStmt(p.methods, While(c, body), ret, opt).s, env, tr, fuel)
         == Exec(p, While(c, body), env, tr, fuel)
    decreases fuel, 0, While(c, body), 0
  {
    hide EvalExpr, CheckExpr, CheckList, ExprFolds, ListRewrites, Rewritten, LeafBits, LoopRemoved, KeptBranch,
         ExprNames, ExprDivisors, CallMethod;
    ExprPreserved(p, p1, c, opt, env, tr, fuel);
    ExprKept(p.methods, map[], c, opt);
    var a := EvalExpr(p, c, env, tr, fuel);
    var c1 := CheckExpr(p.methods, c, opt).e;
    if LoopRemoved(c1, opt) {
      RemovedMeans(c1, opt);
      LiteralCondition(p, p1, c, c1, SNil, env, tr, fuel);
    } else if a.Value? && a.v.Some? && a.v.value != 0 {
      ListPreserved(p, p1, body, ret, opt, env, a.tr, fuel);
      var b := ExecList(p, body, env, a.tr, fuel);
      if b.Normal? && fuel > 0 {
        WhilePreserved(p, p1, c, body, ret, opt, b.env, b.tr, fuel - 1);
      }
    }
  }

  lemma {:induction false} ListPreserved(p: Program, p1: Program, ss: StmtList, ret: RetType, opt: bool,
                                         env: Env, tr: Trace, fuel: nat)
    requires Preserved(p, p1, opt) && CheckList(p.methods, ss, ret, opt).TypedList?
    requires opt ==> ListRewrites(p.methods, ss)
    ensures ExecList(p1, CheckList(p.methods, ss, ret, opt).ss, env, tr, fuel) == ExecList(p, ss, env, tr, fuel)
    decreases fuel, 0, ss
  {
    hide Exec, CheckStmt, StmtRewrites, Rewritten;
    match ss
    case SNil =>
    case SCons(s, next) =>
      StmtPreserved(p, p1, s, ret, opt, env, tr, fuel);
      var r := Exec(p, s, env, tr, fuel);
      if r.Normal? {
        ListPreserved(p, p1, next, ret, opt, r.env, r.tr, fuel);
      }
  }

  // ----- the analyzer as a whole -----

  /** What a source program must satisfy: one type per name, extern answers of their type, distinct
      method names; and with optimisation on, exact folds and no identifier where the optimiser reads
      a literal. */
  ghost predicate Regular(g: map<string, Types>, p: Program, opt: bool) {
    && OneTypePerName(g, p) && ExternsOk(p) && DistinctMethods(p.methods)
    && (opt ==> forall m :: m in p.methods && !m.isExtern ==> ListRewrites(p.methods, m.body) && ListDivisors(m.body))
  }

  lemma MethodAnalyzed(g: map<string, Types>, p: Program, p1: Program, opt: bool, i: nat)
    requires Regular(g, p, opt) && Rewritten(p.methods, p1.methods, opt) && i < |p.methods| && !p.methods[i].isExtern
    ensures var m1 := p1.methods[i];
            && CheckBody(p1.methods, m1.body, m1.ret, false) == TypedList(m1.body)
            && m1.name in g && MethodNames(g[m1.name], m1)
            && (opt ==> ListDivisors(m1.body))
  {
    hide ListNames, ListDivisors, ListRewrites, CheckList;
    var m := p.methods[i];
    assert m in p.methods;
    RewrittenHeaders(p.methods, p1.methods, opt);
    ListRechecks(p.methods, p1.methods, m.body, m.ret, opt);
    ListKept(p.methods, g[m.name], m.body, m.ret, opt);
  }

  lemma {:induction false} ExternsKept(p: Program, p1: Program, opt: bool)
    requires ExternsOk(p) && Rewritten(p.methods, p1.methods, opt) && p1.ext == p.ext
    ensures ExternsOk(p1)
  {
    hide CheckBody, ValueOk;
    HeadersKept(p.methods, p1.methods, opt);
    forall m1, tr: Trace, vs | m1 in p1.methods && m1.isExtern
      ensures ValueOk(m1.ret, p1.ext(tr + [Event(m1.name, vs)]))
    {
      var i :| 0 <= i < |p1.methods| && p1.methods[i] == m1;
      assert p.methods[i] in p.methods;
    }
  }

  lemma {:induction false} AnalyzedShape(p: Program, opt: bool)
    requires Analyze(p, opt).Some?
    ensures var p1 := Analyze(p, opt).value; Rewritten(p.methods, p1.methods, opt) && p1.ext == p.ext
  {
    hide CheckMethod;
    CheckMethodsEach(p.methods, p.methods, opt);
  }

  lemma {:induction false} AnalysisTyped(g: map<string, Types>, p: Program, p1: Program, opt: bool)
    requires Regular(g, p, opt) && Rewritten(p.methods, p1.methods, opt) && p1.ext == p.ext
    ensures Translatable(g, p1, opt)
  {
    hide ListDivisors, ListRewrites, CheckList, MethodNames, ExternsOk, CheckBody, CheckMethod;
    HeadersKept(p.methods, p1.methods, opt);
    forall m1 | m1 in p1.methods && !m1.isExtern
      ensures CheckBody(p1.methods, m1.body, m1.ret, false) == TypedList(m1.body)
      ensures m1.name in g && MethodNames(g[m1.name], m1)
      ensures opt ==> ListDivisors(m1.body)
    {
      var i :| 0 <= i < |p1.methods| && p1.methods[i] == m1;
      MethodAnalyzed(g, p, p1, opt, i);
    }
    ExternsKept(p, p1, opt);
  }

  /** The tree handed to the code generator is accepted as it stands, keeps one type per name, and every
      method means what it meant. */
  lemma {:induction false} AnalysisCorrect(g: map<string, Types>, p: Program, opt: bool)
    requires Regular(g, p, opt) && Analyze(p, opt).Some?
    ensures var p1 := Analyze(p, opt).value;
            && Translatable(g, p1, opt)
            && SameHeaders(p.methods, p1.methods)
            && forall f: string, vs: seq<Word>, tr: Trace, fuel: nat ::
                 CallMethod(p1, f, vs, tr, fuel) == CallMethod(p, f, vs, tr, fuel)
  {
    AnalyzedShape(p, opt);
    hide Analyze, Rewritten, SameHeaders, CallMethod, Translatable;
    var p1 := Analyze(p, opt).value;
    RewrittenHeaders(p.methods, p1.methods, opt);
    AnalysisTyped(g, p, p1, opt);
    forall f: string, vs: seq<Word>, tr: Trace, fuel: nat
      ensures CallMethod(p1, f, vs, tr, fuel) == CallMethod(p, f, vs, tr, fuel)
    {
      CallPreserved(p, p1, opt, f, vs, tr, fuel);
    }
  }
}
