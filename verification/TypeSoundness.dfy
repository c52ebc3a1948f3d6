/** What the type checker guarantees about values: an expression accepted as bool is 0 or 1, and a
    void one has no value. */
module TypeSoundness {
  import opened Words
  import opened Source
  import opened Analyzer
  import Ir

  type Types = map<string, Type>

  // ----- one type per name -----

  ghost predicate ExprNames(ts: Types, e: Expr)
    decreases e
  {
    match e
    case Id(x, ty, _) => x in ts && ts[x] == ty
    case Binary(_, l, r) => ExprNames(ts, l) && ExprNames(ts, r)
    case Unary(_, a) => ExprNames(ts, a)
    case CallE(_, args) => ArgsNames(ts, args)
    case _ => true
  }

  ghost predicate ArgsNames(ts: Types, es: ExprList)
    decreases es
  {
    match es
    case NoExpr => true
    case ExprCons(e, next) => ExprNames(ts, e) && ArgsNames(ts, next)
  }

  ghost predicate StmtNames(ts: Types, s: Stmt)
    decreases s
  {
    match s
    case Assign(x, ty, e) => x in ts && ts[x] == ty && ExprNames(ts, e)
    case Decl(x, ty, init) => x in ts && ts[x] == ty && (init.Some? ==> ExprNames(ts, init.value))
    case CallS(_, args) => ArgsNames(ts, args)
    case Return(val) => val.Some? ==> ExprNames(ts, val.value)
    case If(c, thn, els) => ExprNames(ts, c) && ListNames(ts, thn) && ListNames(ts, els)
    case While(c, body) => ExprNames(ts, c) && ListNames(ts, body)
    case Block(ss) => ListNames(ts, ss)
  }

  ghost predicate ListNames(ts: Types, ss: StmtList)
    decreases ss
  {
    match ss
    case SNil => true
    case SCons(s, next) => StmtNames(ts, s) && ListNames(ts, next)
  }

  ghost predicate MethodNames(ts: Types, m: Method) {
    && ListNames(ts, m.body)
    && forall q :: q in m.params ==> q.name in ts && ts[q.name] == q.ty
  }

  /** Inside each method every name has one type: the flat store has one cell per name. */
  ghost predicate OneTypePerName(g: map<string, Types>, p: Program) {
    forall m :: m in p.methods && !m.isExtern ==> m.name in g && MethodNames(g[m.name], m)
  }

  /** The analyzer accepts every body as it stands. */
  ghost predicate WellTyped(p: Program) {
    forall m :: m in p.methods && !m.isExtern ==>
      CheckBody(p.methods, m.body, m.ret, false) == TypedList(m.body)
  }

  // ----- values of a type -----

  ghost predicate ValueOk(ty: RetType, v: Option<Word>) {
    match ty
    case RInt => true
    case RBool => v.Some? ==> IsBool(v.value)
    case RVoid => v.None?
  }

  ghost predicate EnvOk(ts: Types, env: Env) {
    forall x :: x in env ==> x in ts && ValueOk(RetOf(ts[x]), Some(env[x]))
  }

  ghost predicate ArgsOk(ps: seq<Param>, vs: seq<Word>) {
    |ps| == |vs| && forall i :: 0 <= i < |ps| ==> ValueOk(RetOf(ps[i].ty), Some(vs[i]))
  }

  /** Extern methods answer with values of their declared type. */
  ghost predicate ExternsOk(p: Program) {
    forall m, tr: Trace, vs :: m in p.methods && m.isExtern ==> ValueOk(m.ret, p.ext(tr + [Event(m.name, vs)]))
  }

  ghost predicate Sound(g: map<string, Types>, p: Program) {
    OneTypePerName(g, p) && WellTyped(p) && ExternsOk(p)
  }

  lemma {:induction false} BindMember(xs: seq<string>, vs: seq<Word>, x: string) returns (i: nat)
    requires |xs| == |vs| && x in Bind(xs, vs)
    ensures i < |xs| && xs[i] == x && Bind(xs, vs)[x] == vs[i]
    decreases |xs|
  {
    i := |xs| - 1;
    if xs[i] != x {
      i := BindMember(xs[..i], vs[..i], x);
    }
  }

  lemma BindOk(ts: Types, m: Method, vs: seq<Word>)
    requires MethodNames(ts, m) && ArgsOk(m.params, vs)
    ensures EnvOk(ts, Bind(ParamNames(m.params), vs))
  {
    var xs := ParamNames(m.params);
    forall x | x in Bind(xs, vs)
      ensures x in ts && ValueOk(RetOf(ts[x]), Some(Bind(xs, vs)[x]))
    {
      var i := BindMember(xs, vs, x);
      assert m.params[i] in m.params;
    }
  }

  lemma BinaryValueOk(op: BinOp, tl: RetType, tr: RetType, a: Word, b: Word)
    requires BinType(op, tl, tr).Some? && Apply(op, a, b).Some?
    ensures ValueOk(BinType(op, tl, tr).value, Apply(op, a, b))
  {
  }

  lemma {:induction false} ExprSound(g: map<string, Types>, p: Program, ts: Types, e: Expr, ty: RetType,
                                     env: Env, tr: Trace, fuel: nat)
    requires Sound(g, p) && ExprNames(ts, e) && EnvOk(ts, env)
    requires CheckExpr(p.methods, e, false) == Typed(ty, e)
    ensures var r := EvalExpr(p, e, env, tr, fuel); r.Value? ==> ValueOk(ty, r.v)
    decreases fuel, 0, e
  {
    hide Sound, Apply, CheckArgs, ArgsNames, ArgsOk, CallMethod, EvalArgs;
    match e
    case Binary(op, l, r) =>
      if EvalExpr(p, e, env, tr, fuel).Value? {
        var tl, tr' := CheckExpr(p.methods, l, false).ty, CheckExpr(p.methods, r, false).ty;
        var a := EvalExpr(p, l, env, tr, fuel);
        var b := EvalExpr(p, r, env, a.tr, fuel);
        BinaryValueOk(op, tl, tr', a.v.value, b.v.value);
      }
    case CallE(f, args) =>
      var m := Find(p.methods, f).value;
      ArgsSound(g, p, ts, args, m.params, env, tr, fuel);
      var r := EvalArgs(p, args, env, tr, fuel);
      if r.Args? && fuel > 0 {
        CallSound(g, p, m, r.vs, r.tr, fuel - 1);
      }
    case _ =>
  }

  lemma {:induction false} ArgsSound(g: map<string, Types>, p: Program, ts: Types, es: ExprList, ps: seq<Param>,
                                     env: Env, tr: Trace, fuel: nat)
    requires Sound(g, p) && ArgsNames(ts, es) && EnvOk(ts, env)
    requires ListLength(es) == |ps| && CheckArgs(p.methods, es, ps, false) == TypedArgs(es)
    ensures var r := EvalArgs(p, es, env, tr, fuel); r.Args? ==> ArgsOk(ps, r.vs)
    decreases fuel, 0, es
  {
    match es
    case NoExpr =>
    case ExprCons(e, next) =>
      ExprSound(g, p, ts, e, RetOf(ps[0].ty), env, tr, fuel);
      var a := EvalExpr(p, e, env, tr, fuel);
      if a.Value? {
        ArgsSound(g, p, ts, next, ps[1..], env, a.tr, fuel);
      }
  }

  lemma {:induction false} CallSound(g: map<string, Types>, p: Program, m: Method, vs: seq<Word>, tr: Trace, fuel: nat)
    requires Sound(g, p) && Find(p.methods, m.name) == Some(m) && ArgsOk(m.params, vs)
    ensures var r := CallMethod(p, m.name, vs, tr, fuel); r.Value? ==> ValueOk(m.ret, r.v)
    decreases fuel, 1, SNil
  {
    if !m.isExtern {
      BindOk(g[m.name], m, vs);
      ListSound(g, p, g[m.name], m.body, m.ret, Bind(ParamNames(m.params), vs), tr + [Event(m.name, vs)], fuel);
    }
  }

  ghost predicate ResultOk(ts: Types, ret: RetType, r: StmtResult) {
    match r
    case Normal(env, _) => EnvOk(ts, env)
    case Returned(v, _) => ValueOk(ret, v)
    case StmtFail => true
  }

  lemma SetOk(ts: Types, env: Env, x: string, ty: RetType, v: Option<Word>)
    requires EnvOk(ts, env) && x in ts && ValueOk(ty, v) && (ty == RetOf(ts[x]) || ty == RVoid)
    ensures EnvOk(ts, Set(env, x, v))
  {
    var env1 := Set(env, x, v);
    forall y | y in env1
      ensures y in ts && ValueOk(RetOf(ts[y]), Some(env1[y]))
    {
      assert Get(env1, y) == if y == x then v else Get(env, y);
    }
  }

  /** Every statement the analyzer accepts keeps the variables inside their types, and returns a value
      of the method's type. */
  lemma {:induction false} StmtSound(g: map<string, Types>, p: Program, ts: Types, s: Stmt, ret: RetType,
                                     env: Env, tr: Trace, fuel: nat)
    requires Sound(g, p) && StmtNames(ts, s) && EnvOk(ts, env)
    requires CheckStmt(p.methods, s, ret, false) == TypedStmt(s)
    ensures ResultOk(ts, ret, Exec(p, s, env, tr, fuel))
    decreases fuel, 0, s
  {
    hide Sound, EvalExpr, EvalArgs, ExecList, CheckExpr, CheckArgs, CheckList, ExprNames, ArgsNames, ListNames,
         CallMethod, EnvOk;
    match s
    case Assign(x, ty, e) =>
      ExprSound(g, p, ts, e, RetOf(ty), env, tr, fuel);
      var r := EvalExpr(p, e, env, tr, fuel);
      if r.Value? {
        SetOk(ts, env, x, RetOf(ty), r.v);
      }
    case Decl(x, ty, init) =>
      if init.Some? {
        var te := CheckExpr(p.methods, init.value, false).ty;
        ExprSound(g, p, ts, init.value, te, env, tr, fuel);
        var r := EvalExpr(p, init.value, env, tr, fuel);
        if r.Value? {
          SetOk(ts, env, x, te, r.v);
        }
      }
    case CallS(_, _) =>
    case Return(val) =>
      if val.Some? {
        ExprSound(g, p, ts, val.value, ret, env, tr, fuel);
      }
    case If(c, thn, els) =>
      var r := EvalExpr(p, c, env, tr, fuel);
      if r.Value? {
        ListSound(g, p, ts, thn, ret, env, r.tr, fuel);
        ListSound(g, p, ts, els, ret, env, r.tr, fuel);
      }
    case While(c, body) =>
      var r := EvalExpr(p, c, env, tr, fuel);
      if r.Value? && r.v.Some? && r.v.value != 0 {
        ListSound(g, p, ts, body, ret, env, r.tr, fuel);
        var b := ExecList(p, body, env, r.tr, fuel);
        if b.Normal? && fuel > 0 {
          StmtSound(g, p, ts, s, ret, b.env, b.tr, fuel - 1);
        }
      }
    case Block(ss) =>
      ListSound(g, p, ts, ss, ret, env, tr, fuel);
  }

  lemma {:induction false} ListSound(g: map<string, Types>, p: Program, ts: Types, ss: StmtList, ret: RetType,
                                     env: Env, tr: Trace, fuel: nat)
    requires Sound(g, p) && ListNames(ts, ss) && EnvOk(ts, env)
    requires CheckList(p.methods, ss, ret, false) == TypedList(ss)
    ensures ResultOk(ts, ret, ExecList(p, ss, env, tr, fuel))
    decreases fuel, 0, ss
  {
    match ss
    case SNil =>
    case SCons(s, next) =>
      StmtSound(g, p, ts, s, ret, env, tr, fuel);
      var r := Exec(p, s, env, tr, fuel);
      if r.Normal? {
        ListSound(g, p, ts, next, ret, r.env, r.tr, fuel);
      }
  }

  /** The generated andq and orq agree with the source's logical connectives on every accepted
      operand pair. */
  lemma LogicIsBitwise(g: map<string, Types>, p: Program, ts: Types, op: BinOp, l: Expr, r: Expr,
                       env: Env, tr: Trace, fuel: nat)
    requires Sound(g, p) && ExprNames(ts, l) && ExprNames(ts, r) && EnvOk(ts, env)
    requires op == And || op == Or
    requires CheckExpr(p.methods, Binary(op, l, r), false) == Typed(RBool, Binary(op, l, r))
    requires EvalExpr(p, Binary(op, l, r), env, tr, fuel).Value?
    ensures var a := EvalExpr(p, l, env, tr, fuel);
            var b := EvalExpr(p, r, env, a.tr, fuel);
            && IsBool(a.v.value) && IsBool(b.v.value)
            && Ir.IrApply(op, a.v.value, b.v.value) == Apply(op, a.v.value, b.v.value)
  {
    var a := EvalExpr(p, l, env, tr, fuel);
    var b := EvalExpr(p, r, env, a.tr, fuel);
    ExprSound(g, p, ts, l, RBool, env, tr, fuel);
    ExprSound(g, p, ts, r, RBool, env, a.tr, fuel);
    BitwiseIsLogical(a.v.value, b.v.value);
  }
}
