/** Translation adds no behaviour: code that halts comes from a source call that terminates. A source
    evaluation that fails with n units of fuel stands for code that does not halt within n steps. */
module IrGenExact {
  import opened Words
  import opened Source
  import opened Ir
  import opened IrGen
  import opened IrLayout
  import opened Analyzer
  import opened TypeSoundness
  import opened Runs
  import opened IrGenCorrect

  ghost predicate HaltsWithin(P: IrProgram, st: State, n: nat)
    decreases n
  {
    st.Halted? || (n > 0 && Step(P, st).Some? && HaltsWithin(P, Step(P, st).value, n - 1))
  }

  lemma {:induction false} HaltsLater(P: IrProgram, st: State, m: nat, n: nat)
    requires HaltsWithin(P, st, m) && m <= n
    ensures HaltsWithin(P, st, n)
    decreases m
  {
    hide Step;
    if m > 0 && st.Running? {
      HaltsLater(P, Step(P, st).value, m - 1, n - 1);
    }
  }

  /** What does not halt from a later state does not halt from an earlier one. */
  lemma {:induction false} NotFromHere(P: IrProgram, st: State, st1: State, n: nat)
    requires Reaches(Machine(P), st, st1) && !HaltsWithin(P, st1, n)
    ensures !HaltsWithin(P, st, n)
  {
    hide Step;
    var k: nat :| Run(Machine(P), st, st1, k);
    NotAfter(P, st, st1, k, n);
  }

  lemma {:induction false} NotAfter(P: IrProgram, st: State, st1: State, k: nat, n: nat)
    requires Run(Machine(P), st, st1, k) && !HaltsWithin(P, st1, n)
    ensures !HaltsWithin(P, st, n)
    decreases k
  {
    if k > 0 {
      NoStepHalted(P, st);
      hide Step;
      var st' := Step(P, st).value;
      NotAfter(P, st', st1, k - 1, n);
      if n > 0 && HaltsWithin(P, st', n - 1) {
        HaltsLater(P, st', n - 1, n);
      }
    }
  }

  lemma NoStepHalted(P: IrProgram, st: State)
    ensures Step(P, st).Some? ==> st.Running?
  {
    hide IrApply, ShiftDivide, ApplyUn;
  }

  /** One step uses up one unit. */
  lemma {:induction false} NotAfterStep(P: IrProgram, st: State, st1: State, n: nat)
    requires st.Running? && Step(P, st) == Some(st1) && n > 0 && !HaltsWithin(P, st1, n - 1)
    ensures !HaltsWithin(P, st, n)
  {
    hide Step;
  }

  lemma {:induction false} StuckNeverHalts(P: IrProgram, st: State, n: nat)
    requires st.Running? && Step(P, st).None?
    ensures !HaltsWithin(P, st, n)
  {
    hide Step;
  }

  lemma {:induction false} ReachedHalts(P: IrProgram, st: State, end: State, n: nat)
    requires Run(Machine(P), st, end, n) && end.Halted?
    ensures HaltsWithin(P, st, n)
    decreases n
  {
    hide Step;
    if n > 0 {
      ReachedHalts(P, Step(P, st).value, end, n - 1);
    }
  }

  /** A run has one end. */
  lemma {:induction false} OneEnd(P: IrProgram, st: State, a: State, b: State, m: nat, n: nat)
    requires Run(Machine(P), st, a, m) && Run(Machine(P), st, b, n) && a.Halted? && b.Halted?
    ensures a == b
  {
    NoStepHalted(P, a);
    NoStepHalted(P, b);
    hide Step;
    RunRest(Machine(P), st, a, b, m, n);
  }

  // ----- expressions -----

  lemma {:induction false} FailExpr(w: World, ts: Types, e: Expr, ty: RetType, env: Env, tr: Trace, fuel: nat,
                                    f: string, pc: nat, t: nat, quiet: bool, s: Store, stk: Stack)
    requires w.Ok() && ExprNames(ts, e) && EnvOk(ts, env)
    requires CheckExpr(w.p.methods, e, false) == Typed(ty, e) && (w.opt ==> ExprDivisors(e))
    requires At(w.P.code, pc, GenExpr(e, quiet, t, w.opt).code) && Agree(env, s)
    requires EvalExpr(w.p, e, env, tr, fuel).ExprFail?
    ensures !HaltsWithin(w.P, Running(f, pc, s, [], stk, tr), fuel)
    decreases fuel, 0, e, 5
  {
    hide World.Ok, At, Agree, EnvOk, Apply, HaltsWithin;
    match e
    case Binary(op, l, r) =>
      FailBinary(w, ts, op, l, r, ty, env, tr, fuel, f, pc, t, s, stk);
    case Unary(op, a) =>
      FailUnary(w, ts, op, a, ty, env, tr, fuel, f, pc, t, s, stk);
    case CallE(callee, args) =>
      FailCall(w, ts, callee, args, env, tr, fuel, f, pc, t, s, stk);
  }

  lemma {:induction false} FailUnary(w: World, ts: Types, op: UnOp, a: Expr, ty: RetType, env: Env, tr: Trace,
                                     fuel: nat, f: string, pc: nat, t: nat, s: Store, stk: Stack)
    requires w.Ok() && ExprNames(ts, a) && EnvOk(ts, env)
    requires CheckExpr(w.p.methods, a, false) == Typed(ty, a) && (w.opt ==> ExprDivisors(a))
    requires var ga := GenExpr(a, false, t, w.opt);
             At(w.P.code, pc, ga.code + [IUn(op, ga.res, Tmp(ga.t))]) && Agree(env, s)
    requires var r := EvalExpr(w.p, a, env, tr, fuel); r.ExprFail? || r.v.None?
    ensures !HaltsWithin(w.P, Running(f, pc, s, [], stk, tr), fuel)
    decreases fuel, 0, a, 6
  {
    hide World.Ok, EvalExpr, CheckExpr, GenExpr, ExprNames, ExprDivisors, At, Agree, EnvOk, Reaches, HaltsWithin;
    var ga := GenExpr(a, false, t, w.opt);
    AtUnaryParts(w.P.code, pc, ga.code, IUn(op, ga.res, Tmp(ga.t)));
    var r := EvalExpr(w.p, a, env, tr, fuel);
    if r.ExprFail? {
      FailExpr(w, ts, a, ty, env, tr, fuel, f, pc, t, false, s, stk);
    } else {
      var s1 := SimExpr(w, ts, a, ty, env, tr, fuel, f, pc, t, false, s, stk);
      var st1 := Running(f, pc + |ga.code|, s1, [], stk, r.tr);
      StuckNeverHalts(w.P, st1, fuel);
      NotFromHere(w.P, Running(f, pc, s, [], stk, tr), st1, fuel);
    }
  }

  lemma {:induction false} FailBinary(w: World, ts: Types, op: BinOp, l: Expr, r: Expr, ty: RetType, env: Env,
                                      tr: Trace, fuel: nat, f: string, pc: nat, t: nat, s: Store, stk: Stack)
    requires w.Ok() && ExprNames(ts, Binary(op, l, r)) && EnvOk(ts, env)
    requires CheckExpr(w.p.methods, Binary(op, l, r), false) == Typed(ty, Binary(op, l, r))
    requires w.opt ==> ExprDivisors(Binary(op, l, r))
    requires At(w.P.code, pc, GenExpr(Binary(op, l, r), false, t, w.opt).code) && Agree(env, s)
    requires EvalExpr(w.p, Binary(op, l, r), env, tr, fuel).ExprFail?
    ensures !HaltsWithin(w.P, Running(f, pc, s, [], stk, tr), fuel)
    decreases fuel, 0, Binary(op, l, r), 1
  {
    hide At, Agree, EnvOk, Apply, Reaches, ShiftFor, HaltsWithin, ShiftDivide;
    var gl := GenExpr(l, false, t, w.opt);
    var x := EvalExpr(w.p, l, env, tr, fuel);
    var tl := CheckExpr(w.p.methods, l, false).ty;
    if ShiftFor(op, r, w.opt).Some? {
      var k := ShiftFor(op, r, w.opt).value;
      if x.Value? && x.v.Some? {
        LiteralShift(w.p, op, r, x.v.value, env, x.tr, fuel);
      }
      FailShift(w, ts, l, tl, k, env, tr, fuel, f, pc, t, s, stk);
    } else {
      FailOperands(w, ts, op, l, r, tl, CheckExpr(w.p.methods, r, false).ty, env, tr, fuel, f, pc, t, s, stk);
    }
  }

  lemma {:induction false} FailShift(w: World, ts: Types, l: Expr, tl: RetType, k: nat, env: Env, tr: Trace, fuel: nat,
                                     f: string, pc: nat, t: nat, s: Store, stk: Stack)
    requires w.Ok() && ExprNames(ts, l) && EnvOk(ts, env)
    requires CheckExpr(w.p.methods, l, false) == Typed(tl, l) && (w.opt ==> ExprDivisors(l))
    requires var gl := GenExpr(l, false, t, w.opt);
             At(w.P.code, pc, gl.code + [IShr(gl.res, k, Tmp(gl.t))]) && Agree(env, s)
    requires var x := EvalExpr(w.p, l, env, tr, fuel); x.ExprFail? || x.v.None?
    ensures !HaltsWithin(w.P, Running(f, pc, s, [], stk, tr), fuel)
    decreases fuel, 0, l, 6
  {
    hide World.Ok, EvalExpr, CheckExpr, GenExpr, ExprNames, ExprDivisors, At, Agree, EnvOk, Reaches, HaltsWithin;
    var gl := GenExpr(l, false, t, w.opt);
    AtUnaryParts(w.P.code, pc, gl.code, IShr(gl.res, k, Tmp(gl.t)));
    var x := EvalExpr(w.p, l, env, tr, fuel);
    if x.ExprFail? {
      FailExpr(w, ts, l, tl, env, tr, fuel, f, pc, t, false, s, stk);
    } else {
      var s1 := SimExpr(w, ts, l, tl, env, tr, fuel, f, pc, t, false, s, stk);
      var st1 := Running(f, pc + |gl.code|, s1, [], stk, x.tr);
      StuckNeverHalts(w.P, st1, fuel);
      NotFromHere(w.P, Running(f, pc, s, [], stk, tr), st1, fuel);
    }
  }

  /** An operand fails or has no value, or the operator has none on them. */
  lemma {:induction false} FailOperands(w: World, ts: Types, op: BinOp, l: Expr, r: Expr, tl: RetType, tr': RetType,
                                        env: Env, tr: Trace, fuel: nat,
                                        f: string, pc: nat, t: nat, s: Store, stk: Stack)
    requires w.Ok() && ExprNames(ts, l) && ExprNames(ts, r) && EnvOk(ts, env)
    requires CheckExpr(w.p.methods, l, false) == Typed(tl, l) && CheckExpr(w.p.methods, r, false) == Typed(tr', r)
    requires w.opt ==> ExprDivisors(l) && ExprDivisors(r)
    requires var gl := GenExpr(l, false, t, w.opt);
             var gr := GenExpr(r, false, gl.t, w.opt);
             At(w.P.code, pc, gl.code + gr.code + [IBin(op, gl.res, gr.res, Tmp(gr.t))]) && Agree(env, s)
    requires var x := EvalExpr(w.p, l, env, tr, fuel);
             x.ExprFail? ||
             var y := EvalExpr(w.p, r, env, x.tr, fuel);
             y.ExprFail? || x.v.None? || y.v.None? || Apply(op, x.v.value, y.v.value).None?
    ensures !HaltsWithin(w.P, Running(f, pc, s, [], stk, tr), fuel)
    decreases fuel, 0, Binary(op, l, r), 0
  {
    hide World.Ok, EvalExpr, CheckExpr, GenExpr, ExprNames, ExprDivisors, Apply, At, Agree, EnvOk, Reaches, HaltsWithin;
    var st := Running(f, pc, s, [], stk, tr);
    var gl := GenExpr(l, false, t, w.opt);
    var gr := GenExpr(r, false, gl.t, w.opt);
    AtBinaryParts(w.P.code, pc, gl.code, gr.code, IBin(op, gl.res, gr.res, Tmp(gr.t)));
    var x := EvalExpr(w.p, l, env, tr, fuel);
    if x.ExprFail? {
      FailExpr(w, ts, l, tl, env, tr, fuel, f, pc, t, false, s, stk);
    } else {
      var y := EvalExpr(w.p, r, env, x.tr, fuel);
      var s1 := SimExpr(w, ts, l, tl, env, tr, fuel, f, pc, t, false, s, stk);
      var st1 := Running(f, pc + |gl.code|, s1, [], stk, x.tr);
      if y.ExprFail? {
        FailExpr(w, ts, r, tr', env, x.tr, fuel, f, pc + |gl.code|, gl.t, false, s1, stk);
      } else {
        var s2 := SimExpr(w, ts, r, tr', env, x.tr, fuel, f, pc + |gl.code|, gl.t, false, s1, stk);
        TempsGrow(l, false, t, w.opt);
        KeepsOperand(env, s1, s2, gl.res, gl.t);
        var st2 := Running(f, pc + |gl.code| + |gr.code|, s2, [], stk, y.tr);
        StuckOperator(w.P, st2, op, gl.res, gr.res, Tmp(gr.t));
        StuckNeverHalts(w.P, st2, fuel);
        NotFromHere(w.P, st1, st2, fuel);
      }
      NotFromHere(w.P, st, st1, fuel);
    }
  }

  lemma {:induction false} StuckOperator(P: IrProgram, st: State, op: BinOp, x: Name, y: Name, d: Name)
    requires st.Running? && st.pc < |P.code| && P.code[st.pc] == IBin(op, x, y, d)
    requires x !in st.store || y !in st.store || Apply(op, st.store[x], st.store[y]).None?
    ensures Step(P, st).None?
  {
  }

  /** Either an argument fails, or all are computed and one has no value. */
  lemma {:induction false} FailArgs(w: World, ts: Types, es: ExprList, ps: seq<Param>, env: Env, tr: Trace, fuel: nat,
                                    f: string, pc: nat, t: nat, s: Store, stk: Stack)
    returns (i: nat, s': Store, tr': Trace)
    requires w.Ok() && ArgsNames(ts, es) && EnvOk(ts, env) && ListLength(es) == |ps|
    requires CheckArgs(w.p.methods, es, ps, false) == TypedArgs(es) && (w.opt ==> ArgsDivisors(es))
    requires At(w.P.code, pc, GenArgs(es, t, w.opt).code) && Agree(env, s)
    requires EvalArgs(w.p, es, env, tr, fuel).ArgsFail?
    ensures var g := GenArgs(es, t, w.opt);
            var st := Running(f, pc, s, [], stk, tr);
            || !HaltsWithin(w.P, st, fuel)
            || (i < |g.res| && Get(s', g.res[i]) == None && Agree(env, s') && KeepsBelow(s, s', t)
                && Reaches(w.Run(), st, Running(f, pc + |g.code|, s', [], stk, tr')))
    decreases fuel, 0, es, 5
  {
    hide World.Ok, EvalExpr, CheckExpr, GenExpr, ExprNames, ExprDivisors, At, Agree, EnvOk, Reaches, HaltsWithin;
    var P := w.P;
    var st := Running(f, pc, s, [], stk, tr);
    i, s', tr' := 0, s, tr;
    var e, next := es.first, es.next;
    var g := GenExpr(e, false, t, w.opt);
    var h := GenArgs(next, g.t, w.opt);
    AtSplit(P.code, pc, g.code, h.code);
    var a := EvalExpr(w.p, e, env, tr, fuel);
    if a.ExprFail? {
      FailExpr(w, ts, e, RetOf(ps[0].ty), env, tr, fuel, f, pc, t, false, s, stk);
    } else {
      var s1 := SimExpr(w, ts, e, RetOf(ps[0].ty), env, tr, fuel, f, pc, t, false, s, stk);
      var st1 := Running(f, pc + |g.code|, s1, [], stk, a.tr);
      TempsGrow(e, false, t, w.opt);
      var r := EvalArgs(w.p, next, env, a.tr, fuel);
      if r.ArgsFail? {
        i, s', tr' := FailArgs(w, ts, next, ps[1..], env, a.tr, fuel, f, pc + |g.code|, g.t, s1, stk);
        i := i + 1;
        if !HaltsWithin(P, st1, fuel) {
          NotFromHere(P, st, st1, fuel);
          return;
        }
      } else {
        s' := SimArgs(w, ts, next, ps[1..], env, a.tr, fuel, f, pc + |g.code|, g.t, s1, stk);
        tr' := r.tr;
        KeepsOperand(env, s1, s', g.res, g.t);
      }
      ReachTrans(Machine(P), st, st1, Running(f, pc + |g.code| + |h.code|, s', [], stk, tr'));
    }
  }

  /** A PARAM run stops at an argument without a value. */
  lemma {:induction false} StuckParams(P: IrProgram, ns: seq<Name>, pc: nat, j: nat, i: nat, st: State, n: nat)
    requires j <= i < |ns| && At(P.code, pc, Params(ns))
    requires st.Running? && st.pc == pc + j && Get(st.store, ns[i]) == None
    ensures !HaltsWithin(P, st, n)
    decreases i - j
  {
    assert Params(ns)[j] == IParam(ns[j]);
    assert P.code[pc + j] == IParam(ns[j]);
    if ns[j] in st.store {
      var st1 := st.(pc := st.pc + 1, pend := st.pend + [st.store[ns[j]]]);
      if n > 0 {
        StuckParams(P, ns, pc, j + 1, i, st1, n - 1);
        NotAfterStep(P, st, st1, n);
      }
    } else {
      StuckNeverHalts(P, st, n);
    }
  }

  lemma {:induction false} FailCall(w: World, ts: Types, callee: string, args: ExprList, env: Env, tr: Trace,
                                    fuel: nat, f: string, pc: nat, t: nat, s: Store, stk: Stack)
    requires w.Ok() && ArgsNames(ts, args) && EnvOk(ts, env) && (w.opt ==> ArgsDivisors(args))
    requires Find(w.p.methods, callee).Some? && ListLength(args) == |Find(w.p.methods, callee).value.params|
    requires CheckArgs(w.p.methods, args, Find(w.p.methods, callee).value.params, false) == TypedArgs(args)
    requires At(w.P.code, pc, GenExpr(CallE(callee, args), false, t, w.opt).code) && Agree(env, s)
    requires EvalExpr(w.p, CallE(callee, args), env, tr, fuel).ExprFail?
    ensures !HaltsWithin(w.P, Running(f, pc, s, [], stk, tr), fuel)
    decreases fuel, 0, args, 6
  {
    hide World.Ok, EvalArgs, CheckArgs, CheckExpr, GenArgs, ArgsNames, ArgsDivisors, CallMethod, At, Agree, EnvOk,
         Reaches, ArgsOk, DistinctLabels, Sound, HaltsWithin, Step;
    var P, m := w.P, Find(w.p.methods, callee).value;
    var g := GenArgs(args, t, w.opt);
    AtBinaryParts(P.code, pc, g.code, Params(g.res), ICall(callee, Tmp(g.t)));
    var pc1, pc2 := pc + |g.code|, pc + |g.code| + |g.res|;
    var a := EvalArgs(w.p, args, env, tr, fuel);
    var st := Running(f, pc, s, [], stk, tr);
    if a.ArgsFail? {
      var i, s1, tr1 := FailArgs(w, ts, args, m.params, env, tr, fuel, f, pc, t, s, stk);
      if HaltsWithin(P, st, fuel) {
        var st1 := Running(f, pc1, s1, [], stk, tr1);
        StuckParams(P, g.res, pc1, 0, i, st1, fuel);
        NotFromHere(P, st, st1, fuel);
      }
    } else {
      var s1 := SimArguments(w, ts, args, m, ICall(callee, Tmp(g.t)), env, tr, fuel, f, pc, t, s, stk);
      var st2 := Running(f, pc2, s1, a.vs, stk, a.tr);
      if fuel == 0 {
        RunningAtZero(P, st2);
      } else {
        FailCallStep(w, m, a.vs, fuel - 1, st2, Tmp(g.t));
      }
      NotFromHere(P, st, st2, fuel);
    }
  }

  lemma {:induction false} FailCallStep(w: World, m: Method, vs: seq<Word>, fuel: nat, st: State, d: Name)
    requires w.Ok() && Find(w.p.methods, m.name) == Some(m) && ArgsOk(m.params, vs)
    requires st.Running? && st.pend == vs && st.pc < |w.P.code| && w.P.code[st.pc] == ICall(m.name, d)
    requires CallMethod(w.p, m.name, vs, st.tr, fuel).ExprFail?
    ensures !HaltsWithin(w.P, st, fuel + 1)
    decreases fuel, 1, SNil, 1
  {
    hide ExecList, EvalExpr, CheckList, GenList, At, Agree, Reaches, DistinctLabels, Sound;
    var stk := Push(Frame(st.f, st.pc + 1, st.store, d), st.stack);
    var st1 := FailBody(w, m, vs, st.tr + [Event(m.name, vs)], fuel, stk);
    NotAfterStep(w.P, st, st1, fuel + 1);
  }

  lemma {:induction false} FailBody(w: World, m: Method, vs: seq<Word>, tr: Trace, fuel: nat, stk: Stack)
    returns (st1: State)
    requires w.Ok() && Find(w.p.methods, m.name) == Some(m) && !m.isExtern && ArgsOk(m.params, vs)
    requires ExecList(w.p, m.body, Bind(ParamNames(m.params), vs), tr, fuel).StmtFail?
    ensures IndexOf(w.P.code, IEnter(m.name)).Some?
    ensures st1 == Running(m.name, IndexOf(w.P.code, IEnter(m.name)).value + 1,
                           BindParams(ParamNames(m.params), vs), [], stk, tr)
    ensures !HaltsWithin(w.P, st1, fuel)
    decreases fuel, 1, SNil, 0
  {
    hide World.Ok, ExecList, CheckList, GenList, Agree, EnvOk, At, MethodNames, ListNames, ArgsOk, IndexOf, Bind,
         BindParams, Find, ListDivisors, HaltsWithin;
    var q := MethodPlace(w, m);
    var Place(pos, t, l) := q;
    MethodStart(w, m, vs);
    var env, s0 := Bind(ParamNames(m.params), vs), BindParams(ParamNames(m.params), vs);
    st1 := Running(m.name, pos + 1, s0, [], stk, tr);
    FailList(w, w.g[m.name], m.body, m.ret, env, tr, fuel, m.name, pos + 1, t, l, s0, stk);
  }

  // ----- statements -----

  lemma {:induction false} FailStmt(w: World, ts: Types, s: Stmt, ret: RetType, env: Env, tr: Trace, fuel: nat,
                                    f: string, pc: nat, t: nat, l: nat, m: Store, stk: Stack)
    requires w.Ok() && StmtNames(ts, s) && EnvOk(ts, env)
    requires CheckStmt(w.p.methods, s, ret, false) == TypedStmt(s) && (w.opt ==> StmtDivisors(s))
    requires At(w.P.code, pc, GenStmt(s, t, l, w.opt).code) && Agree(env, m)
    requires Exec(w.p, s, env, tr, fuel).StmtFail?
    ensures !HaltsWithin(w.P, Running(f, pc, m, [], stk, tr), fuel)
    decreases fuel, 0, s, 5
  {
    hide EvalExpr, EvalArgs, CheckExpr, CheckArgs, GenExpr, GenArgs, ExprNames, ExprDivisors, At, Agree, EnvOk,
         Reaches, ExecList, GenList, HaltsWithin, CallMethod;
    match s
    case Assign(x, ty, e) =>
      LiteralEvaluates(w.p, e, env, tr, fuel);
      var g := GenExpr(e, true, t, w.opt);
      AtUnaryParts(w.P.code, pc, g.code, IStore(Loc(g.res), Var(x)));
      FailExpr(w, ts, e, RetOf(ty), env, tr, fuel, f, pc, t, true, m, stk);
    case Decl(x, ty, init) =>
      var g := GenExpr(init.value, true, t, w.opt);
      AtUnaryParts(w.P.code, pc, g.code, IStore(Loc(g.res), Var(x)));
      FailExpr(w, ts, init.value, CheckExpr(w.p.methods, init.value, false).ty, env, tr, fuel, f, pc, t, true, m, stk);
    case CallS(callee, args) =>
      FailCallStmt(w, ts, callee, args, ret, env, tr, fuel, f, pc, t, m, stk);
    case Return(val) =>
      var g := GenExpr(val.value, false, t, w.opt);
      AtUnaryParts(w.P.code, pc, g.code, IRet(Some(g.res)));
      FailExpr(w, ts, val.value, ret, env, tr, fuel, f, pc, t, false, m, stk);
    case If(cond, thn, els) =>
      FailIf(w, ts, cond, thn, els, ret, env, tr, fuel, f, pc, t, l, m, stk);
    case While(cond, body) =>
      FailWhile(w, ts, cond, body, ret, env, tr, fuel, f, pc, t, l, m, stk);
    case Block(ss) =>
      FailList(w, ts, ss, ret, env, tr, fuel, f, pc, t, l, m, stk);
  }

  lemma LiteralEvaluates(p: Program, e: Expr, env: Env, tr: Trace, fuel: nat)
    ensures IsLiteral(e) ==> EvalExpr(p, e, env, tr, fuel).Value?
  {
  }

  lemma {:induction false} FailCallStmt(w: World, ts: Types, callee: string, args: ExprList, ret: RetType,
                                        env: Env, tr: Trace, fuel: nat,
                                        f: string, pc: nat, t: nat, m: Store, stk: Stack)
    requires w.Ok() && StmtNames(ts, CallS(callee, args)) && EnvOk(ts, env)
    requires CheckStmt(w.p.methods, CallS(callee, args), ret, false) == TypedStmt(CallS(callee, args))
    requires w.opt ==> StmtDivisors(CallS(callee, args))
    requires At(w.P.code, pc, GenStmt(CallS(callee, args), t, 0, w.opt).code) && Agree(env, m)
    requires Exec(w.p, CallS(callee, args), env, tr, fuel).StmtFail?
    ensures !HaltsWithin(w.P, Running(f, pc, m, [], stk, tr), fuel)
    decreases fuel, 0, CallS(callee, args), 0
  {
    hide World.Ok, EvalArgs, CheckArgs, GenArgs, ArgsNames, ArgsDivisors, At, Agree, EnvOk, CallMethod, HaltsWithin;
    CallStmtIsCall(w.p, callee, args, env, tr, fuel);
    FailCall(w, ts, callee, args, env, tr, fuel, f, pc, t, m, stk);
  }

  lemma {:induction false} FailIf(w: World, ts: Types, cond: Expr, thn: StmtList, els: StmtList, ret: RetType,
                                  env: Env, tr: Trace, fuel: nat,
                                  f: string, pc: nat, t: nat, l: nat, m: Store, stk: Stack)
    requires var s := If(cond, thn, els);
             && w.Ok() && StmtNames(ts, s) && EnvOk(ts, env)
             && CheckStmt(w.p.methods, s, ret, false) == TypedStmt(s) && (w.opt ==> StmtDivisors(s))
             && At(w.P.code, pc, GenStmt(s, t, l, w.opt).code) && Agree(env, m)
             && Exec(w.p, s, env, tr, fuel).StmtFail?
    ensures !HaltsWithin(w.P, Running(f, pc, m, [], stk, tr), fuel)
    decreases fuel, 0, If(cond, thn, els), 0
  {
    hide EvalExpr, ExecList, GenExpr, GenList, CheckList, CheckExpr, ListNames, ListDivisors, ExprNames, ExprDivisors,
         At, Agree, EnvOk, Reaches, IfCode, HaltsWithin;
    var P := w.P;
    var c := GenExpr(cond, false, t, w.opt);
    var g := GenList(thn, c.t, l + 2, w.opt);
    var h := GenList(els, g.t, g.l, w.opt);
    AtIfParts(P.code, pc, c, g.code, h.code, l);
    var q := pc + |c.code|;
    var qe := q + |g.code| + 3;
    var st := Running(f, pc, m, [], stk, tr);
    var v := EvalExpr(w.p, cond, env, tr, fuel);
    if v.ExprFail? {
      FailExpr(w, ts, cond, RBool, env, tr, fuel, f, pc, t, false, m, stk);
    } else {
      var m1 := SimExpr(w, ts, cond, RBool, env, tr, fuel, f, pc, t, false, m, stk);
      var st1 := Running(f, q, m1, [], stk, v.tr);
      if v.v.None? {
        SelectAt(P.code, pc, c, g.code, h.code, l);
        StuckNeverHalts(P, st1, fuel);
        NotFromHere(P, st, st1, fuel);
      } else {
        RunSelect(P, c, g.code, h.code, l, pc, st, st1);
        if v.v.value != 0 {
          FailList(w, ts, thn, ret, env, v.tr, fuel, f, q + 1, c.t, l + 2, m1, stk);
          NotFromHere(P, st, st1.(pc := q + 1), fuel);
        } else {
          FailList(w, ts, els, ret, env, v.tr, fuel, f, qe, g.t, g.l, m1, stk);
          NotFromHere(P, st, st1.(pc := qe), fuel);
        }
      }
    }
  }

  lemma SelectAt(code: Code, pc: nat, c: ExprGen, thn: Code, els: Code, l: nat)
    requires At(code, pc, IfCode(c, thn, els, l))
    ensures pc + |c.code| < |code| && code[pc + |c.code|] == IJmpf(c.res, l)
  {
    AtIf(code, pc, c, thn, els, l);
  }

  lemma TestAt(code: Code, pc: nat, c: ExprGen, body: Code, l: nat)
    requires At(code, pc, WhileCode(c, body, l))
    ensures pc + 1 + |c.code| < |code| && code[pc + 1 + |c.code|] == IJmpf(c.res, l + 1)
    ensures code[pc] == ILabel(l)
  {
    AtWhile(code, pc, c, body, l);
  }

  lemma {:induction false} FailWhile(w: World, ts: Types, cond: Expr, body: StmtList, ret: RetType,
                                     env: Env, tr: Trace, fuel: nat,
                                     f: string, pc: nat, t: nat, l: nat, m: Store, stk: Stack)
    requires var s := While(cond, body);
             && w.Ok() && StmtNames(ts, s) && EnvOk(ts, env)
             && CheckStmt(w.p.methods, s, ret, false) == TypedStmt(s) && (w.opt ==> StmtDivisors(s))
             && At(w.P.code, pc, GenStmt(s, t, l, w.opt).code) && Agree(env, m)
             && Exec(w.p, s, env, tr, fuel).StmtFail?
    ensures !HaltsWithin(w.P, Running(f, pc, m, [], stk, tr), fuel)
    decreases fuel, 0, While(cond, body), 1
  {
    hide EvalExpr, ExecList, GenExpr, GenList, CheckList, CheckExpr, ListNames, ListDivisors, ExprNames, ExprDivisors,
         At, Agree, EnvOk, Reaches, WhileCode, HaltsWithin;
    var P := w.P;
    var c := GenExpr(cond, false, t, w.opt);
    var g := GenList(body, c.t, l + 2, w.opt);
    AtWhileParts(P.code, pc, c, g.code, l);
    TestAt(P.code, pc, c, g.code, l);
    var q := pc + 1 + |c.code|;
    var st := Running(f, pc, m, [], stk, tr);
    ReachSelf(Machine(P), st);
    RunHead(P, c, g.code, l, pc, st, st);
    var st0 := st.(pc := pc + 1);
    var v := EvalExpr(w.p, cond, env, tr, fuel);
    if v.ExprFail? {
      FailExpr(w, ts, cond, RBool, env, tr, fuel, f, pc + 1, t, false, m, stk);
      NotFromHere(P, st, st0, fuel);
    } else {
      var m1 := SimExpr(w, ts, cond, RBool, env, tr, fuel, f, pc + 1, t, false, m, stk);
      var st1 := Running(f, q, m1, [], stk, v.tr);
      if v.v.None? {
        StuckNeverHalts(P, st1, fuel);
        NotFromHere(P, st0, st1, fuel);
        NotFromHere(P, st, st0, fuel);
      } else {
        RunTest(P, c, g.code, l, pc, st0, st1);
        FailRound(w, ts, cond, body, ret, env, v.tr, fuel, f, pc, t, l, m1, stk);
        if fuel == 0 {
          RunningAtZero(P, st);
        } else {
          NotFromHere(P, st0, st1.(pc := q + 1), fuel - 1);
          NotAfterStep(P, st, st0, fuel);
        }
      }
    }
  }

  lemma {:induction false} RunningAtZero(P: IrProgram, st: State)
    requires st.Running?
    ensures !HaltsWithin(P, st, 0)
  {
  }

  /** One round of a loop that fails, from the start of its body: the body fails, or a later round. */
  lemma {:induction false} FailRound(w: World, ts: Types, cond: Expr, body: StmtList, ret: RetType,
                                     env: Env, tr: Trace, fuel: nat,
                                     f: string, pc: nat, t: nat, l: nat, m: Store, stk: Stack)
    requires var s := While(cond, body);
             && w.Ok() && StmtNames(ts, s) && EnvOk(ts, env)
             && CheckStmt(w.p.methods, s, ret, false) == TypedStmt(s) && (w.opt ==> StmtDivisors(s))
             && At(w.P.code, pc, GenStmt(s, t, l, w.opt).code) && Agree(env, m)
    requires var b := ExecList(w.p, body, env, tr, fuel);
             b.StmtFail? ||
             (b.Normal? && (fuel == 0 || Exec(w.p, While(cond, body), b.env, b.tr, fuel - 1).StmtFail?))
    ensures fuel > 0 ==>
      !HaltsWithin(w.P, Running(f, pc + 2 + |GenExpr(cond, false, t, w.opt).code|, m, [], stk, tr), fuel - 1)
    decreases fuel, 0, While(cond, body), 0
  {
    hide EvalExpr, ExecList, Exec, GenExpr, GenList, CheckList, CheckExpr, ListNames, ListDivisors, ExprNames,
         ExprDivisors, At, Agree, EnvOk, Reaches, WhileCode, HaltsWithin;
    var P, s := w.P, While(cond, body);
    var c := GenExpr(cond, false, t, w.opt);
    var g := GenList(body, c.t, l + 2, w.opt);
    AtWhileParts(P.code, pc, c, g.code, l);
    var q := pc + 2 + |c.code|;
    var st := Running(f, q, m, [], stk, tr);
    var b := ExecList(w.p, body, env, tr, fuel);
    if fuel > 0 {
      if b.StmtFail? {
        FailList(w, ts, body, ret, env, tr, fuel, f, q, c.t, l + 2, m, stk);
        if HaltsWithin(P, st, fuel - 1) {
          HaltsLater(P, st, fuel - 1, fuel);
        }
      } else {
        var m1 := SimList(w, ts, body, ret, env, tr, fuel, f, q, c.t, l + 2, m, stk);
        var st1 := After(b, f, q + |g.code|, m1, stk);
        ListSound(w.g, w.p, ts, body, ret, env, tr, fuel);
        RunBack(P, c, g.code, l, pc, st, st1);
        FailWhile(w, ts, cond, body, ret, b.env, b.tr, fuel - 1, f, pc, t, l, m1, stk);
        NotFromHere(P, st, st1.(pc := pc), fuel - 1);
      }
    }
  }

  lemma {:induction false} FailList(w: World, ts: Types, ss: StmtList, ret: RetType, env: Env, tr: Trace, fuel: nat,
                                    f: string, pc: nat, t: nat, l: nat, m: Store, stk: Stack)
    requires w.Ok() && ListNames(ts, ss) && EnvOk(ts, env)
    requires CheckList(w.p.methods, ss, ret, false) == TypedList(ss) && (w.opt ==> ListDivisors(ss))
    requires At(w.P.code, pc, GenList(ss, t, l, w.opt).code) && Agree(env, m)
    requires ExecList(w.p, ss, env, tr, fuel).StmtFail?
    ensures !HaltsWithin(w.P, Running(f, pc, m, [], stk, tr), fuel)
    decreases fuel, 0, ss, 5
  {
    hide Exec, GenStmt, CheckStmt, StmtNames, StmtDivisors, At, Agree, EnvOk, Reaches, HaltsWithin;
    var P := w.P;
    var s, next := ss.first, ss.next;
    var g := GenStmt(s, t, l, w.opt);
    var a := Exec(w.p, s, env, tr, fuel);
    if s.Return? {
      ReturnReturns(w.p, s.val, env, tr, fuel);
    }
    if !(w.opt && s.Return?) {
      AtSplit(P.code, pc, g.code, GenList(next, g.t, g.l, w.opt).code);
    }
    if a.StmtFail? {
      FailStmt(w, ts, s, ret, env, tr, fuel, f, pc, t, l, m, stk);
    } else {
      var m1 := SimStmt(w, ts, s, ret, env, tr, fuel, f, pc, t, l, m, stk);
      StmtSound(w.g, w.p, ts, s, ret, env, tr, fuel);
      FailList(w, ts, next, ret, a.env, a.tr, fuel, f, pc + |g.code|, g.t, g.l, m1, stk);
      NotFromHere(P, Running(f, pc, m, [], stk, tr), After(a, f, pc + |g.code|, m1, stk), fuel);
    }
  }

  // ----- whole programs -----

  /** The source call terminates with value v and events tr'. */
  ghost predicate Terminates(p: Program, f: string, vs: seq<Word>, tr: Trace, v: Option<Word>, tr': Trace) {
    exists fuel: nat :: CallMethod(p, f, vs, tr, fuel) == Value(v, tr')
  }

  lemma {:induction false} FailsSoNoHalt(w: World, m: Method, vs: seq<Word>, tr: Trace, fuel: nat)
    requires w.Ok() && Find(w.p.methods, m.name) == Some(m) && !m.isExtern && ArgsOk(m.params, vs)
    requires CallMethod(w.p, m.name, vs, tr, fuel).ExprFail?
    ensures var start := Start(w.P, m.name, vs, tr + [Event(m.name, vs)]);
            start.Some? && !HaltsWithin(w.P, start.value, fuel)
  {
    hide ExecList, EvalExpr, Reaches, DistinctLabels, ListDivisors, BindParams, Bind, HaltsWithin;
    var st1 := FailBody(w, m, vs, tr + [Event(m.name, vs)], fuel, NoFrame);
  }

  /** A source call terminates with a value and events exactly when its code halts with them. */
  lemma {:induction false} TranslationExact(g: map<string, Types>, p: Program, opt: bool, f: string, vs: seq<Word>,
                                            tr: Trace, v: Option<Word>, tr': Trace)
    requires Translatable(g, p, opt) && Find(p.methods, f).Some? && !Find(p.methods, f).value.isExtern
    requires ArgsOk(Find(p.methods, f).value.params, vs)
    ensures var start := Start(Translate(p, opt), f, vs, tr + [Event(f, vs)]);
            && start.Some?
            && (Terminates(p, f, vs, tr, v, tr') <==> Reaches(Machine(Translate(p, opt)), start.value, Halted(v, tr')))
  {
    hide GenMethods, CallMethod, ArgsOk, Start, Sound, Step, HaltsWithin;
    var w := MakeWorld(g, p, opt);
    var m := Find(p.methods, f).value;
    var tr1 := tr + [Event(f, vs)];
    StartExists(w, m, vs, tr);
    var st := Start(w.P, f, vs, tr1).value;
    if Terminates(p, f, vs, tr, v, tr') {
      var fuel: nat :| CallMethod(p, f, vs, tr, fuel) == Value(v, tr');
      BodyHalts(w, m, vs, tr, fuel);
    }
    if Reaches(Machine(w.P), st, Halted(v, tr')) {
      var n: nat :| Run(Machine(w.P), st, Halted(v, tr'), n);
      HaltingTerminates(w, m, vs, tr, v, tr', n);
    }
  }

  lemma {:induction false} StartExists(w: World, m: Method, vs: seq<Word>, tr: Trace)
    requires w.Ok() && Find(w.p.methods, m.name) == Some(m) && !m.isExtern && ArgsOk(m.params, vs)
    ensures Start(w.P, m.name, vs, tr + [Event(m.name, vs)]).Some?
  {
    hide CallMethod;
    var r := CallMethod(w.p, m.name, vs, tr, 0);
    if r.Value? {
      BodyHalts(w, m, vs, tr, 0);
    } else {
      FailsSoNoHalt(w, m, vs, tr, 0);
    }
  }

  lemma {:induction false} HaltingTerminates(w: World, m: Method, vs: seq<Word>, tr: Trace, v: Option<Word>, tr': Trace,
                                             n: nat)
    requires w.Ok() && Find(w.p.methods, m.name) == Some(m) && !m.isExtern && ArgsOk(m.params, vs)
    requires Start(w.P, m.name, vs, tr + [Event(m.name, vs)]).Some?
    requires Run(Machine(w.P), Start(w.P, m.name, vs, tr + [Event(m.name, vs)]).value, Halted(v, tr'), n)
    ensures Terminates(w.p, m.name, vs, tr, v, tr')
  {
    hide CallMethod, Start, Step, HaltsWithin;
    var st := Start(w.P, m.name, vs, tr + [Event(m.name, vs)]).value;
    var r := CallMethod(w.p, m.name, vs, tr, n);
    ReachedHalts(w.P, st, Halted(v, tr'), n);
    if r.ExprFail? {
      FailsSoNoHalt(w, m, vs, tr, n);
    } else {
      BodyHalts(w, m, vs, tr, n);
      var k: nat :| Run(Machine(w.P), st, Halted(r.v, r.tr), k);
      OneEnd(w.P, st, Halted(v, tr'), Halted(r.v, r.tr), n, k);
    }
  }
}
