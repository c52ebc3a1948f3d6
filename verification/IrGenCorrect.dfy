/** Translation preserves meaning: whatever a source program computes, its three-address code computes,
    with the same calls in the same order. */
module IrGenCorrect {
  import opened Words
  import opened Source
  import opened Ir
  import opened IrGen
  import opened IrLayout
  import opened Analyzer
  import opened TypeSoundness
  import opened IrRuns
  import opened Runs

  // ----- the divisor guard -----

  /** No identifier in a divisor position passes the power-of-two test: the guard does not check that
      the leaf is a literal. */
  ghost predicate ExprDivisors(e: Expr)
    decreases e
  {
    match e
    case Binary(op, l, r) =>
      && (r.Id? ==> ShiftFor(op, r, true).None?)
      && ExprDivisors(l) && ExprDivisors(r)
    case Unary(_, a) => ExprDivisors(a)
    case CallE(_, args) => ArgsDivisors(args)
    case _ => true
  }

  ghost predicate ArgsDivisors(es: ExprList)
    decreases es
  {
    match es
    case NoExpr => true
    case ExprCons(e, next) => ExprDivisors(e) && ArgsDivisors(next)
  }

  ghost predicate StmtDivisors(s: Stmt)
    decreases s
  {
    match s
    case Assign(_, _, e) => ExprDivisors(e)
    case Decl(_, _, init) => init.Some? ==> ExprDivisors(init.value)
    case CallS(_, args) => ArgsDivisors(args)
    case Return(val) => val.Some? ==> ExprDivisors(val.value)
    case If(c, thn, els) => ExprDivisors(c) && ListDivisors(thn) && ListDivisors(els)
    case While(c, body) => ExprDivisors(c) && ListDivisors(body)
    case Block(ss) => ListDivisors(ss)
  }

  ghost predicate ListDivisors(ss: StmtList)
    decreases ss
  {
    match ss
    case SNil => true
    case SCons(s, next) => StmtDivisors(s) && ListDivisors(next)
  }

  /** A literal divisor that passes the test: its value is 2^k and the shift computes the quotient. */
  lemma LiteralShift(p: Program, op: BinOp, r: Expr, a: Word, env: Env, tr: Trace, fuel: nat)
    requires ShiftFor(op, r, true).Some? && !r.Id?
    ensures op == Div
    ensures var v := EvalExpr(p, r, env, tr, fuel);
            v.Value? && v.v.Some? && v.tr == tr
            && Apply(Div, a, v.v.value) == Some(ShiftDivide(a, ShiftFor(op, r, true).value))
  {
    var v: CInt := LeafBits(r).value;
    ShiftPower(op, r);
    assert EvalExpr(p, r, env, tr, fuel) == Value(Some(v as Word), tr);
    hide ShiftFor, PowerOfTwoTest, ShiftDivide, Ctz, TruncDiv, EvalExpr, Pow2;
    ShiftIsTruncDiv(a, ShiftFor(op, r, true).value);
  }

  lemma ShiftPower(op: BinOp, r: Expr)
    requires ShiftFor(op, r, true).Some?
    ensures op == Div && LeafBits(r).Some? && LeafBits(r).value == Pow2(ShiftFor(op, r, true).value)
    ensures LeafBits(r).value > 0
  {
    PowerOfTwoTestExact(LeafBits(r).value);
    hide PowerOfTwoTest, Ctz, Pow2;
  }

  /** The quotient the shift stands for, whenever the division has a meaning. */
  ghost predicate ShiftComputes(p: Program, r: Expr, k: nat, a: Word, env: Env)
    requires k <= 30
  {
    var v := EvalExpr(p, r, env, [], 0);
    v.Value? && v.v.Some? && Apply(Div, a, v.v.value).Some? ==>
      Apply(Div, a, v.v.value) == Some(ShiftDivide(a, k))
  }

  lemma FourBy(d: int)
    requires d >= 1
    ensures TruncDiv(4, d) != TruncDiv(4, if d == 1 then 2 else 1)
  {
    if d > 4 {
      assert 4 / d == 0;
    }
  }

  lemma {:induction false} IdentifierShiftFails(p: Program, r: Expr, k: nat)
    requires k <= 30 && r.Id?
    ensures exists a: Word, env: Env :: !ShiftComputes(p, r, k, a, env)
  {
    hide Pow2, ShiftDivide, TruncDiv, CallMethod;
    var b: Word := if Pow2(k) == 1 then 2 else 1;
    var env: Env := map[r.x := b];
    ShiftIsTruncDiv(4, k);
    FourBy(Pow2(k));
    assert EvalExpr(p, r, env, [], 0) == Value(Some(b), []);
    assert Apply(Div, 4, b) == Some(TruncDiv(4, b));
    assert !ShiftComputes(p, r, k, 4, env);
  }

  /** A division replaced by a shift is computed for every dividend and all variables exactly when the
      divisor is a literal: the guard itself does not look. */
  lemma ShiftedDivisionExact(p: Program, r: Expr, k: nat)
    requires ShiftFor(Div, r, true) == Some(k)
    ensures (forall a: Word, env: Env :: ShiftComputes(p, r, k, a, env)) <==> !r.Id?
  {
    if r.Id? {
      IdentifierShiftFails(p, r, k);
    } else {
      forall a: Word, env: Env
        ensures ShiftComputes(p, r, k, a, env)
      {
        LiteralShift(p, Div, r, a, env, [], 0);
      }
    }
  }

  /** Which instruction computes a binary node: a shift exactly for an optimised division whose divisor is a
      leaf that reads as a power of two, by its exponent; the operator itself otherwise. */
  lemma {:induction false} ShiftEmitted(op: BinOp, l: Expr, r: Expr, quiet: bool, t: nat, opt: bool)
    ensures var code := GenExpr(Binary(op, l, r), quiet, t, opt).code;
            && code != []
            && var last := code[|code| - 1];
               && (last.IShr? <==> opt && op == Div && exists k: nat :: k <= 30 && LeafBits(r) == Some(Pow2(k)))
               && (last.IShr? ==> LeafBits(r) == Some(Pow2(last.k)))
               && (!last.IShr? ==> last.IBin? && last.op == op)
  {
    hide Pow2, Ctz, PowerOfTwoTest;
    if LeafBits(r).Some? {
      PowerOfTwoTestExact(LeafBits(r).value);
    }
  }

  /** The operands of the LOAD instructions, in order. */
  function Loaded(code: Code): seq<Name> {
    if code == [] then []
    else Loaded(code[..|code| - 1]) + (match code[|code| - 1] case ILoad(a) => [a] case _ => [])
  }

  lemma {:induction false} LoadedAppend(c: Code, d: Code)
    ensures Loaded(c + d) == Loaded(c) + Loaded(d)
    decreases |d|
  {
    if d == [] {
      assert c + d == c;
    } else {
      var d0 := d[..|d| - 1];
      assert (c + d)[..|c + d| - 1] == c + d0;
      LoadedAppend(c, d0);
    }
  }

  /** The identifiers of e from left to right, without the divisors that a shift replaces. */
  function Identifiers(e: Expr, opt: bool): seq<Name>
    decreases e
  {
    match e
    case Id(x, _, _) => [Var(x)]
    case Binary(op, l, r) =>
      Identifiers(l, opt) + (if ShiftFor(op, r, opt).Some? then [] else Identifiers(r, opt))
    case Unary(_, a) => Identifiers(a, opt)
    case CallE(_, args) => ArgIdentifiers(args, opt)
    case _ => []
  }

  function ArgIdentifiers(es: ExprList, opt: bool): seq<Name>
    decreases es
  {
    match es
    case NoExpr => []
    case ExprCons(e, next) => Identifiers(e, opt) + ArgIdentifiers(next, opt)
  }

  lemma {:induction false} NoneLoaded(c: Code)
    requires forall i :: 0 <= i < |c| ==> !c[i].ILoad?
    ensures Loaded(c) == []
    decreases |c|
  {
    if c != [] {
      NoneLoaded(c[..|c| - 1]);
    }
  }

  /** An expression's code loads each of its identifiers once, in order, unless it is an identifier that is
      assigned. */
  lemma {:induction false} LoadsEmitted(e: Expr, quiet: bool, t: nat, opt: bool)
    ensures Loaded(GenExpr(e, quiet, t, opt).code) == if quiet && e.Id? then [] else Identifiers(e, opt)
    decreases e
  {
    hide Loaded, ShiftFor;
    var g := GenExpr(e, quiet, t, opt);
    match e
    case Binary(op, l, r) =>
      var gl := GenExpr(l, false, t, opt);
      var last := [g.code[|g.code| - 1]];
      NoneLoaded(last);
      LoadsEmitted(l, false, t, opt);
      if ShiftFor(op, r, opt).Some? {
        LoadedAppend(gl.code, last);
      } else {
        var gr := GenExpr(r, false, gl.t, opt);
        LoadsEmitted(r, false, gl.t, opt);
        LoadedAppend(gl.code, gr.code);
        LoadedAppend(gl.code + gr.code, last);
      }
    case Unary(_, a) =>
      LoadsEmitted(a, false, t, opt);
      var ga := GenExpr(a, false, t, opt);
      NoneLoaded([g.code[|g.code| - 1]]);
      LoadedAppend(ga.code, [g.code[|g.code| - 1]]);
    case CallE(f, args) =>
      ArgLoads(args, t, opt);
      var ga := GenArgs(args, t, opt);
      var call := [ICall(f, Tmp(ga.t))];
      NoneLoaded(Params(ga.res));
      NoneLoaded(call);
      LoadedAppend(ga.code, Params(ga.res));
      LoadedAppend(ga.code + Params(ga.res), call);
    case Id(x, _, _) => OneLoaded(Var(x));
    case _ => NoneLoaded(g.code);
  }

  lemma {:induction false} OneLoaded(n: Name)
    ensures Loaded([]) == [] && Loaded([ILoad(n)]) == [n]
  {
    assert [ILoad(n)][..0] == [];
  }

  lemma {:induction false} ArgLoads(es: ExprList, t: nat, opt: bool)
    ensures Loaded(GenArgs(es, t, opt).code) == ArgIdentifiers(es, opt)
    decreases es
  {
    hide Loaded;
    match es
    case NoExpr => NoneLoaded([]);
    case ExprCons(e, next) =>
      var g := GenExpr(e, false, t, opt);
      LoadsEmitted(e, false, t, opt);
      ArgLoads(next, g.t, opt);
      LoadedAppend(g.code, GenArgs(next, g.t, opt).code);
  }

  /** A literal is stored directly, using no temporary, by optimised assignments of one and nowhere else. */
  lemma {:induction false} LiteralStored(s: Stmt, e: Expr, t: nat, l: nat, opt: bool)
    requires (s.Assign? && s.e == e) || (s.Decl? && s.init == Some(e))
    ensures var g := GenStmt(s, t, l, opt);
            && g.code != [] && g.code[|g.code| - 1].IStore?
            && (g.code[|g.code| - 1].src.Lit? <==> opt && s.Assign? && IsLiteral(e))
            && (opt && s.Assign? && IsLiteral(e) ==> g == StmtGen([IStore(Lit(LiteralValue(e)), Var(s.x))], t, l))
  {
    hide GenExpr;
  }

  function Followed(ss: StmtList, next: StmtList): StmtList {
    match ss
    case SNil => next
    case SCons(s, rest) => SCons(s, Followed(rest, next))
  }

  predicate HasReturn(ss: StmtList) {
    match ss
    case SNil => false
    case SCons(s, rest) => s.Return? || HasReturn(rest)
  }

  /** The code of a block is the code of its parts in order, as long as no optimised return stands in the first
      part. */
  lemma {:induction false} BlockInParts(ss: StmtList, next: StmtList, t: nat, l: nat, opt: bool)
    requires !(opt && HasReturn(ss))
    ensures var g := GenList(ss, t, l, opt);
            var h := GenList(next, g.t, g.l, opt);
            GenList(Followed(ss, next), t, l, opt) == StmtGen(g.code + h.code, h.t, h.l)
  {
    hide GenStmt;
    match ss
    case SNil =>
      var h := GenList(next, t, l, opt);
      assert [] + h.code == h.code;
    case SCons(s, rest) =>
      var g := GenStmt(s, t, l, opt);
      BlockInParts(rest, next, g.t, g.l, opt);
      var h := GenList(rest, g.t, g.l, opt);
      var k := GenList(next, h.t, h.l, opt);
      assert g.code + (h.code + k.code) == (g.code + h.code) + k.code;
  }

  /** What follows a return in its block leaves no trace in optimised code. */
  lemma {:induction false} CutAfterReturn(ss: StmtList, val: Option<Expr>, next: StmtList, t: nat, l: nat)
    ensures GenList(Followed(ss, SCons(Return(val), next)), t, l, true)
         == GenList(Followed(ss, SCons(Return(val), SNil)), t, l, true)
  {
    hide GenStmt;
    match ss
    case SNil =>
    case SCons(s, rest) =>
      var g := GenStmt(s, t, l, true);
      CutAfterReturn(rest, val, next, g.t, g.l);
  }

  // ----- the compiled program -----

  /** Where a method's code starts, and the counters it was generated with. */
  datatype Place = Place(pos: nat, t: nat, l: nat)

  /** A typed source program, its code, and the place of each method in it. */
  datatype World = World(g: map<string, Types>, p: Program, opt: bool, P: IrProgram, place: map<string, Place>) {
    ghost predicate Ok() {
      && Sound(g, p)
      && (opt ==> forall m :: m in p.methods && !m.isExtern ==> ListDivisors(m.body))
      && DistinctLabels(P.code)
      && P.ext == p.ext
      && (forall f :: Find(p.methods, f).Some? ==>
            f in P.sigs && P.sigs[f] == SigOf(Find(p.methods, f).value) && Placed(Find(p.methods, f).value))
    }

    ghost predicate Placed(m: Method) {
      m.isExtern ||
        (m.name in place &&
         var q := place[m.name];
         IndexOf(P.code, IEnter(m.name)) == Some(q.pos) && At(P.code, q.pos, GenMethod(m, q.t, q.l, opt).code))
    }

    function Run(): State -> Option<State> {
      Machine(P)
    }
  }

  ghost predicate Agree(env: Env, s: Store) {
    forall x :: Get(env, x) == Get(s, Var(x))
  }

  /** Temporaries below t keep their values. */
  ghost predicate KeepsBelow(s: Store, s': Store, t: nat) {
    forall k: nat :: k < t ==> Get(s', Tmp(k)) == Get(s, Tmp(k))
  }

  lemma {:induction false} BindAgree(xs: seq<string>, vs: seq<Word>)
    requires |xs| == |vs|
    ensures Agree(Bind(xs, vs), BindParams(xs, vs))
    decreases |xs|
  {
    if xs != [] {
      var n := |xs| - 1;
      BindAgree(xs[..n], vs[..n]);
      forall x
        ensures Get(Bind(xs, vs), x) == Get(BindParams(xs, vs), Var(x))
      {
        assert Get(Bind(xs[..n], vs[..n]), x) == Get(BindParams(xs[..n], vs[..n]), Var(x));
      }
    }
  }

  lemma {:induction false} TempsGrow(e: Expr, quiet: bool, t: nat, opt: bool)
    ensures GenExpr(e, quiet, t, opt).t >= t
    ensures var r := GenExpr(e, quiet, t, opt).res; r.Tmp? ==> r.k < GenExpr(e, quiet, t, opt).t
    decreases e
  {
    match e
    case Binary(op, l, r) =>
      TempsGrow(l, false, t, opt);
      TempsGrow(r, false, GenExpr(l, false, t, opt).t, opt);
    case Unary(_, a) => TempsGrow(a, false, t, opt);
    case CallE(_, args) => ArgTempsGrow(args, t, opt);
    case _ =>
  }

  lemma {:induction false} ArgTempsGrow(es: ExprList, t: nat, opt: bool)
    ensures GenArgs(es, t, opt).t >= t
    decreases es
  {
    match es
    case NoExpr =>
    case ExprCons(e, next) =>
      TempsGrow(e, false, t, opt);
      ArgTempsGrow(next, GenExpr(e, false, t, opt).t, opt);
  }

  /** An operand computed before other code still has its value after it. */
  lemma KeepsOperand(env: Env, s1: Store, s2: Store, n: Name, t: nat)
    requires Agree(env, s1) && Agree(env, s2) && KeepsBelow(s1, s2, t) && (n.Tmp? ==> n.k < t)
    ensures Get(s2, n) == Get(s1, n)
  {
    if n.Var? {
      assert Get(env, n.x) == Get(s1, n) && Get(env, n.x) == Get(s2, n);
    }
  }

  lemma NewTempAgree(env: Env, s: Store, s1: Store, k: nat, t: nat, v: Option<Word>)
    requires Agree(env, s1) && KeepsBelow(s, s1, t) && t <= k
    ensures Agree(env, Set(s1, Tmp(k), v)) && KeepsBelow(s, Set(s1, Tmp(k), v), t)
  {
    var s' := Set(s1, Tmp(k), v);
    forall x
      ensures Get(env, x) == Get(s', Var(x))
    {
      assert Get(s', Var(x)) == Get(s1, Var(x));
    }
  }

  // ----- expressions -----

  lemma SimLeaf(P: IrProgram, e: Expr, env: Env, f: string, pc: nat, t: nat, quiet: bool, opt: bool,
                s: Store, stk: Stack, tr: Trace) returns (s': Store)
    requires e.IntLit? || e.BoolLit? || e.Id?
    requires At(P.code, pc, GenExpr(e, quiet, t, opt).code) && Agree(env, s)
    ensures var g := GenExpr(e, quiet, t, opt);
            && Reaches(Machine(P), Running(f, pc, s, [], stk, tr), Running(f, pc + |g.code|, s', [], stk, tr))
            && Agree(env, s') && KeepsBelow(s, s', t)
            && Get(s', g.res) == (match e
                                  case IntLit(n) => Some(n as Word)
                                  case BoolLit(b) => Some(BoolWord(b))
                                  case _ => Get(env, e.x))
  {
    var st := Running(f, pc, s, [], stk, tr);
    ReachSelf(Machine(P), st);
    s' := s;
    if e.Id? {
      if !quiet {
        AtOne(P.code, pc, ILoad(Var(e.x)));
        RunLoad(P, st, st, Var(e.x));
      }
    } else {
      var v := LiteralValue(e);
      s' := s[Tmp(t) := v as Word];
      AtOne(P.code, pc, ILoadVal(v, Tmp(t)));
      RunLoadVal(P, st, st, v, Tmp(t));
    }
  }

  /** The fragment computes e: it ends right after itself with e's value in the result cell, the same
      variables, and the older temporaries as they were. */
  lemma {:induction false} SimExpr(w: World, ts: Types, e: Expr, ty: RetType, env: Env, tr: Trace, fuel: nat,
                                   f: string, pc: nat, t: nat, quiet: bool, s: Store, stk: Stack) returns (s': Store)
    requires w.Ok() && ExprNames(ts, e) && EnvOk(ts, env)
    requires CheckExpr(w.p.methods, e, false) == Typed(ty, e) && (w.opt ==> ExprDivisors(e))
    requires At(w.P.code, pc, GenExpr(e, quiet, t, w.opt).code) && Agree(env, s)
    requires EvalExpr(w.p, e, env, tr, fuel).Value?
    ensures var g := GenExpr(e, quiet, t, w.opt);
            var r := EvalExpr(w.p, e, env, tr, fuel);
            && Reaches(w.Run(), Running(f, pc, s, [], stk, tr), Running(f, pc + |g.code|, s', [], stk, r.tr))
            && Agree(env, s') && Get(s', g.res) == r.v && KeepsBelow(s, s', t)
    decreases fuel, 0, e, 5
  {
    hide World.Ok, At, Agree, KeepsBelow, EnvOk, Reaches, GenExpr, EvalExpr, CheckExpr, ExprNames, ExprDivisors;
    match e {
      case Binary(op, l, r) =>
        QuietNode(e, quiet, t, w.opt);
        s' := SimBinaryNode(w, ts, op, l, r, ty, env, tr, fuel, f, pc, t, s, stk);
      case Unary(op, a) =>
        QuietNode(e, quiet, t, w.opt);
        s' := SimUnaryNode(w, ts, op, a, ty, env, tr, fuel, f, pc, t, s, stk);
      case CallE(callee, args) =>
        QuietNode(e, quiet, t, w.opt);
        CallNode(w, ts, callee, args, ty);
        s' := SimCall(w, ts, callee, args, env, tr, fuel, f, pc, t, s, stk);
      case _ =>
        LeafValue(w.p, e, env, tr, fuel);
        s' := SimLeaf(w.P, e, env, f, pc, t, quiet, w.opt, s, stk, tr);
    }
  }

  /** Only an identifier leaf minds its parent. */
  lemma QuietNode(e: Expr, quiet: bool, t: nat, opt: bool)
    requires !e.Id?
    ensures GenExpr(e, quiet, t, opt) == GenExpr(e, false, t, opt)
  {
  }

  lemma LeafValue(p: Program, e: Expr, env: Env, tr: Trace, fuel: nat)
    requires e.IntLit? || e.BoolLit? || e.Id?
    ensures EvalExpr(p, e, env, tr, fuel) == Value(match e
                                                   case IntLit(n) => Some(n as Word)
                                                   case BoolLit(b) => Some(BoolWord(b))
                                                   case _ => Get(env, e.x), tr)
  {
  }

  /** What a call in an accepted program satisfies. */
  lemma CallNode(w: World, ts: Types, callee: string, args: ExprList, ty: RetType)
    requires ExprNames(ts, CallE(callee, args)) && (w.opt ==> ExprDivisors(CallE(callee, args)))
    requires CheckExpr(w.p.methods, CallE(callee, args), false) == Typed(ty, CallE(callee, args))
    ensures ArgsNames(ts, args) && (w.opt ==> ArgsDivisors(args))
    ensures Find(w.p.methods, callee).Some? && ListLength(args) == |Find(w.p.methods, callee).value.params|
    ensures CheckArgs(w.p.methods, args, Find(w.p.methods, callee).value.params, false) == TypedArgs(args)
  {
    hide CheckArgs, ArgsNames, ArgsDivisors, Find;
  }

  lemma {:induction false} SimUnaryNode(w: World, ts: Types, op: UnOp, a: Expr, ty: RetType, env: Env, tr: Trace,
                                        fuel: nat, f: string, pc: nat, t: nat, s: Store, stk: Stack) returns (s': Store)
    requires w.Ok() && ExprNames(ts, Unary(op, a)) && EnvOk(ts, env)
    requires CheckExpr(w.p.methods, Unary(op, a), false) == Typed(ty, Unary(op, a))
    requires w.opt ==> ExprDivisors(Unary(op, a))
    requires At(w.P.code, pc, GenExpr(Unary(op, a), false, t, w.opt).code) && Agree(env, s)
    requires EvalExpr(w.p, Unary(op, a), env, tr, fuel).Value?
    ensures var g := GenExpr(Unary(op, a), false, t, w.opt);
            var x := EvalExpr(w.p, Unary(op, a), env, tr, fuel);
            && Reaches(w.Run(), Running(f, pc, s, [], stk, tr), Running(f, pc + |g.code|, s', [], stk, x.tr))
            && Agree(env, s') && Get(s', g.res) == x.v && KeepsBelow(s, s', t)
    decreases fuel, 0, Unary(op, a), 1
  {
    hide World.Ok, At, Agree, KeepsBelow, EnvOk, Reaches, ApplyUn;
    s' := SimUnary(w, ts, op, a, ty, env, tr, fuel, f, pc, t, s, stk);
  }

  lemma {:induction false} SimBinaryNode(w: World, ts: Types, op: BinOp, l: Expr, r: Expr, ty: RetType,
                                         env: Env, tr: Trace, fuel: nat,
                                         f: string, pc: nat, t: nat, s: Store, stk: Stack) returns (s': Store)
    requires w.Ok() && ExprNames(ts, Binary(op, l, r)) && EnvOk(ts, env)
    requires CheckExpr(w.p.methods, Binary(op, l, r), false) == Typed(ty, Binary(op, l, r))
    requires w.opt ==> ExprDivisors(Binary(op, l, r))
    requires At(w.P.code, pc, GenExpr(Binary(op, l, r), false, t, w.opt).code) && Agree(env, s)
    requires EvalExpr(w.p, Binary(op, l, r), env, tr, fuel).Value?
    ensures var g := GenExpr(Binary(op, l, r), false, t, w.opt);
            var x := EvalExpr(w.p, Binary(op, l, r), env, tr, fuel);
            && Reaches(w.Run(), Running(f, pc, s, [], stk, tr), Running(f, pc + |g.code|, s', [], stk, x.tr))
            && Agree(env, s') && Get(s', g.res) == x.v && KeepsBelow(s, s', t)
    decreases fuel, 0, Binary(op, l, r), 1
  {
    hide EvalExpr, CheckExpr, ExprNames, At, Agree, KeepsBelow, EnvOk, IrApply, Apply, Reaches, ShiftDivide, ShiftFor;
    var a, v := BinaryValues(w, ts, op, l, r, ty, env, tr, fuel);
    var tl, tr' := CheckExpr(w.p.methods, l, false).ty, CheckExpr(w.p.methods, r, false).ty;
    if ShiftFor(op, r, w.opt).Some? {
      LiteralShift(w.p, op, r, a, env, EvalExpr(w.p, l, env, tr, fuel).tr, fuel);
      s' := SimShift(w, ts, l, tl, ShiftFor(op, r, w.opt).value, a, v, env, tr, fuel, f, pc, t, s, stk);
    } else {
      s' := SimBinary(w, ts, op, l, r, tl, tr', a, v, env, tr, fuel, f, pc, t, s, stk);
    }
  }

  /** The operand and result of a binary node that has a value; its operator is the machine's. */
  lemma BinaryValues(w: World, ts: Types, op: BinOp, l: Expr, r: Expr, ty: RetType, env: Env, tr: Trace, fuel: nat)
    returns (a: Word, v: Word)
    requires w.Ok() && ExprNames(ts, Binary(op, l, r)) && EnvOk(ts, env)
    requires CheckExpr(w.p.methods, Binary(op, l, r), false) == Typed(ty, Binary(op, l, r))
    requires EvalExpr(w.p, Binary(op, l, r), env, tr, fuel).Value?
    ensures var x := EvalExpr(w.p, l, env, tr, fuel);
            && x.Value? && x.v == Some(a)
            && var y := EvalExpr(w.p, r, env, x.tr, fuel);
               && y.Value? && y.v.Some?
               && Apply(op, a, y.v.value) == Some(v) && IrApply(op, a, y.v.value) == Some(v)
               && EvalExpr(w.p, Binary(op, l, r), env, tr, fuel) == Value(Some(v), y.tr)
    ensures ExprNames(ts, l) && ExprNames(ts, r)
    ensures CheckExpr(w.p.methods, l, false).Typed? && CheckExpr(w.p.methods, l, false).e == l
    ensures CheckExpr(w.p.methods, r, false).Typed? && CheckExpr(w.p.methods, r, false).e == r
  {
    var x := EvalExpr(w.p, l, env, tr, fuel);
    var y := EvalExpr(w.p, r, env, x.tr, fuel);
    a, v := x.v.value, Apply(op, x.v.value, y.v.value).value;
    if op == And || op == Or {
      LogicIsBitwise(w.g, w.p, ts, op, l, r, env, tr, fuel);
    }
  }

  lemma {:induction false} SimUnary(w: World, ts: Types, op: UnOp, a: Expr, ty: RetType, env: Env, tr: Trace,
                                    fuel: nat, f: string, pc: nat, t: nat, s: Store, stk: Stack) returns (s': Store)
    requires w.Ok() && ExprNames(ts, a) && EnvOk(ts, env)
    requires CheckExpr(w.p.methods, a, false) == Typed(ty, a) && (w.opt ==> ExprDivisors(a))
    requires var ga := GenExpr(a, false, t, w.opt);
             At(w.P.code, pc, ga.code + [IUn(op, ga.res, Tmp(ga.t))]) && Agree(env, s)
    requires EvalExpr(w.p, a, env, tr, fuel).Value? && EvalExpr(w.p, a, env, tr, fuel).v.Some?
    ensures var ga := GenExpr(a, false, t, w.opt);
            var r := EvalExpr(w.p, a, env, tr, fuel);
            && Reaches(w.Run(), Running(f, pc, s, [], stk, tr), Running(f, pc + |ga.code| + 1, s', [], stk, r.tr))
            && Agree(env, s') && Get(s', Tmp(ga.t)) == Some(ApplyUn(op, r.v.value)) && KeepsBelow(s, s', t)
    decreases fuel, 0, a, 6
  {
    hide World.Ok, EvalExpr, CheckExpr, GenExpr, ExprNames, ExprDivisors, At, Agree, KeepsBelow, EnvOk, Reaches,
         ApplyUn;
    var ga := GenExpr(a, false, t, w.opt);
    AtUnaryParts(w.P.code, pc, ga.code, IUn(op, ga.res, Tmp(ga.t)));
    var s1 := SimExpr(w, ts, a, ty, env, tr, fuel, f, pc, t, false, s, stk);
    var r := EvalExpr(w.p, a, env, tr, fuel);
    TempsGrow(a, false, t, w.opt);
    var v := ApplyUn(op, r.v.value);
    s' := s1[Tmp(ga.t) := v];
    RunUn(w.P, Running(f, pc, s, [], stk, tr), Running(f, pc + |ga.code|, s1, [], stk, r.tr), op, ga.res, Tmp(ga.t));
    NewTempAgree(env, s, s1, ga.t, t, Some(v));
  }

  lemma {:induction false} SimBinary(w: World, ts: Types, op: BinOp, l: Expr, r: Expr, tl: RetType, tr': RetType,
                                     a: Word, v: Word, env: Env, tr: Trace, fuel: nat,
                                     f: string, pc: nat, t: nat, s: Store, stk: Stack) returns (s': Store)
    requires w.Ok() && ExprNames(ts, l) && ExprNames(ts, r) && EnvOk(ts, env)
    requires CheckExpr(w.p.methods, l, false) == Typed(tl, l) && CheckExpr(w.p.methods, r, false) == Typed(tr', r)
    requires w.opt ==> ExprDivisors(l) && ExprDivisors(r)
    requires var gl := GenExpr(l, false, t, w.opt);
             var gr := GenExpr(r, false, gl.t, w.opt);
             At(w.P.code, pc, gl.code + gr.code + [IBin(op, gl.res, gr.res, Tmp(gr.t))]) && Agree(env, s)
    requires var x := EvalExpr(w.p, l, env, tr, fuel);
             && x.Value? && x.v == Some(a)
             && var y := EvalExpr(w.p, r, env, x.tr, fuel);
                y.Value? && y.v.Some? && IrApply(op, a, y.v.value) == Some(v)
    ensures var gl := GenExpr(l, false, t, w.opt);
            var gr := GenExpr(r, false, gl.t, w.opt);
            var y := EvalExpr(w.p, r, env, EvalExpr(w.p, l, env, tr, fuel).tr, fuel);
            && Reaches(w.Run(), Running(f, pc, s, [], stk, tr),
                       Running(f, pc + |gl.code| + |gr.code| + 1, s', [], stk, y.tr))
            && Agree(env, s') && Get(s', Tmp(gr.t)) == Some(v) && KeepsBelow(s, s', t)
    decreases fuel, 0, Binary(op, l, r), 0
  {
    hide World.Ok, EvalExpr, CheckExpr, GenExpr, ExprNames, ExprDivisors, IrApply, At, Agree, EnvOk, Reaches;
    var gl := GenExpr(l, false, t, w.opt);
    var gr := GenExpr(r, false, gl.t, w.opt);
    AtBinaryParts(w.P.code, pc, gl.code, gr.code, IBin(op, gl.res, gr.res, Tmp(gr.t)));
    var x := EvalExpr(w.p, l, env, tr, fuel);
    var y := EvalExpr(w.p, r, env, x.tr, fuel);
    var s1 := SimExpr(w, ts, l, tl, env, tr, fuel, f, pc, t, false, s, stk);
    var s2 := SimExpr(w, ts, r, tr', env, x.tr, fuel, f, pc + |gl.code|, gl.t, false, s1, stk);
    TempsGrow(l, false, t, w.opt);
    TempsGrow(r, false, gl.t, w.opt);
    KeepsOperand(env, s1, s2, gl.res, gl.t);
    s' := s2[Tmp(gr.t) := v];
    var st0 := Running(f, pc, s, [], stk, tr);
    var st2 := Running(f, pc + |gl.code| + |gr.code|, s2, [], stk, y.tr);
    ReachTrans(w.Run(), st0, Running(f, pc + |gl.code|, s1, [], stk, x.tr), st2);
    RunBin(w.P, st0, st2, op, gl.res, gr.res, Tmp(gr.t), v);
    NewTempAgree(env, s, s2, gr.t, t, Some(v));
  }

  lemma {:induction false} SimShift(w: World, ts: Types, l: Expr, tl: RetType, k: nat, a: Word, v: Word, env: Env,
                                    tr: Trace, fuel: nat,
                                    f: string, pc: nat, t: nat, s: Store, stk: Stack) returns (s': Store)
    requires w.Ok() && ExprNames(ts, l) && EnvOk(ts, env)
    requires CheckExpr(w.p.methods, l, false) == Typed(tl, l) && (w.opt ==> ExprDivisors(l))
    requires var gl := GenExpr(l, false, t, w.opt);
             At(w.P.code, pc, gl.code + [IShr(gl.res, k, Tmp(gl.t))]) && Agree(env, s)
    requires EvalExpr(w.p, l, env, tr, fuel).Value? && EvalExpr(w.p, l, env, tr, fuel).v == Some(a)
    requires k <= 30 && ShiftDivide(a, k) == v
    ensures var gl := GenExpr(l, false, t, w.opt);
            var x := EvalExpr(w.p, l, env, tr, fuel);
            && Reaches(w.Run(), Running(f, pc, s, [], stk, tr), Running(f, pc + |gl.code| + 1, s', [], stk, x.tr))
            && Agree(env, s') && Get(s', Tmp(gl.t)) == Some(v) && KeepsBelow(s, s', t)
    decreases fuel, 0, l, 6
  {
    hide World.Ok, EvalExpr, CheckExpr, GenExpr, ExprNames, ExprDivisors, At, Agree, KeepsBelow, EnvOk, Reaches,
         ShiftDivide;
    var gl := GenExpr(l, false, t, w.opt);
    AtUnaryParts(w.P.code, pc, gl.code, IShr(gl.res, k, Tmp(gl.t)));
    var x := EvalExpr(w.p, l, env, tr, fuel);
    var s1 := SimExpr(w, ts, l, tl, env, tr, fuel, f, pc, t, false, s, stk);
    TempsGrow(l, false, t, w.opt);
    s' := s1[Tmp(gl.t) := v];
    RunShr(w.P, Running(f, pc, s, [], stk, tr), Running(f, pc + |gl.code|, s1, [], stk, x.tr), gl.res, k, Tmp(gl.t), v);
    NewTempAgree(env, s, s1, gl.t, t, Some(v));
  }

  /** After the arguments' code, each result cell still holds its argument. */
  lemma {:induction false} SimArgs(w: World, ts: Types, es: ExprList, ps: seq<Param>, env: Env, tr: Trace, fuel: nat,
                                   f: string, pc: nat, t: nat, s: Store, stk: Stack) returns (s': Store)
    requires w.Ok() && ArgsNames(ts, es) && EnvOk(ts, env) && ListLength(es) == |ps|
    requires CheckArgs(w.p.methods, es, ps, false) == TypedArgs(es) && (w.opt ==> ArgsDivisors(es))
    requires At(w.P.code, pc, GenArgs(es, t, w.opt).code) && Agree(env, s)
    requires EvalArgs(w.p, es, env, tr, fuel).Args?
    ensures var g := GenArgs(es, t, w.opt);
            var r := EvalArgs(w.p, es, env, tr, fuel);
            && Reaches(w.Run(), Running(f, pc, s, [], stk, tr), Running(f, pc + |g.code|, s', [], stk, r.tr))
            && Agree(env, s') && KeepsBelow(s, s', t)
            && forall i :: 0 <= i < |r.vs| ==> Get(s', g.res[i]) == Some(r.vs[i])
    decreases fuel, 0, es, 5
  {
    hide World.Ok, EvalExpr, CheckExpr, GenExpr, ExprNames, ExprDivisors, At, Agree, EnvOk, Reaches;
    var P := w.P;
    var st := Running(f, pc, s, [], stk, tr);
    ReachSelf(Machine(P), st);
    match es
    case NoExpr => s' := s;
    case ExprCons(e, next) =>
      var g := GenExpr(e, false, t, w.opt);
      var h := GenArgs(next, g.t, w.opt);
      AtSplit(P.code, pc, g.code, h.code);
      var a := EvalExpr(w.p, e, env, tr, fuel);
      var s1 := SimExpr(w, ts, e, RetOf(ps[0].ty), env, tr, fuel, f, pc, t, false, s, stk);
      s' := SimArgs(w, ts, next, ps[1..], env, a.tr, fuel, f, pc + |g.code|, g.t, s1, stk);
      var r := EvalArgs(w.p, next, env, a.tr, fuel);
      TempsGrow(e, false, t, w.opt);
      KeepsOperand(env, s1, s', g.res, g.t);
      ReachTrans(Machine(P), st, Running(f, pc + |g.code|, s1, [], stk, a.tr),
                 Running(f, pc + |g.code| + |h.code|, s', [], stk, r.tr));
  }

  lemma {:induction false} SimParams(P: IrProgram, ns: seq<Name>, vs: seq<Word>, f: string, pc: nat, s: Store,
                                     stk: Stack, tr: Trace, n: nat)
    requires |ns| == |vs| && n <= |ns| && At(P.code, pc, Params(ns))
    requires forall i :: 0 <= i < |vs| ==> Get(s, ns[i]) == Some(vs[i])
    ensures Reaches(Machine(P), Running(f, pc, s, [], stk, tr), Running(f, pc + n, s, vs[..n], stk, tr))
    decreases n
  {
    var st := Running(f, pc, s, [], stk, tr);
    if n == 0 {
      ReachSelf(Machine(P), st);
    } else {
      SimParams(P, ns, vs, f, pc, s, stk, tr, n - 1);
      assert Params(ns)[n - 1] == IParam(ns[n - 1]);
      assert vs[..n] == vs[..n - 1] + [vs[n - 1]];
      RunParam(P, st, Running(f, pc + n - 1, s, vs[..n - 1], stk, tr), ns[n - 1]);
    }
  }

  /** Arguments and PARAM run of a call: the CALL instruction is reached with the argument values. */
  lemma {:induction false} SimArguments(w: World, ts: Types, args: ExprList, m: Method, i: Instr, env: Env, tr: Trace,
                                        fuel: nat, f: string, pc: nat, t: nat, s: Store, stk: Stack)
    returns (s1: Store)
    requires w.Ok() && ArgsNames(ts, args) && EnvOk(ts, env) && (w.opt ==> ArgsDivisors(args))
    requires ListLength(args) == |m.params| && CheckArgs(w.p.methods, args, m.params, false) == TypedArgs(args)
    requires var g := GenArgs(args, t, w.opt); At(w.P.code, pc, g.code + Params(g.res) + [i]) && Agree(env, s)
    requires EvalArgs(w.p, args, env, tr, fuel).Args?
    ensures var g := GenArgs(args, t, w.opt);
            var a := EvalArgs(w.p, args, env, tr, fuel);
            var q := pc + |g.code| + |g.res|;
            && Reaches(w.Run(), Running(f, pc, s, [], stk, tr), Running(f, q, s1, a.vs, stk, a.tr))
            && Agree(env, s1) && KeepsBelow(s, s1, t) && ArgsOk(m.params, a.vs)
            && g.t >= t && q < |w.P.code| && w.P.code[q] == i
    decreases fuel, 0, args, 6
  {
    hide EvalArgs, CheckArgs, CheckExpr, GenArgs, ArgsNames, ArgsDivisors, At, Agree, KeepsBelow, EnvOk, Reaches,
         ArgsOk;
    var g := GenArgs(args, t, w.opt);
    AtBinaryParts(w.P.code, pc, g.code, Params(g.res), i);
    var a := EvalArgs(w.p, args, env, tr, fuel);
    s1 := SimArgs(w, ts, args, m.params, env, tr, fuel, f, pc, t, s, stk);
    SimParams(w.P, g.res, a.vs, f, pc + |g.code|, s1, stk, a.tr, |g.res|);
    assert a.vs[..|g.res|] == a.vs;
    ArgTempsGrow(args, t, w.opt);
    ArgsSound(w.g, w.p, ts, args, m.params, env, tr, fuel);
    ReachTrans(w.Run(), Running(f, pc, s, [], stk, tr), Running(f, pc + |g.code|, s1, [], stk, a.tr),
               Running(f, pc + |g.code| + |g.res|, s1, a.vs, stk, a.tr));
  }

  /** A call: arguments, PARAM run, CALL, the callee, and back with the result in the call's cell. */
  lemma {:induction false} SimCall(w: World, ts: Types, callee: string, args: ExprList, env: Env, tr: Trace,
                                   fuel: nat, f: string, pc: nat, t: nat, s: Store, stk: Stack) returns (s': Store)
    requires w.Ok() && ArgsNames(ts, args) && EnvOk(ts, env) && (w.opt ==> ArgsDivisors(args))
    requires Find(w.p.methods, callee).Some? && ListLength(args) == |Find(w.p.methods, callee).value.params|
    requires CheckArgs(w.p.methods, args, Find(w.p.methods, callee).value.params, false) == TypedArgs(args)
    requires At(w.P.code, pc, GenExpr(CallE(callee, args), false, t, w.opt).code) && Agree(env, s)
    requires EvalExpr(w.p, CallE(callee, args), env, tr, fuel).Value?
    ensures var g := GenExpr(CallE(callee, args), false, t, w.opt);
            var r := EvalExpr(w.p, CallE(callee, args), env, tr, fuel);
            && Reaches(w.Run(), Running(f, pc, s, [], stk, tr), Running(f, pc + |g.code|, s', [], stk, r.tr))
            && Agree(env, s') && Get(s', g.res) == r.v && KeepsBelow(s, s', t)
    decreases fuel, 0, args, 7
  {
    hide World.Ok, EvalArgs, CheckArgs, CheckExpr, GenArgs, ArgsNames, ArgsDivisors, CallMethod, At, Agree,
         KeepsBelow, EnvOk, Reaches, ArgsOk, DistinctLabels, Sound;
    var m := Find(w.p.methods, callee).value;
    var g := GenArgs(args, t, w.opt);
    var s1 := SimArguments(w, ts, args, m, ICall(callee, Tmp(g.t)), env, tr, fuel, f, pc, t, s, stk);
    var a := EvalArgs(w.p, args, env, tr, fuel);
    var pc2 := pc + |g.code| + |g.res|;
    var st2 := Running(f, pc2, s1, a.vs, stk, a.tr);
    SimCallStep(w, m, a.vs, fuel - 1, st2, Tmp(g.t));
    var r := CallMethod(w.p, callee, a.vs, a.tr, fuel - 1);
    s' := Set(s1, Tmp(g.t), r.v);
    ReachTrans(w.Run(), Running(f, pc, s, [], stk, tr), st2, Running(f, pc2 + 1, s', [], stk, r.tr));
    NewTempAgree(env, s, s1, g.t, t, r.v);
  }

  /** From the CALL instruction to the one after it. */
  lemma {:induction false} SimCallStep(w: World, m: Method, vs: seq<Word>, fuel: nat, st: State, d: Name)
    requires w.Ok() && Find(w.p.methods, m.name) == Some(m) && ArgsOk(m.params, vs)
    requires st.Running? && st.pend == vs && st.pc < |w.P.code| && w.P.code[st.pc] == ICall(m.name, d)
    requires CallMethod(w.p, m.name, vs, st.tr, fuel).Value?
    ensures var r := CallMethod(w.p, m.name, vs, st.tr, fuel);
            Reaches(w.Run(), st, Running(st.f, st.pc + 1, Set(st.store, d, r.v), [], st.stack, r.tr))
    decreases fuel, 1, SNil, 1
  {
    hide ExecList, EvalExpr, CheckList, GenList, At, Agree, Reaches, ArgsOk, IndexOf, Bind, BindParams,
         DistinctLabels, Sound, ListDivisors, Find;
    var P, r := w.P, CallMethod(w.p, m.name, vs, st.tr, fuel);
    var tr1 := st.tr + [Event(m.name, vs)];
    if m.isExtern {
      RunCall(P, st, m.name, d, Running(st.f, st.pc + 1, Set(st.store, d, r.v), [], st.stack, r.tr));
    } else {
      var stk := Push(Frame(st.f, st.pc + 1, st.store, d), st.stack);
      var xs := ParamNames(m.params);
      var st1, end := SimBody(w, m, vs, tr1, fuel, stk);
      RunCall(P, st, m.name, d, st1);
      ReachTrans(Machine(P), st, st1, end);
    }
  }

  /** A method of the program: where its body stands, and that it is accepted. */
  lemma MethodPlace(w: World, m: Method) returns (q: Place)
    requires w.Ok() && Find(w.p.methods, m.name) == Some(m) && !m.isExtern
    ensures IndexOf(w.P.code, IEnter(m.name)) == Some(q.pos)
    ensures var g := GenList(m.body, q.t, q.l, w.opt);
            && At(w.P.code, q.pos + 1, g.code)
            && q.pos + 1 + |g.code| < |w.P.code| && w.P.code[q.pos + 1 + |g.code|] == ILeave(m.name)
    ensures m.name in w.g && MethodNames(w.g[m.name], m)
    ensures CheckList(w.p.methods, m.body, m.ret, false) == TypedList(m.body) && (w.opt ==> ListDivisors(m.body))
  {
    hide CheckList, GenList, At, DistinctLabels, ExternsOk, Find, IndexOf, MethodNames, ListDivisors;
    q := w.place[m.name];
    AtBinaryParts(w.P.code, q.pos, [IEnter(m.name)], GenList(m.body, q.t, q.l, w.opt).code, ILeave(m.name));
  }

  /** The variables a call starts with. */
  lemma MethodStart(w: World, m: Method, vs: seq<Word>)
    requires m.name in w.g && MethodNames(w.g[m.name], m) && ArgsOk(m.params, vs)
    ensures |ParamNames(m.params)| == |vs|
    ensures var env := Bind(ParamNames(m.params), vs);
            && EnvOk(w.g[m.name], env) && Agree(env, BindParams(ParamNames(m.params), vs))
            && ListNames(w.g[m.name], m.body)
  {
    hide ListNames, EnvOk, Agree;
    BindAgree(ParamNames(m.params), vs);
    BindOk(w.g[m.name], m, vs);
  }

  /** A method body, from its first instruction to the moment its frame is popped. */
  lemma {:induction false} SimBody(w: World, m: Method, vs: seq<Word>, tr: Trace, fuel: nat, stk: Stack)
    returns (st1: State, end: State)
    requires w.Ok() && Find(w.p.methods, m.name) == Some(m) && !m.isExtern && ArgsOk(m.params, vs)
    requires !ExecList(w.p, m.body, Bind(ParamNames(m.params), vs), tr, fuel).StmtFail?
    ensures IndexOf(w.P.code, IEnter(m.name)).Some?
    ensures st1 == Running(m.name, IndexOf(w.P.code, IEnter(m.name)).value + 1,
                           BindParams(ParamNames(m.params), vs), [], stk, tr)
    ensures Reaches(w.Run(), st1, end)
    ensures var r := ExecList(w.p, m.body, Bind(ParamNames(m.params), vs), tr, fuel);
            end == PopFrame(if r.Returned? then r.v else None, stk, r.tr)
    decreases fuel, 1, SNil, 0
  {
    hide World.Ok, ExecList, CheckList, GenList, Agree, Reaches, EnvOk, At, MethodNames, ListNames, ArgsOk, IndexOf,
         Bind, BindParams, Find, ListDivisors;
    var q := MethodPlace(w, m);
    var Place(pos, t, l) := q;
    MethodStart(w, m, vs);
    var g := GenList(m.body, t, l, w.opt);
    var env, s0 := Bind(ParamNames(m.params), vs), BindParams(ParamNames(m.params), vs);
    st1 := Running(m.name, pos + 1, s0, [], stk, tr);
    var s' := SimList(w, w.g[m.name], m.body, m.ret, env, tr, fuel, m.name, pos + 1, t, l, s0, stk);
    var r := ExecList(w.p, m.body, env, tr, fuel);
    end := PopFrame(if r.Returned? then r.v else None, stk, r.tr);
    if r.Normal? {
      RunLeave(w.P, st1, Running(m.name, pos + 1 + |g.code|, s', [], stk, r.tr), m.name);
    }
  }

  // ----- statements -----

  // ----- control flow of the two compound statements -----

  lemma LabelAt(code: Code, q: nat, l: nat)
    requires DistinctLabels(code) && q < |code| && code[q] == ILabel(l)
    ensures IndexOf(code, ILabel(l)) == Some(q)
  {
  }

  lemma AtIfParts(code: Code, pc: nat, c: ExprGen, thn: Code, els: Code, l: nat)
    requires At(code, pc, IfCode(c, thn, els, l))
    ensures At(code, pc, c.code)
    ensures At(code, pc + |c.code| + 1, thn)
    ensures At(code, pc + |c.code| + 3 + |thn|, els)
    ensures |IfCode(c, thn, els, l)| == |c.code| + 4 + |thn| + |els|
  {
    AtIf(code, pc, c, thn, els, l);
  }

  lemma AtWhileParts(code: Code, pc: nat, c: ExprGen, body: Code, l: nat)
    requires At(code, pc, WhileCode(c, body, l))
    ensures At(code, pc + 1, c.code)
    ensures At(code, pc + 2 + |c.code|, body)
    ensures |WhileCode(c, body, l)| == |c.code| + 4 + |body|
  {
    AtWhile(code, pc, c, body, l);
  }

  lemma AtBinaryParts(code: Code, pc: nat, a: Code, b: Code, i: Instr)
    requires At(code, pc, a + b + [i])
    ensures At(code, pc, a) && At(code, pc + |a|, b)
    ensures pc + |a| + |b| < |code| && code[pc + |a| + |b|] == i
  {
    AtSplit(code, pc, a + b, [i]);
    AtSplit(code, pc, a, b);
    AtOne(code, pc + |a + b|, i);
  }

  lemma AtUnaryParts(code: Code, pc: nat, a: Code, i: Instr)
    requires At(code, pc, a + [i])
    ensures At(code, pc, a)
    ensures pc + |a| < |code| && code[pc + |a|] == i
  {
    AtSplit(code, pc, a, [i]);
    AtOne(code, pc + |a|, i);
  }

  /** From the jump of an if-statement into the branch the condition selects. */
  lemma RunSelect(P: IrProgram, c: ExprGen, thn: Code, els: Code, l: nat, pc: nat, a: State, st: State)
    requires DistinctLabels(P.code) && At(P.code, pc, IfCode(c, thn, els, l))
    requires Reaches(Machine(P), a, st) && st.Running? && st.pc == pc + |c.code| && c.res in st.store
    ensures Reaches(Machine(P), a, st.(pc := if st.store[c.res] != 0 then st.pc + 1 else st.pc + |thn| + 3))
  {
    hide Reaches;
    AtIf(P.code, pc, c, thn, els, l);
    var qe := st.pc + |thn| + 2;
    LabelAt(P.code, qe, l);
    RunJmpf(P, a, st, c.res, l, qe);
    if st.store[c.res] == 0 {
      RunLabel(P, a, st.(pc := qe), l);
    }
  }

  /** From the end of either branch to the end of the if-statement. */
  lemma RunJoin(P: IrProgram, c: ExprGen, thn: Code, els: Code, l: nat, pc: nat, a: State, st: State)
    requires DistinctLabels(P.code) && At(P.code, pc, IfCode(c, thn, els, l))
    requires Reaches(Machine(P), a, st) && st.Running?
    requires st.pc == pc + |c.code| + 1 + |thn| || st.pc == pc + |c.code| + 3 + |thn| + |els|
    ensures Reaches(Machine(P), a, st.(pc := pc + |IfCode(c, thn, els, l)|))
  {
    hide Reaches;
    AtIf(P.code, pc, c, thn, els, l);
    var end := pc + |c.code| + 3 + |thn| + |els|;
    LabelAt(P.code, end, l + 1);
    if st.pc != end {
      RunJmp(P, a, st, l + 1, end);
    }
    RunLabel(P, a, st.(pc := end), l + 1);
  }

  lemma RunHead(P: IrProgram, c: ExprGen, body: Code, l: nat, pc: nat, a: State, st: State)
    requires At(P.code, pc, WhileCode(c, body, l))
    requires Reaches(Machine(P), a, st) && st.Running? && st.pc == pc
    ensures Reaches(Machine(P), a, st.(pc := pc + 1))
  {
    hide Reaches;
    AtWhile(P.code, pc, c, body, l);
    RunLabel(P, a, st, l);
  }

  /** From the jump of a loop into its body, or to its end. */
  lemma RunTest(P: IrProgram, c: ExprGen, body: Code, l: nat, pc: nat, a: State, st: State)
    requires DistinctLabels(P.code) && At(P.code, pc, WhileCode(c, body, l))
    requires Reaches(Machine(P), a, st) && st.Running? && st.pc == pc + 1 + |c.code| && c.res in st.store
    ensures Reaches(Machine(P), a,
                    st.(pc := if st.store[c.res] != 0 then st.pc + 1 else pc + |WhileCode(c, body, l)|))
  {
    hide Reaches;
    AtWhile(P.code, pc, c, body, l);
    var end := st.pc + |body| + 2;
    LabelAt(P.code, end, l + 1);
    RunJmpf(P, a, st, c.res, l + 1, end);
    if st.store[c.res] == 0 {
      RunLabel(P, a, st.(pc := end), l + 1);
    }
  }

  lemma RunBack(P: IrProgram, c: ExprGen, body: Code, l: nat, pc: nat, a: State, st: State)
    requires DistinctLabels(P.code) && At(P.code, pc, WhileCode(c, body, l))
    requires Reaches(Machine(P), a, st) && st.Running? && st.pc == pc + 2 + |c.code| + |body|
    ensures Reaches(Machine(P), a, st.(pc := pc))
  {
    hide Reaches;
    AtWhile(P.code, pc, c, body, l);
    LabelAt(P.code, pc, l);
    RunJmp(P, a, st, l, pc);
  }

  /** Where the machine is after a statement: right behind its code, or out of the method. */
  function After(r: StmtResult, f: string, pc: nat, s: Store, stk: Stack): State
    requires !r.StmtFail?
  {
    match r
    case Normal(_, tr) => Running(f, pc, s, [], stk, tr)
    case Returned(v, tr) => PopFrame(v, stk, tr)
  }

  ghost predicate EndsAgree(r: StmtResult, s: Store) {
    r.Normal? ==> Agree(r.env, s)
  }

  lemma StoreAgree(env: Env, s: Store, x: string, v: Option<Word>)
    requires Agree(env, s)
    ensures Agree(Set(env, x, v), Set(s, Var(x), v))
  {
    forall y
      ensures Get(Set(env, x, v), y) == Get(Set(s, Var(x), v), Var(y))
    {
      assert Get(env, y) == Get(s, Var(y));
    }
  }

  /** Every statement: the emitted code ends right behind itself with the statement's variables, or
      returns with its value; the events are the same. */
  lemma {:induction false} SimStmt(w: World, ts: Types, s: Stmt, ret: RetType, env: Env, tr: Trace, fuel: nat,
                                   f: string, pc: nat, t: nat, l: nat, m: Store, stk: Stack) returns (m': Store)
    requires w.Ok() && StmtNames(ts, s) && EnvOk(ts, env)
    requires CheckStmt(w.p.methods, s, ret, false) == TypedStmt(s) && (w.opt ==> StmtDivisors(s))
    requires At(w.P.code, pc, GenStmt(s, t, l, w.opt).code) && Agree(env, m)
    requires !Exec(w.p, s, env, tr, fuel).StmtFail?
    ensures var g := GenStmt(s, t, l, w.opt);
            var r := Exec(w.p, s, env, tr, fuel);
            && Reaches(w.Run(), Running(f, pc, m, [], stk, tr), After(r, f, pc + |g.code|, m', stk))
            && EndsAgree(r, m')
    decreases fuel, 0, s, 5
  {
    hide EvalExpr, EvalArgs, CheckExpr, CheckArgs, GenExpr, GenArgs, ExprNames, ExprDivisors, At, Agree, EnvOk,
         Reaches, ExecList, GenList;
    var P := w.P;
    var st := Running(f, pc, m, [], stk, tr);
    var r := Exec(w.p, s, env, tr, fuel);
    match s
    case Assign(x, ty, e) =>
      if w.opt && IsLiteral(e) {
        m' := SimLiteralStore(w, e, x, env, tr, fuel, f, pc, m, stk);
      } else {
        m' := SimStore(w, ts, e, RetOf(ty), x, env, tr, fuel, f, pc, t, m, stk);
      }
    case Decl(x, ty, init) =>
      if init.None? {
        m' := m;
        ReachSelf(Machine(P), st);
      } else {
        m' := SimStore(w, ts, init.value, CheckExpr(w.p.methods, init.value, false).ty, x, env, tr, fuel, f, pc, t, m,
            stk);
      }
    case CallS(callee, args) =>
      m' := SimCallStmt(w, ts, callee, args, ret, env, tr, fuel, f, pc, t, m, stk);
    case Return(val) =>
      m' := SimReturn(w, ts, val, ret, env, tr, fuel, f, pc, t, m, stk);
    case If(cond, thn, els) =>
      m' := SimIf(w, ts, cond, thn, els, ret, env, tr, fuel, f, pc, t, l, m, stk);
    case While(cond, body) =>
      m' := SimWhile(w, ts, cond, body, ret, env, tr, fuel, f, pc, t, l, m, stk);
    case Block(ss) =>
      m' := SimList(w, ts, ss, ret, env, tr, fuel, f, pc, t, l, m, stk);
  }

  lemma SimLiteralStore(w: World, e: Expr, x: string, env: Env, tr: Trace, fuel: nat,
                        f: string, pc: nat, m: Store, stk: Stack) returns (m': Store)
    requires IsLiteral(e) && Agree(env, m) && At(w.P.code, pc, [IStore(Lit(LiteralValue(e)), Var(x))])
    ensures var r := EvalExpr(w.p, e, env, tr, fuel);
            && r.Value? && r.tr == tr
            && Reaches(w.Run(), Running(f, pc, m, [], stk, tr), Running(f, pc + 1, m', [], stk, tr))
            && Agree(Set(env, x, r.v), m')
  {
    var st := Running(f, pc, m, [], stk, tr);
    AtOne(w.P.code, pc, IStore(Lit(LiteralValue(e)), Var(x)));
    var v := Some(LiteralValue(e) as Word);
    m' := Set(m, Var(x), v);
    StoreAgree(env, m, x, v);
    ReachSelf(w.Run(), st);
    RunStore(w.P, st, st, Lit(LiteralValue(e)), Var(x), v);
  }

  lemma CallStmtIsCall(p: Program, callee: string, args: ExprList, env: Env, tr: Trace, fuel: nat)
    ensures Exec(p, CallS(callee, args), env, tr, fuel) ==
            match EvalExpr(p, CallE(callee, args), env, tr, fuel)
            case ExprFail => StmtFail
            case Value(_, tr1) => Normal(env, tr1)
  {
  }

  lemma {:induction false} SimCallStmt(w: World, ts: Types, callee: string, args: ExprList, ret: RetType,
                                       env: Env, tr: Trace, fuel: nat,
                                       f: string, pc: nat, t: nat, m: Store, stk: Stack) returns (m': Store)
    requires w.Ok() && StmtNames(ts, CallS(callee, args)) && EnvOk(ts, env)
    requires CheckStmt(w.p.methods, CallS(callee, args), ret, false) == TypedStmt(CallS(callee, args))
    requires w.opt ==> StmtDivisors(CallS(callee, args))
    requires At(w.P.code, pc, GenStmt(CallS(callee, args), t, 0, w.opt).code) && Agree(env, m)
    requires !Exec(w.p, CallS(callee, args), env, tr, fuel).StmtFail?
    ensures var r := Exec(w.p, CallS(callee, args), env, tr, fuel);
            var g := GenStmt(CallS(callee, args), t, 0, w.opt);
            && r.Normal? && r.env == env && Agree(env, m')
            && Reaches(w.Run(), Running(f, pc, m, [], stk, tr), Running(f, pc + |g.code|, m', [], stk, r.tr))
    decreases fuel, 0, CallS(callee, args), 0
  {
    hide World.Ok, EvalArgs, CheckArgs, GenArgs, ArgsNames, ArgsDivisors, At, Agree, EnvOk, Reaches, CallMethod,
         KeepsBelow;
    CallStmtIsCall(w.p, callee, args, env, tr, fuel);
    m' := SimCall(w, ts, callee, args, env, tr, fuel, f, pc, t, m, stk);
  }

  lemma ReturnReturns(p: Program, val: Option<Expr>, env: Env, tr: Trace, fuel: nat)
    ensures !Exec(p, Return(val), env, tr, fuel).Normal?
  {
  }

  lemma {:induction false} SimReturn(w: World, ts: Types, val: Option<Expr>, ret: RetType, env: Env, tr: Trace,
                                     fuel: nat, f: string, pc: nat, t: nat, m: Store, stk: Stack) returns (m': Store)
    requires w.Ok() && StmtNames(ts, Return(val)) && EnvOk(ts, env)
    requires CheckStmt(w.p.methods, Return(val), ret, false) == TypedStmt(Return(val))
    requires w.opt ==> StmtDivisors(Return(val))
    requires At(w.P.code, pc, GenStmt(Return(val), t, 0, w.opt).code) && Agree(env, m)
    requires !Exec(w.p, Return(val), env, tr, fuel).StmtFail?
    ensures var r := Exec(w.p, Return(val), env, tr, fuel);
            r.Returned? && Reaches(w.Run(), Running(f, pc, m, [], stk, tr), PopFrame(r.v, stk, r.tr))
    decreases fuel, 0, Return(val), 0
  {
    hide World.Ok, EvalExpr, CheckExpr, GenExpr, ExprNames, ExprDivisors, At, Agree, EnvOk, Reaches;
    var P, st := w.P, Running(f, pc, m, [], stk, tr);
    if val.None? {
      m' := m;
      AtOne(P.code, pc, IRet(None));
      ReachSelf(Machine(P), st);
      RunRet(P, st, st, None, None);
    } else {
      var g := GenExpr(val.value, false, t, w.opt);
      AtUnaryParts(P.code, pc, g.code, IRet(Some(g.res)));
      m' := SimExpr(w, ts, val.value, ret, env, tr, fuel, f, pc, t, false, m, stk);
      var r := EvalExpr(w.p, val.value, env, tr, fuel);
      RunRet(P, st, Running(f, pc + |g.code|, m', [], stk, r.tr), Some(g.res), r.v);
    }
  }

  lemma {:induction false} SimStore(w: World, ts: Types, e: Expr, ty: RetType, x: string, env: Env, tr: Trace,
                                    fuel: nat, f: string, pc: nat, t: nat, m: Store, stk: Stack) returns (m': Store)
    requires w.Ok() && ExprNames(ts, e) && EnvOk(ts, env)
    requires CheckExpr(w.p.methods, e, false) == Typed(ty, e) && (w.opt ==> ExprDivisors(e))
    requires var g := GenExpr(e, true, t, w.opt);
             At(w.P.code, pc, g.code + [IStore(Loc(g.res), Var(x))]) && Agree(env, m)
    requires EvalExpr(w.p, e, env, tr, fuel).Value?
    ensures var g := GenExpr(e, true, t, w.opt);
            var r := EvalExpr(w.p, e, env, tr, fuel);
            && Reaches(w.Run(), Running(f, pc, m, [], stk, tr), Running(f, pc + |g.code| + 1, m', [], stk, r.tr))
            && Agree(Set(env, x, r.v), m')
    decreases fuel, 0, e, 6
  {
    hide World.Ok, EvalExpr, CheckExpr, GenExpr, ExprNames, ExprDivisors, At, Agree, EnvOk, Reaches;
    var P, g := w.P, GenExpr(e, true, t, w.opt);
    AtUnaryParts(P.code, pc, g.code, IStore(Loc(g.res), Var(x)));
    var m1 := SimExpr(w, ts, e, ty, env, tr, fuel, f, pc, t, true, m, stk);
    var r := EvalExpr(w.p, e, env, tr, fuel);
    m' := Set(m1, Var(x), r.v);
    StoreAgree(env, m1, x, r.v);
    RunStore(P, Running(f, pc, m, [], stk, tr), Running(f, pc + |g.code|, m1, [], stk, r.tr), Loc(g.res), Var(x), r.v);
  }

  lemma {:induction false} SimIf(w: World, ts: Types, cond: Expr, thn: StmtList, els: StmtList, ret: RetType,
                                 env: Env, tr: Trace, fuel: nat,
                                 f: string, pc: nat, t: nat, l: nat, m: Store, stk: Stack) returns (m': Store)
    requires var s := If(cond, thn, els);
             && w.Ok() && StmtNames(ts, s) && EnvOk(ts, env)
             && CheckStmt(w.p.methods, s, ret, false) == TypedStmt(s) && (w.opt ==> StmtDivisors(s))
             && At(w.P.code, pc, GenStmt(s, t, l, w.opt).code) && Agree(env, m)
             && !Exec(w.p, s, env, tr, fuel).StmtFail?
    ensures var s := If(cond, thn, els);
            var g := GenStmt(s, t, l, w.opt);
            var r := Exec(w.p, s, env, tr, fuel);
            && Reaches(w.Run(), Running(f, pc, m, [], stk, tr), After(r, f, pc + |g.code|, m', stk))
            && EndsAgree(r, m')
    decreases fuel, 0, If(cond, thn, els), 0
  {
    hide EvalExpr, ExecList, GenExpr, GenList, CheckList, CheckExpr, ListNames, ListDivisors, ExprNames, ExprDivisors,
         At, Agree, EnvOk, Reaches, IfCode;
    var P := w.P;
    var c := GenExpr(cond, false, t, w.opt);
    var g := GenList(thn, c.t, l + 2, w.opt);
    var h := GenList(els, g.t, g.l, w.opt);
    AtIfParts(P.code, pc, c, g.code, h.code, l);
    var q := pc + |c.code|;
    var qe := q + |g.code| + 3;
    var st := Running(f, pc, m, [], stk, tr);
    var v := EvalExpr(w.p, cond, env, tr, fuel);
    var m1 := SimExpr(w, ts, cond, RBool, env, tr, fuel, f, pc, t, false, m, stk);
    var r := Exec(w.p, If(cond, thn, els), env, tr, fuel);
    RunSelect(P, c, g.code, h.code, l, pc, st, Running(f, q, m1, [], stk, v.tr));
    var st1: State;
    if v.v.value != 0 {
      m' := SimList(w, ts, thn, ret, env, v.tr, fuel, f, q + 1, c.t, l + 2, m1, stk);
      st1 := After(r, f, q + 1 + |g.code|, m', stk);
      ReachTrans(Machine(P), st, Running(f, q + 1, m1, [], stk, v.tr), st1);
    } else {
      m' := SimList(w, ts, els, ret, env, v.tr, fuel, f, qe, g.t, g.l, m1, stk);
      st1 := After(r, f, qe + |h.code|, m', stk);
      ReachTrans(Machine(P), st, Running(f, qe, m1, [], stk, v.tr), st1);
    }
    if r.Normal? {
      RunJoin(P, c, g.code, h.code, l, pc, st, st1);
    }
  }

  lemma {:induction false} SimWhile(w: World, ts: Types, cond: Expr, body: StmtList, ret: RetType,
                                    env: Env, tr: Trace, fuel: nat,
                                    f: string, pc: nat, t: nat, l: nat, m: Store, stk: Stack) returns (m': Store)
    requires var s := While(cond, body);
             && w.Ok() && StmtNames(ts, s) && EnvOk(ts, env)
             && CheckStmt(w.p.methods, s, ret, false) == TypedStmt(s) && (w.opt ==> StmtDivisors(s))
             && At(w.P.code, pc, GenStmt(s, t, l, w.opt).code) && Agree(env, m)
             && !Exec(w.p, s, env, tr, fuel).StmtFail?
    ensures var s := While(cond, body);
            var g := GenStmt(s, t, l, w.opt);
            var r := Exec(w.p, s, env, tr, fuel);
            && Reaches(w.Run(), Running(f, pc, m, [], stk, tr), After(r, f, pc + |g.code|, m', stk))
            && EndsAgree(r, m')
    decreases fuel, 0, While(cond, body), 0
  {
    hide EvalExpr, ExecList, GenExpr, GenList, CheckList, CheckExpr, ListNames, ListDivisors, ExprNames, ExprDivisors,
         At, Agree, EnvOk, Reaches, WhileCode;
    var P, s := w.P, While(cond, body);
    var c := GenExpr(cond, false, t, w.opt);
    var g := GenList(body, c.t, l + 2, w.opt);
    AtWhileParts(P.code, pc, c, g.code, l);
    var q := pc + 1 + |c.code|;
    var st := Running(f, pc, m, [], stk, tr);
    ReachSelf(Machine(P), st);
    RunHead(P, c, g.code, l, pc, st, st);
    var v := EvalExpr(w.p, cond, env, tr, fuel);
    var m1 := SimExpr(w, ts, cond, RBool, env, tr, fuel, f, pc + 1, t, false, m, stk);
    var st1 := Running(f, q, m1, [], stk, v.tr);
    ReachTrans(Machine(P), st, st.(pc := pc + 1), st1);
    RunTest(P, c, g.code, l, pc, st, st1);
    m' := m1;
    if v.v.value != 0 {
      var b := ExecList(w.p, body, env, v.tr, fuel);
      m' := SimList(w, ts, body, ret, env, v.tr, fuel, f, q + 1, c.t, l + 2, m1, stk);
      var st2 := After(b, f, q + 1 + |g.code|, m', stk);
      ReachTrans(Machine(P), st, st1.(pc := q + 1), st2);
      if b.Normal? {
        ListSound(w.g, w.p, ts, body, ret, env, v.tr, fuel);
        RunBack(P, c, g.code, l, pc, st, st2);
        m' := SimWhile(w, ts, cond, body, ret, b.env, b.tr, fuel - 1, f, pc, t, l, m', stk);
        ReachTrans(Machine(P), st, st2.(pc := pc),
                   After(Exec(w.p, s, b.env, b.tr, fuel - 1), f, pc + |WhileCode(c, g.code, l)|, m', stk));
      }
    }
  }

  /** A statement list; with optimisation on, the code after a return is missing and not reached. */
  lemma {:induction false} SimList(w: World, ts: Types, ss: StmtList, ret: RetType, env: Env, tr: Trace, fuel: nat,
                                   f: string, pc: nat, t: nat, l: nat, m: Store, stk: Stack) returns (m': Store)
    requires w.Ok() && ListNames(ts, ss) && EnvOk(ts, env)
    requires CheckList(w.p.methods, ss, ret, false) == TypedList(ss) && (w.opt ==> ListDivisors(ss))
    requires At(w.P.code, pc, GenList(ss, t, l, w.opt).code) && Agree(env, m)
    requires !ExecList(w.p, ss, env, tr, fuel).StmtFail?
    ensures var g := GenList(ss, t, l, w.opt);
            var r := ExecList(w.p, ss, env, tr, fuel);
            && Reaches(w.Run(), Running(f, pc, m, [], stk, tr), After(r, f, pc + |g.code|, m', stk))
            && EndsAgree(r, m')
    decreases fuel, 0, ss, 5
  {
    hide Exec, GenStmt, CheckStmt, StmtNames, StmtDivisors, At, Agree, EnvOk, Reaches;
    var P := w.P;
    var st := Running(f, pc, m, [], stk, tr);
    match ss
    case SNil =>
      m' := m;
      ReachSelf(Machine(P), st);
    case SCons(s, next) =>
      var g := GenStmt(s, t, l, w.opt);
      var a := Exec(w.p, s, env, tr, fuel);
      if s.Return? {
        ReturnReturns(w.p, s.val, env, tr, fuel);
      }
      if !(w.opt && s.Return?) {
        AtSplit(P.code, pc, g.code, GenList(next, g.t, g.l, w.opt).code);
      }
      m' := SimStmt(w, ts, s, ret, env, tr, fuel, f, pc, t, l, m, stk);
      if a.Normal? {
        StmtSound(w.g, w.p, ts, s, ret, env, tr, fuel);
        var st1 := After(a, f, pc + |g.code|, m', stk);
        m' := SimList(w, ts, next, ret, a.env, a.tr, fuel, f, pc + |g.code|, g.t, g.l, m', stk);
        var h := GenList(next, g.t, g.l, w.opt);
        ReachTrans(Machine(P), st, st1, After(ExecList(w.p, next, a.env, a.tr, fuel), f, pc + |g.code| + |h.code|, m',
            stk));
      }
  }

  /** The places of the first n methods. */
  lemma {:induction false} PlaceMethods(p: Program, opt: bool, n: nat) returns (place: map<string, Place>)
    requires DistinctMethods(p.methods) && n <= |p.methods|
    ensures forall i :: 0 <= i < n && !p.methods[i].isExtern ==>
      var m := p.methods[i];
      && m.name in place
      && var q := place[m.name];
         && IndexOf(Translate(p, opt).code, IEnter(m.name)) == Some(q.pos)
         && At(Translate(p, opt).code, q.pos, GenMethod(m, q.t, q.l, opt).code)
    decreases n
  {
    place := map[];
    if n > 0 {
      place := PlaceMethods(p, opt, n - 1);
      var m := p.methods[n - 1];
      if !m.isExtern {
        FindSelf(p.methods, n - 1);
        var pos, t, l := LocateMethod(p.methods, opt, m.name);
        place := place[m.name := Place(pos, t, l)];
      }
    }
  }

  lemma {:induction false} FindSelf(ms: seq<Method>, i: nat)
    requires DistinctMethods(ms) && i < |ms|
    ensures Find(ms, ms[i].name) == Some(ms[i])
    decreases i
  {
    if i > 0 {
      assert ms[0].name != ms[i].name;
      FindSelf(ms[1..], i - 1);
    }
  }

  /** What the analyzer's output satisfies. */
  ghost predicate Translatable(g: map<string, Types>, p: Program, opt: bool) {
    && Sound(g, p)
    && DistinctMethods(p.methods)
    && (opt ==> forall m :: m in p.methods && !m.isExtern ==> ListDivisors(m.body))
  }

  lemma MakeWorld(g: map<string, Types>, p: Program, opt: bool) returns (w: World)
    requires Translatable(g, p, opt)
    ensures w.Ok() && w.g == g && w.p == p && w.opt == opt && w.P == Translate(p, opt)
  {
    var place := PlaceMethods(p, opt, |p.methods|);
    w := World(g, p, opt, Translate(p, opt), place);
    ProgramLabelled(p.methods, opt);
  }

  lemma BodyHalts(w: World, m: Method, vs: seq<Word>, tr: Trace, fuel: nat)
    requires w.Ok() && Find(w.p.methods, m.name) == Some(m) && !m.isExtern && ArgsOk(m.params, vs)
    requires CallMethod(w.p, m.name, vs, tr, fuel).Value?
    ensures var r := CallMethod(w.p, m.name, vs, tr, fuel);
            var start := Start(w.P, m.name, vs, tr + [Event(m.name, vs)]);
            start.Some? && Reaches(w.Run(), start.value, Halted(r.v, r.tr))
  {
    hide ExecList, EvalExpr, Reaches, DistinctLabels, ListDivisors, BindParams, Bind;
    var st1, end := SimBody(w, m, vs, tr + [Event(m.name, vs)], fuel, NoFrame);
  }

  /** Translation is correct: a method call that the source semantics completes, the machine completes
      from the method's entry, with the same value and the same events. */
  lemma TranslationCorrect(g: map<string, Types>, p: Program, opt: bool, f: string, vs: seq<Word>, tr: Trace, fuel: nat)
    requires Translatable(g, p, opt) && Find(p.methods, f).Some? && !Find(p.methods, f).value.isExtern
    requires ArgsOk(Find(p.methods, f).value.params, vs)
    requires CallMethod(p, f, vs, tr, fuel).Value?
    ensures var r := CallMethod(p, f, vs, tr, fuel);
            var start := Start(Translate(p, opt), f, vs, tr + [Event(f, vs)]);
            start.Some? && Reaches(Machine(Translate(p, opt)), start.value, Halted(r.v, r.tr))
  {
    hide GenMethods, CallMethod, ArgsOk, Start, Reaches, Sound;
    var w := MakeWorld(g, p, opt);
    BodyHalts(w, Find(p.methods, f).value, vs, tr, fuel);
  }
}
