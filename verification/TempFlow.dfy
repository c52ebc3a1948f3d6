/** How the generated code uses temporaries and parameters: a left-to-right check of the instruction
    buffer, and the proof that it accepts every translated program. */
module TempFlow {
  import opened Words
  import opened Source
  import opened Ir
  import opened IrGen
  import opened IrLayout

  /** The next fresh temporary, the temporaries that may still be read, and the length of the current
      PARAM run. */
  datatype Flow = Flow(next: nat, live: set<nat>, pend: nat)

  /** The cells an instruction reads, in operand order. */
  function Reads(i: Instr): seq<Name> {
    match i
    case IStore(src, _) => if src.Loc? then [src.n] else []
    case IBin(_, a, b, _) => [a, b]
    case IShr(a, _, _) => [a]
    case IUn(_, a, _) => [a]
    case IRet(val) => if val.None? then [] else [val.value]
    case IJmpf(a, _) => [a]
    case IParam(a) => [a]
    case _ => []
  }

  function Writes(i: Instr): Option<Name> {
    match i
    case ILoadVal(_, d) => Some(d)
    case IStore(_, d) => Some(d)
    case IBin(_, _, _, d) => Some(d)
    case IShr(_, _, d) => Some(d)
    case IUn(_, _, d) => Some(d)
    case ICall(_, d) => Some(d)
    case _ => None
  }

  /** Labels, jumps, returns and method boundaries: no temporary is read across them. */
  predicate Boundary(i: Instr) {
    !Straight(i)
  }

  /** Reading a temporary uses it up; a program variable may be read freely. */
  function Consume(live: set<nat>, ns: seq<Name>): Option<set<nat>> {
    if ns == [] then Some(live)
    else match ns[0]
      case Var(_) => Consume(live, ns[1..])
      case Tmp(k) => if k in live then Consume(live - {k}, ns[1..]) else None
  }

  function FlowStep(i: Instr, s: Flow): Option<Flow> {
    if s.pend > 0 && !i.IParam? && !i.ICall? then None
    else if i.ILoad? && i.var1.Tmp? then None
    else match Consume(s.live, Reads(i))
      case None => None
      case Some(live) =>
        var pend := if i.IParam? then s.pend + 1 else 0;
        if Boundary(i) then Some(Flow(s.next, {}, pend))
        else match Writes(i)
          case Some(Tmp(k)) => if k == s.next then Some(Flow(k + 1, live + {k}, pend)) else None
          case _ => Some(Flow(s.next, live, pend))
  }

  function FlowRun(code: Code, s: Flow): Option<Flow> {
    if code == [] then Some(s)
    else match FlowRun(code[..|code| - 1], s)
      case None => None
      case Some(s1) => FlowStep(code[|code| - 1], s1)
  }

  const START := Flow(0, {}, 0)

  ghost predicate Disciplined(code: Code) {
    FlowRun(code, START).Some?
  }

  // ----- composition -----

  lemma FlowSnoc(c: Code, i: Instr, s: Flow)
    ensures FlowRun(c + [i], s) == match FlowRun(c, s) case None => None case Some(s1) => FlowStep(i, s1)
  {
    assert (c + [i])[..|c|] == c;
  }

  lemma FlowOne(i: Instr, s: Flow)
    ensures FlowRun([i], s) == FlowStep(i, s)
  {
    assert [i][..0] == [];
  }

  lemma {:induction false} FlowAppend(c: Code, d: Code, s: Flow)
    ensures FlowRun(c + d, s) == match FlowRun(c, s) case None => None case Some(s1) => FlowRun(d, s1)
    decreases |d|
  {
    if d == [] {
      assert c + d == c;
    } else {
      var d0, i := d[..|d| - 1], d[|d| - 1];
      assert d == d0 + [i];
      Assoc(c, d0, [i]);
      FlowSnoc(c + d0, i, s);
      FlowAppend(c, d0, s);
    }
  }

  ghost predicate Below(live: set<nat>, n: nat) {
    forall k :: k in live ==> k < n
  }

  function Held(n: Name): set<nat> {
    if n.Tmp? then {n.k} else {}
  }

  function HeldAll(ns: seq<Name>): set<nat> {
    if ns == [] then {} else Held(ns[0]) + HeldAll(ns[1..])
  }

  ghost predicate InRange(n: Name, lo: nat, hi: nat) {
    n.Tmp? ==> lo <= n.k < hi
  }

  /** The temporaries of ns come in increasing order. */
  ghost predicate Ordered(ns: seq<Name>, lo: nat, hi: nat) {
    if ns == [] then lo <= hi
    else if ns[0].Tmp? then lo <= ns[0].k && Ordered(ns[1..], ns[0].k + 1, hi)
    else Ordered(ns[1..], lo, hi)
  }

  lemma {:induction false} OrderedFrom(ns: seq<Name>, lo: nat, mid: nat, hi: nat)
    requires lo <= mid && Ordered(ns, mid, hi)
    ensures Ordered(ns, lo, hi)
    decreases |ns|
  {
    if ns != [] && !ns[0].Tmp? {
      OrderedFrom(ns[1..], lo, mid, hi);
    }
  }

  lemma {:induction false} OrderedHeld(ns: seq<Name>, lo: nat, hi: nat)
    requires Ordered(ns, lo, hi)
    ensures lo <= hi && forall k :: k in HeldAll(ns) ==> lo <= k < hi
    decreases |ns|
  {
    if ns != [] {
      if ns[0].Tmp? {
        OrderedHeld(ns[1..], ns[0].k + 1, hi);
      } else {
        OrderedHeld(ns[1..], lo, hi);
      }
    }
  }

  lemma ConsumeOne(live: set<nat>, n: Name, lo: nat, hi: nat)
    requires Below(live, lo) && InRange(n, lo, hi)
    ensures Consume(live + Held(n), [n]) == Some(live)
  {
    assert [n][1..] == [];
    assert live + Held(n) - Held(n) == live;
    assert n.Var? ==> live + Held(n) == live;
    ConsumeNone(live);
  }

  lemma ConsumeTwo(live: set<nat>, a: Name, b: Name, lo: nat, mid: nat, hi: nat)
    requires Below(live, lo) && lo <= mid && InRange(a, lo, mid) && InRange(b, mid, hi)
    ensures Consume(live + Held(a) + Held(b), [a, b]) == Some(live)
  {
    assert [a, b][1..] == [b];
    assert live + Held(a) + Held(b) - Held(a) == live + Held(b);
    assert a.Var? ==> live + Held(a) + Held(b) == live + Held(b);
    ConsumeOne(live, b, lo, hi);
  }

  // ----- expressions -----

  /** An expression's code uses up its own temporaries, except the one that holds its result. */
  lemma {:induction false} ExprFlow(e: Expr, quiet: bool, t: nat, opt: bool, live: set<nat>)
    requires Below(live, t)
    ensures var g := GenExpr(e, quiet, t, opt);
            && g.t >= t && InRange(g.res, t, g.t)
            && FlowRun(g.code, Flow(t, live, 0)) == Some(Flow(g.t, live + Held(g.res), 0))
    decreases e, 1
  {
    hide FlowRun, Consume;
    match e
    case IntLit(n) => LoadFlow(n, t, live);
    case BoolLit(b) => LoadFlow(if b then 1 else 0, t, live);
    case Id(x, _, _) =>
      assert live + {} == live;
      IdFlow(x, Flow(t, live, 0));
    case Binary(op, l, r) => BinaryFlow(op, l, r, t, opt, live);
    case Unary(op, a) =>
      var g := GenExpr(a, false, t, opt);
      ExprFlow(a, false, t, opt, live);
      FlowSnoc(g.code, IUn(op, g.res, Tmp(g.t)), Flow(t, live, 0));
      ConsumeOne(live, g.res, t, g.t);
    case CallE(f, args) => CallFlow(f, args, t, opt, live);
  }

  lemma LoadFlow(v: CInt, t: nat, live: set<nat>)
    ensures FlowRun([ILoadVal(v, Tmp(t))], Flow(t, live, 0)) == Some(Flow(t + 1, live + {t}, 0))
  {
    FlowOne(ILoadVal(v, Tmp(t)), Flow(t, live, 0));
  }

  lemma IdFlow(x: string, s: Flow)
    requires s.pend == 0
    ensures FlowRun([ILoad(Var(x))], s) == Some(s) && FlowRun([], s) == Some(s)
  {
    FlowOne(ILoad(Var(x)), s);
  }

  lemma {:induction false} HeldResult(live: set<nat>, t: nat)
    ensures live + {t} == live + Held(Tmp(t))
  {
  }

  lemma {:induction false} BinaryFlow(op: BinOp, l: Expr, r: Expr, t: nat, opt: bool, live: set<nat>)
    requires Below(live, t)
    ensures var g := GenExpr(Binary(op, l, r), false, t, opt);
            && g.t >= t && InRange(g.res, t, g.t)
            && FlowRun(g.code, Flow(t, live, 0)) == Some(Flow(g.t, live + Held(g.res), 0))
    decreases Binary(op, l, r), 0
  {
    hide FlowRun, ShiftFor, Held, Below, InRange;
    var gl := GenExpr(l, false, t, opt);
    ExprFlow(l, false, t, opt, live);
    BelowMore(live, gl.res, t, gl.t);
    match ShiftFor(op, r, opt) {
      case Some(k) =>
        ShiftFlow(gl, k, t, live);
      case None =>
        var gr := GenExpr(r, false, gl.t, opt);
        ExprFlow(r, false, gl.t, opt, live + Held(gl.res));
        OperatorFlow(op, gl, gr, t, live);
    }
  }

  lemma {:induction false} ShiftFlow(gl: ExprGen, k: nat, t: nat, live: set<nat>)
    requires Below(live, t) && gl.t >= t && InRange(gl.res, t, gl.t)
    requires FlowRun(gl.code, Flow(t, live, 0)) == Some(Flow(gl.t, live + Held(gl.res), 0))
    ensures FlowRun(gl.code + [IShr(gl.res, k, Tmp(gl.t))], Flow(t, live, 0))
         == Some(Flow(gl.t + 1, live + Held(Tmp(gl.t)), 0))
    ensures InRange(Tmp(gl.t), t, gl.t + 1)
  {
    hide FlowRun, Consume, Held;
    HeldResult(live, gl.t);
    FlowSnoc(gl.code, IShr(gl.res, k, Tmp(gl.t)), Flow(t, live, 0));
    ConsumeOne(live, gl.res, t, gl.t);
  }

  lemma {:induction false} OperatorFlow(op: BinOp, gl: ExprGen, gr: ExprGen, t: nat, live: set<nat>)
    requires Below(live, t) && gl.t >= t && InRange(gl.res, t, gl.t) && gr.t >= gl.t && InRange(gr.res, gl.t, gr.t)
    requires FlowRun(gl.code, Flow(t, live, 0)) == Some(Flow(gl.t, live + Held(gl.res), 0))
    requires FlowRun(gr.code, Flow(gl.t, live + Held(gl.res), 0))
          == Some(Flow(gr.t, live + Held(gl.res) + Held(gr.res), 0))
    ensures FlowRun(gl.code + gr.code + [IBin(op, gl.res, gr.res, Tmp(gr.t))], Flow(t, live, 0))
         == Some(Flow(gr.t + 1, live + Held(Tmp(gr.t)), 0))
    ensures InRange(Tmp(gr.t), t, gr.t + 1)
  {
    hide FlowRun, Consume, Held;
    HeldResult(live, gr.t);
    FlowAppend(gl.code, gr.code, Flow(t, live, 0));
    FlowSnoc(gl.code + gr.code, IBin(op, gl.res, gr.res, Tmp(gr.t)), Flow(t, live, 0));
    ConsumeTwo(live, gl.res, gr.res, t, gl.t, gr.t);
  }

  lemma {:induction false} HeldCons(live: set<nat>, n: Name, ns: seq<Name>)
    ensures live + Held(n) + HeldAll(ns) == live + HeldAll([n] + ns)
  {
    assert ([n] + ns)[1..] == ns;
  }

  lemma {:induction false} OrderedCons(n: Name, ns: seq<Name>, lo: nat, mid: nat, hi: nat)
    requires lo <= mid && InRange(n, lo, mid) && Ordered(ns, mid, hi)
    ensures Ordered([n] + ns, lo, hi)
  {
    assert ([n] + ns)[1..] == ns;
    OrderedFrom(ns, if n.Tmp? then n.k + 1 else lo, mid, hi);
  }

  lemma {:induction false} NoArgsFlow(t: nat, live: set<nat>)
    ensures Ordered([], t, t) && FlowRun([], Flow(t, live, 0)) == Some(Flow(t, live + HeldAll([]), 0))
  {
    assert live + {} == live;
  }

  lemma {:induction false} BelowMore(live: set<nat>, n: Name, t: nat, hi: nat)
    requires Below(live, t) && t <= hi && InRange(n, t, hi)
    ensures Below(live + Held(n), hi)
  {
  }

  lemma {:induction false} ArgsFlow(es: ExprList, t: nat, opt: bool, live: set<nat>)
    requires Below(live, t)
    ensures var g := GenArgs(es, t, opt);
            && Ordered(g.res, t, g.t)
            && FlowRun(g.code, Flow(t, live, 0)) == Some(Flow(g.t, live + HeldAll(g.res), 0))
    decreases es, 0
  {
    hide FlowRun, GenExpr, HeldAll, Held, Ordered, Below, InRange;
    match es
    case NoExpr => NoArgsFlow(t, live);
    case ExprCons(e, next) =>
      var g := GenExpr(e, false, t, opt);
      var h := GenArgs(next, g.t, opt);
      ExprFlow(e, false, t, opt, live);
      BelowMore(live, g.res, t, g.t);
      ArgsFlow(next, g.t, opt, live + Held(g.res));
      FlowAppend(g.code, h.code, Flow(t, live, 0));
      HeldCons(live, g.res, h.res);
      OrderedCons(g.res, h.res, t, g.t, h.t);
  }

  lemma {:induction false} ParamsFlow(ns: seq<Name>, next: nat, live: set<nat>, lo: nat, hi: nat, n: nat)
    requires Below(live, lo) && Ordered(ns, lo, hi) && n <= |ns|
    ensures FlowRun(Params(ns)[..n], Flow(next, live + HeldAll(ns), 0)) == Some(Flow(next, live + HeldAll(ns[n..]), n))
    decreases n
  {
    if n == 0 {
      assert ns[0..] == ns;
    } else {
      hide FlowRun, FlowStep, Consume, HeldAll, Held, Ordered, Params, Below;
      ParamsFlow(ns, next, live, lo, hi, n - 1);
      ParamsPrefix(ns, n);
      FlowSnoc(Params(ns)[..n - 1], IParam(ns[n - 1]), Flow(next, live + HeldAll(ns), 0));
      var rest := ns[n - 1..];
      assert rest[1..] == ns[n..] && rest[0] == ns[n - 1];
      var lo1 := OrderedSuffix(ns, lo, hi, n - 1);
      ConsumeFirst(live, rest, lo, lo1, hi);
      ParamStep(ns[n - 1], next, live + HeldAll(rest), live + HeldAll(ns[n..]), n - 1);
    }
  }

  lemma {:induction false} ParamStep(x: Name, next: nat, live: set<nat>, rest: set<nat>, n: nat)
    requires Consume(live, [x]) == Some(rest)
    ensures FlowStep(IParam(x), Flow(next, live, n)) == Some(Flow(next, rest, n + 1))
  {
    hide Consume;
  }

  lemma ParamsPrefix(ns: seq<Name>, n: nat)
    requires 0 < n <= |ns|
    ensures Params(ns)[..n] == Params(ns)[..n - 1] + [IParam(ns[n - 1])]
  {
  }

  lemma ConsumeFirst(live: set<nat>, ns: seq<Name>, lo: nat, lo1: nat, hi: nat)
    requires ns != [] && Below(live, lo) && lo <= lo1 && Ordered(ns, lo1, hi)
    ensures Consume(live + HeldAll(ns), [ns[0]]) == Some(live + HeldAll(ns[1..]))
  {
    var rest := live + HeldAll(ns[1..]);
    if ns[0].Tmp? {
      OrderedHeld(ns[1..], ns[0].k + 1, hi);
      assert live + HeldAll(ns) == rest + Held(ns[0]);
      assert rest + Held(ns[0]) - Held(ns[0]) == rest;
    } else {
      assert live + HeldAll(ns) == rest;
    }
    assert [ns[0]][1..] == [];
    ConsumeNone(rest);
  }

  lemma {:induction false} OrderedSuffix(ns: seq<Name>, lo: nat, hi: nat, n: nat) returns (lo1: nat)
    requires Ordered(ns, lo, hi) && n <= |ns|
    ensures lo <= lo1 && Ordered(ns[n..], lo1, hi)
    decreases n
  {
    lo1 := lo;
    if n == 0 {
      assert ns[0..] == ns;
    } else {
      assert ns[1..][n - 1..] == ns[n..];
      lo1 := OrderedSuffix(ns[1..], if ns[0].Tmp? then ns[0].k + 1 else lo, hi, n - 1);
    }
  }

  lemma {:induction false} CallFlow(f: string, args: ExprList, t: nat, opt: bool, live: set<nat>)
    requires Below(live, t)
    ensures var g := GenExpr(CallE(f, args), false, t, opt);
            && g.t >= t && InRange(g.res, t, g.t)
            && FlowRun(g.code, Flow(t, live, 0)) == Some(Flow(g.t, live + Held(g.res), 0))
    decreases args, 2
  {
    hide FlowRun, Consume;
    var g := GenArgs(args, t, opt);
    ArgsFlow(args, t, opt, live);
    OrderedHeld(g.res, t, g.t);
    FlowAppend(g.code, Params(g.res), Flow(t, live, 0));
    ParamsFlow(g.res, g.t, live, t, g.t, |g.res|);
    assert Params(g.res)[..|g.res|] == Params(g.res);
    assert g.res[|g.res|..] == [] && live + HeldAll([]) == live;
    FlowSnoc(g.code + Params(g.res), ICall(f, Tmp(g.t)), Flow(t, live, 0));
    ConsumeNone(live);
  }

  lemma ConsumeNone(live: set<nat>)
    ensures Consume(live, []) == Some(live)
  {
  }

  // ----- statements and methods -----

  /** The code is accepted by FlowRun from s and leaves no PARAM run open. */
  ghost predicate Accepted(c: Code, s: Flow, next: nat) {
    match FlowRun(c, s)
    case None => false
    case Some(s1) => s1.next == next && s1.next >= s.next && s1.pend == 0 && Below(s1.live, next)
  }

  ghost function FlowAfter(c: Code, s: Flow): Flow
    requires FlowRun(c, s).Some?
  {
    FlowRun(c, s).value
  }

  lemma AcceptedAppend(c: Code, d: Code, s: Flow, mid: nat, next: nat)
    requires Accepted(c, s, mid) && Accepted(d, FlowAfter(c, s), next)
    ensures Accepted(c + d, s, next) && FlowAfter(c + d, s) == FlowAfter(d, FlowAfter(c, s))
  {
    FlowAppend(c, d, s);
  }

  lemma AcceptedBoundary(s: Flow, i: Instr)
    requires s.pend == 0 && Below(s.live, s.next) && Boundary(i) && Consume(s.live, Reads(i)).Some?
    ensures Accepted([i], s, s.next)
  {
    FlowOne(i, s);
  }

  lemma AcceptedExpr(e: Expr, quiet: bool, s: Flow, opt: bool)
    requires s.pend == 0 && Below(s.live, s.next)
    ensures var g := GenExpr(e, quiet, s.next, opt);
            && Accepted(g.code, s, g.t)
            && FlowAfter(g.code, s) == Flow(g.t, s.live + Held(g.res), 0)
            && Consume(s.live + Held(g.res), [g.res]) == Some(s.live)
  {
    hide FlowRun;
    ExprFlow(e, quiet, s.next, opt, s.live);
    ConsumeOne(s.live, GenExpr(e, quiet, s.next, opt).res, s.next, GenExpr(e, quiet, s.next, opt).t);
  }

  /** An expression followed by the instruction that reads its result. */
  lemma AcceptedExprThen(e: Expr, quiet: bool, s: Flow, opt: bool, i: Instr)
    requires s.pend == 0 && Below(s.live, s.next)
    requires Reads(i) == [GenExpr(e, quiet, s.next, opt).res] && !i.IParam? && !i.ILoad?
    requires Boundary(i) || Writes(i).None? || Writes(i).value.Var?
    ensures var g := GenExpr(e, quiet, s.next, opt); Accepted(g.code + [i], s, g.t)
  {
    hide FlowRun;
    var g := GenExpr(e, quiet, s.next, opt);
    AcceptedExpr(e, quiet, s, opt);
    FlowSnoc(g.code, i, s);
  }

  lemma {:induction false} StmtFlow(st: Stmt, s: Flow, l: nat, opt: bool)
    requires s.pend == 0 && Below(s.live, s.next)
    ensures Accepted(GenStmt(st, s.next, l, opt).code, s, GenStmt(st, s.next, l, opt).t)
    decreases st, 1
  {
    hide FlowRun, Consume, GenExpr, GenArgs, GenList;
    match st
    case Assign(x, _, e) =>
      if opt && IsLiteral(e) {
        FlowOne(IStore(Lit(LiteralValue(e)), Var(x)), s);
        ConsumeNone(s.live);
      } else {
        AcceptedExprThen(e, true, s, opt, IStore(Loc(GenExpr(e, true, s.next, opt).res), Var(x)));
      }
    case Decl(x, _, init) =>
      if init.None? {
        assert FlowRun([], s) == Some(s) by { IdFlow(x, s); }
      } else {
        AcceptedExprThen(init.value, true, s, opt, IStore(Loc(GenExpr(init.value, true, s.next, opt).res), Var(x)));
      }
    case CallS(f, args) => CallStmtFlow(f, args, s, opt);
    case Return(val) =>
      if val.None? {
        ConsumeNone(s.live);
        AcceptedBoundary(s, IRet(None));
      } else {
        AcceptedExprThen(val.value, false, s, opt, IRet(Some(GenExpr(val.value, false, s.next, opt).res)));
      }
    case If(c, thn, els) => IfFlow(c, thn, els, s, l, opt);
    case While(c, body) => WhileFlow(c, body, s, l, opt);
    case Block(ss) => ListFlow(ss, s, l, opt);
  }

  lemma CallStmtFlow(f: string, args: ExprList, s: Flow, opt: bool)
    requires s.pend == 0 && Below(s.live, s.next)
    ensures Accepted(GenStmt(CallS(f, args), s.next, 0, opt).code, s, GenStmt(CallS(f, args), s.next, 0, opt).t)
  {
    hide FlowRun, GenArgs;
    CallFlow(f, args, s.next, opt, s.live);
  }

  lemma {:induction false} IfFlow(c: Expr, thn: StmtList, els: StmtList, s: Flow, l: nat, opt: bool)
    requires s.pend == 0 && Below(s.live, s.next)
    ensures Accepted(GenStmt(If(c, thn, els), s.next, l, opt).code, s, GenStmt(If(c, thn, els), s.next, l, opt).t)
    decreases If(c, thn, els), 0
  {
    hide FlowRun, Consume, GenExpr, GenList, Accepted;
    var gc := GenExpr(c, false, s.next, opt);
    AcceptedExprThen(c, false, s, opt, IJmpf(gc.res, l));
    var a := gc.code + [IJmpf(gc.res, l)];
    var s1 := AfterAccepted(a, s, gc.t);
    var g := GenList(thn, gc.t, l + 2, opt);
    ListFlow(thn, s1, l + 2, opt);
    AcceptedAppend(a, g.code, s, gc.t, g.t);
    var s2 := AfterAccepted(a + g.code, s, g.t);
    var s3 := MarksFlow(IJmp(l + 1), ILabel(l), s2);
    var b := [IJmp(l + 1), ILabel(l)];
    AcceptedAppend(a + g.code, b, s, g.t, g.t);
    var h := GenList(els, g.t, g.l, opt);
    ListFlow(els, s3, g.l, opt);
    AcceptedAppend(a + g.code + b, h.code, s, g.t, h.t);
    var s4 := AfterAccepted(a + g.code + b + h.code, s, h.t);
    ConsumeNone(s4.live);
    AcceptedBoundary(s4, ILabel(l + 1));
    AcceptedAppend(a + g.code + b + h.code, [ILabel(l + 1)], s, h.t, h.t);
  }

  lemma {:induction false} WhileFlow(c: Expr, body: StmtList, s: Flow, l: nat, opt: bool)
    requires s.pend == 0 && Below(s.live, s.next)
    ensures Accepted(GenStmt(While(c, body), s.next, l, opt).code, s, GenStmt(While(c, body), s.next, l, opt).t)
    decreases While(c, body), 0
  {
    hide FlowRun, Consume, GenExpr, GenList, Accepted;
    ConsumeNone(s.live);
    AcceptedBoundary(s, ILabel(l));
    var s0 := AfterAccepted([ILabel(l)], s, s.next);
    var gc := GenExpr(c, false, s.next, opt);
    var j := IJmpf(gc.res, l + 1);
    AcceptedExprThen(c, false, s0, opt, j);
    AcceptedAppend([ILabel(l)], gc.code + [j], s, s.next, gc.t);
    Assoc([ILabel(l)], gc.code, [j]);
    var a := [ILabel(l)] + gc.code + [j];
    var s1 := AfterAccepted(a, s, gc.t);
    var g := GenList(body, gc.t, l + 2, opt);
    ListFlow(body, s1, l + 2, opt);
    AcceptedAppend(a, g.code, s, gc.t, g.t);
    var s2 := AfterAccepted(a + g.code, s, g.t);
    var s3 := MarksFlow(IJmp(l), ILabel(l + 1), s2);
    AcceptedAppend(a + g.code, [IJmp(l), ILabel(l + 1)], s, g.t, g.t);
  }

  lemma AfterAccepted(c: Code, s: Flow, next: nat) returns (s1: Flow)
    requires Accepted(c, s, next)
    ensures FlowRun(c, s).Some? && s1 == FlowAfter(c, s) && s1.next == next && s1.pend == 0 && Below(s1.live, next)
  {
    s1 := FlowAfter(c, s);
  }

  lemma MarksFlow(i: Instr, j: Instr, s: Flow) returns (s1: Flow)
    requires s.pend == 0 && Below(s.live, s.next)
    requires Boundary(i) && Boundary(j) && Reads(i) == Reads(j) == []
    ensures Accepted([i, j], s, s.next) && s1 == FlowAfter([i, j], s)
    ensures s1.next == s.next && s1.pend == 0 && s1.live == {}
  {
    s1 := Flow(s.next, {}, 0);
    FlowOne(i, s);
    FlowSnoc([i], j, s);
    assert [i] + [j] == [i, j];
  }

  lemma {:induction false} ListFlow(ss: StmtList, s: Flow, l: nat, opt: bool)
    requires s.pend == 0 && Below(s.live, s.next)
    ensures Accepted(GenList(ss, s.next, l, opt).code, s, GenList(ss, s.next, l, opt).t)
    decreases ss, 1
  {
    match ss
    case SNil =>
    case SCons(st, next) =>
      hide FlowRun, GenStmt, Accepted;
      StmtFlow(st, s, l, opt);
      var g := GenStmt(st, s.next, l, opt);
      var s1 := AfterAccepted(g.code, s, g.t);
      if !(opt && st.Return?) {
        ListFlow(next, s1, g.l, opt);
        AcceptedAppend(g.code, GenList(next, g.t, g.l, opt).code, s, g.t, GenList(next, g.t, g.l, opt).t);
      }
  }

  lemma MethodFlow(m: Method, s: Flow, l: nat, opt: bool)
    requires s.pend == 0 && Below(s.live, s.next)
    ensures Accepted(GenMethod(m, s.next, l, opt).code, s, GenMethod(m, s.next, l, opt).t)
  {
    hide FlowRun, GenList, Accepted, Consume;
    ConsumeNone(s.live);
    if m.isExtern {
      AcceptedBoundary(s, IExtern(m.name));
    } else {
      AcceptedBoundary(s, IEnter(m.name));
      var s1 := AfterAccepted([IEnter(m.name)], s, s.next);
      ListFlow(m.body, s1, l, opt);
      var g := GenList(m.body, s.next, l, opt);
      AcceptedAppend([IEnter(m.name)], g.code, s, s.next, g.t);
      var s2 := AfterAccepted([IEnter(m.name)] + g.code, s, g.t);
      ConsumeNone(s2.live);
      AcceptedBoundary(s2, ILeave(m.name));
      AcceptedAppend([IEnter(m.name)] + g.code, [ILeave(m.name)], s, g.t, g.t);
    }
  }

  /** Every translated program is accepted by FlowRun. */
  lemma {:induction false} ProgramFlow(ms: seq<Method>, opt: bool)
    ensures Accepted(GenMethods(ms, 0, 0, opt).code, START, GenMethods(ms, 0, 0, opt).t)
    decreases |ms|
  {
    if ms != [] {
      hide FlowRun, GenMethod, Accepted;
      var ms0 := ms[..|ms| - 1];
      ProgramFlow(ms0, opt);
      var g := GenMethods(ms0, 0, 0, opt);
      var s1 := AfterAccepted(g.code, START, g.t);
      MethodFlow(ms[|ms| - 1], s1, g.l, opt);
      AcceptedAppend(g.code, GenMethod(ms[|ms| - 1], g.t, g.l, opt).code, START, g.t,
                   GenMethod(ms[|ms| - 1], g.t, g.l, opt).t);
    }
  }
}
