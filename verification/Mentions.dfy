/** When frames are large enough, told from the source: every parameter occurs in the statements that are
    translated. */
module Mentions {
  import opened Words
  import opened Source
  import opened Ir
  import opened IrGen
  import opened IrLayout
  import opened Optimizer
  import opened ReuseCorrect
  import opened Lowering
  import opened ObjectCode
  import opened Frames
  import opened GeneratedShape

  // ----- in the source -----

  /** A divisor replaced by a shift is not translated. */
  predicate ExprMentions(e: Expr, x: string, opt: bool)
    decreases e
  {
    match e
    case Id(y, _, _) => y == x
    case Binary(op, l, r) => ExprMentions(l, x, opt) || (ShiftFor(op, r, opt).None? && ExprMentions(r, x, opt))
    case Unary(_, a) => ExprMentions(a, x, opt)
    case CallE(_, args) => ArgsMention(args, x, opt)
    case _ => false
  }

  predicate ArgsMention(es: ExprList, x: string, opt: bool)
    decreases es
  {
    match es
    case NoExpr => false
    case ExprCons(e, next) => ExprMentions(e, x, opt) || ArgsMention(next, x, opt)
  }

  predicate StmtMentions(s: Stmt, x: string, opt: bool)
    decreases s
  {
    match s
    case Assign(y, _, e) => y == x || ExprMentions(e, x, opt)
    case Decl(y, _, init) => init.Some? && (y == x || ExprMentions(init.value, x, opt))
    case CallS(_, args) => ArgsMention(args, x, opt)
    case Return(val) => val.Some? && ExprMentions(val.value, x, opt)
    case If(c, thn, els) => ExprMentions(c, x, opt) || ListMentions(thn, x, opt) || ListMentions(els, x, opt)
    case While(c, body) => ExprMentions(c, x, opt) || ListMentions(body, x, opt)
    case Block(ss) => ListMentions(ss, x, opt)
  }

  /** With optimisation on, statements after a return are not translated. */
  predicate ListMentions(ss: StmtList, x: string, opt: bool)
    decreases ss
  {
    match ss
    case SNil => false
    case SCons(s, next) => StmtMentions(s, x, opt) || (!(opt && s.Return?) && ListMentions(next, x, opt))
  }

  predicate ParamsUsed(m: Method, opt: bool) {
    forall x :: x in ParamNames(m.params) ==> ListMentions(m.body, x, opt)
  }

  // ----- in the code -----

  predicate CountsName(i: Instr, x: string) {
    KId(x) in SizingKeys(i)
  }

  ghost predicate Counted(c: Code, x: string) {
    exists i :: 0 <= i < |c| && CountsName(c[i], x)
  }

  lemma {:induction false} CountedAppend(c: Code, d: Code, x: string)
    ensures Counted(c + d, x) <==> Counted(c, x) || Counted(d, x)
  {
    hide CountsName;
    if Counted(c, x) {
      var i :| 0 <= i < |c| && CountsName(c[i], x);
      assert (c + d)[i] == c[i];
    }
    if Counted(d, x) {
      var i :| 0 <= i < |d| && CountsName(d[i], x);
      assert (c + d)[|c| + i] == d[i];
    }
  }

  lemma {:induction false} CountedOne(i: Instr, x: string)
    ensures Counted([i], x) <==> CountsName(i, x)
  {
    hide CountsName;
    assert [i][0] == i;
  }

  lemma {:induction false} CountedOperand(i: Instr, x: string)
    requires Var(x) in Operands(i)
    ensures CountsName(i, x)
  {
    CountedOperands(i);
  }

  /** The instruction that reads or writes the name counts it. */
  lemma {:induction false} CountedLast(c: Code, i: Instr, x: string)
    requires Counted(c, x) || Var(x) in Operands(i)
    ensures Counted(c + [i], x)
  {
    hide CountsName, Counted;
    CountedAppend(c, [i], x);
    CountedOne(i, x);
    if Var(x) in Operands(i) {
      CountedOperand(i, x);
    }
  }

  /** A mentioned identifier is counted in the expression's code, or is its result. */
  lemma {:induction false} ExprCounted(e: Expr, x: string, quiet: bool, t: nat, opt: bool)
    requires ExprMentions(e, x, opt)
    ensures var g := GenExpr(e, quiet, t, opt); Counted(g.code, x) || g.res == Var(x)
    decreases e
  {
    hide CountsName, Counted, ShiftFor;
    match e
    case Id(_, _, _) =>
    case Binary(op, l, r) =>
      var gl := GenExpr(l, false, t, opt);
      if ExprMentions(l, x, opt) {
        ExprCounted(l, x, false, t, opt);
      }
      if ShiftFor(op, r, opt).Some? {
        var i := IShr(gl.res, ShiftFor(op, r, opt).value, Tmp(gl.t));
        OperandLists(i);
        CountedLast(gl.code, i, x);
      } else {
        var gr := GenExpr(r, false, gl.t, opt);
        if ExprMentions(r, x, opt) {
          ExprCounted(r, x, false, gl.t, opt);
        }
        CountedAppend(gl.code, gr.code, x);
        var i := IBin(op, gl.res, gr.res, Tmp(gr.t));
        OperandLists(i);
        CountedLast(gl.code + gr.code, i, x);
      }
    case Unary(op, a) =>
      var g := GenExpr(a, false, t, opt);
      ExprCounted(a, x, false, t, opt);
      OperandLists(IUn(op, g.res, Tmp(g.t)));
      CountedLast(g.code, IUn(op, g.res, Tmp(g.t)), x);
    case CallE(f, args) =>
      CallCounted(f, args, x, t, opt);
  }

  lemma {:induction false} CallCounted(f: string, args: ExprList, x: string, t: nat, opt: bool)
    requires ArgsMention(args, x, opt)
    ensures var g := GenArgs(args, t, opt); Counted(g.code + Params(g.res) + [ICall(f, Tmp(g.t))], x)
    decreases args, 1
  {
    hide CountsName, Counted;
    var g := GenArgs(args, t, opt);
    ArgsCounted(args, x, t, opt);
    if Var(x) in g.res {
      ParamsCounted(g.res, x);
    }
    CountedAppend(g.code, Params(g.res), x);
    CountedAppend(g.code + Params(g.res), [ICall(f, Tmp(g.t))], x);
  }

  lemma {:induction false} ParamsCounted(ns: seq<Name>, x: string)
    requires Var(x) in ns
    ensures Counted(Params(ns), x)
  {
    var i :| 0 <= i < |ns| && ns[i] == Var(x);
    OperandLists(IParam(ns[i]));
    CountedOperand(IParam(ns[i]), x);
    assert Params(ns)[i] == IParam(ns[i]);
  }

  lemma {:induction false} ArgsCounted(es: ExprList, x: string, t: nat, opt: bool)
    requires ArgsMention(es, x, opt)
    ensures var g := GenArgs(es, t, opt); Counted(g.code, x) || Var(x) in g.res
    decreases es, 0
  {
    hide CountsName, Counted;
    var g := GenExpr(es.first, false, t, opt);
    var h := GenArgs(es.next, g.t, opt);
    if ExprMentions(es.first, x, opt) {
      ExprCounted(es.first, x, false, t, opt);
    } else {
      ArgsCounted(es.next, x, g.t, opt);
    }
    CountedAppend(g.code, h.code, x);
    assert ([g.res] + h.res)[0] == g.res;
  }

  /** An expression's code and the instruction that takes its result. */
  lemma {:induction false} ExprThenCounted(e: Expr, x: string, quiet: bool, t: nat, opt: bool, i: Instr)
    requires ExprMentions(e, x, opt) || Var(x) in Operands(i)
    requires GenExpr(e, quiet, t, opt).res in Operands(i)
    ensures Counted(GenExpr(e, quiet, t, opt).code + [i], x)
  {
    hide CountsName, Counted, GenExpr, ExprMentions;
    if ExprMentions(e, x, opt) {
      ExprCounted(e, x, quiet, t, opt);
    }
    CountedLast(GenExpr(e, quiet, t, opt).code, i, x);
  }

  lemma {:induction false} StmtCounted(s: Stmt, x: string, t: nat, l: nat, opt: bool)
    requires StmtMentions(s, x, opt)
    ensures Counted(GenStmt(s, t, l, opt).code, x)
    decreases s, 1
  {
    hide CountsName, Counted, GenExpr, GenArgs, GenList, ExprMentions, Operands;
    match s
    case Assign(y, _, e) =>
      if opt && IsLiteral(e) {
        LiteralMentions(e, x, opt);
        OperandLists(IStore(Lit(LiteralValue(e)), Var(y)));
        CountedLast([], IStore(Lit(LiteralValue(e)), Var(y)), x);
        assert [] + [IStore(Lit(LiteralValue(e)), Var(y))] == [IStore(Lit(LiteralValue(e)), Var(y))];
      } else {
        var i := IStore(Loc(GenExpr(e, true, t, opt).res), Var(y));
        OperandLists(i);
        ExprThenCounted(e, x, true, t, opt, i);
      }
    case Decl(y, _, init) =>
      var i := IStore(Loc(GenExpr(init.value, true, t, opt).res), Var(y));
      OperandLists(i);
      ExprThenCounted(init.value, x, true, t, opt, i);
    case CallS(f, args) =>
      CallCounted(f, args, x, t, opt);
    case Return(val) =>
      var i := IRet(Some(GenExpr(val.value, false, t, opt).res));
      OperandLists(i);
      ExprThenCounted(val.value, x, false, t, opt, i);
    case If(c, thn, els) => IfCounted(c, thn, els, x, t, l, opt);
    case While(c, body) => WhileCounted(c, body, x, t, l, opt);
    case Block(ss) => ListCounted(ss, x, t, l, opt);
  }

  lemma LiteralMentions(e: Expr, x: string, opt: bool)
    requires IsLiteral(e)
    ensures !ExprMentions(e, x, opt)
  {
  }

  lemma {:induction false} IfCounted(c: Expr, thn: StmtList, els: StmtList, x: string, t: nat, l: nat, opt: bool)
    requires StmtMentions(If(c, thn, els), x, opt)
    ensures Counted(GenStmt(If(c, thn, els), t, l, opt).code, x)
    decreases If(c, thn, els), 0
  {
    hide CountsName, Counted, GenExpr, GenList, ExprMentions, ListMentions, Operands;
    var gc := GenExpr(c, false, t, opt);
    var g := GenList(thn, gc.t, l + 2, opt);
    var h := GenList(els, g.t, g.l, opt);
    var j := IJmpf(gc.res, l);
    OperandLists(j);
    if ExprMentions(c, x, opt) {
      ExprThenCounted(c, x, false, t, opt, j);
    }
    if ListMentions(thn, x, opt) {
      ListCounted(thn, x, gc.t, l + 2, opt);
    }
    if ListMentions(els, x, opt) {
      ListCounted(els, x, g.t, g.l, opt);
    }
    var a, b := gc.code + [j], [IJmp(l + 1), ILabel(l)];
    CountedAppend(a, g.code, x);
    CountedAppend(a + g.code, b, x);
    CountedAppend(a + g.code + b, h.code, x);
    CountedAppend(a + g.code + b + h.code, [ILabel(l + 1)], x);
  }

  lemma {:induction false} WhileCounted(c: Expr, body: StmtList, x: string, t: nat, l: nat, opt: bool)
    requires StmtMentions(While(c, body), x, opt)
    ensures Counted(GenStmt(While(c, body), t, l, opt).code, x)
    decreases While(c, body), 0
  {
    hide CountsName, Counted, GenExpr, GenList, ExprMentions, ListMentions, Operands;
    var gc := GenExpr(c, false, t, opt);
    var g := GenList(body, gc.t, l + 2, opt);
    var j := IJmpf(gc.res, l + 1);
    OperandLists(j);
    if ExprMentions(c, x, opt) {
      ExprThenCounted(c, x, false, t, opt, j);
    }
    if ListMentions(body, x, opt) {
      ListCounted(body, x, gc.t, l + 2, opt);
    }
    Assoc([ILabel(l)], gc.code, [j]);
    var a := [ILabel(l)] + gc.code + [j];
    CountedAppend([ILabel(l)], gc.code + [j], x);
    CountedAppend(a, g.code, x);
    CountedAppend(a + g.code, [IJmp(l), ILabel(l + 1)], x);
  }

  lemma {:induction false} ListCounted(ss: StmtList, x: string, t: nat, l: nat, opt: bool)
    requires ListMentions(ss, x, opt)
    ensures Counted(GenList(ss, t, l, opt).code, x)
    decreases ss, 1
  {
    hide CountsName, Counted, GenStmt, StmtMentions;
    var g := GenStmt(ss.first, t, l, opt);
    if StmtMentions(ss.first, x, opt) {
      StmtCounted(ss.first, x, t, l, opt);
    } else {
      ListCounted(ss.next, x, g.t, g.l, opt);
    }
    if !(opt && ss.first.Return?) {
      CountedAppend(g.code, GenList(ss.next, g.t, g.l, opt).code, x);
    }
  }

  // ----- in the frame -----

  lemma {:induction false} InSizing(code: Code, e: nat, j: nat, i: nat, k: Key)
    requires e <= i <= j < |code| && k in SizingKeys(code[i])
    ensures k in SizingRange(code, e, j)
    decreases j
  {
    hide SizingKeys;
    if i < j {
      InSizing(code, e, j - 1, i, k);
    }
  }

  /** The method's LEAVE stands behind its body. */
  lemma {:induction false} LeaveBehind(code: Code, f: string, pos: nat, b: Code)
    requires HasMethod(code, f) && EnterOf(code, f) == pos && NoFrames(b) && At(code, pos, Wrapped(f, b))
    ensures LeaveAt(code, f) == pos + |b| + 1
    ensures forall i :: 0 <= i < |b| ==> code[pos + 1 + i] == b[i]
  {
    hide IndexOf;
    var w := Wrapped(f, b);
    forall i | 0 <= i < |b|
      ensures code[pos + 1 + i] == b[i] && !FrameMark(b[i])
    {
      assert w[1 + i] == b[i] && code[pos + (1 + i)] == w[1 + i];
    }
    assert w[|b| + 1] == ILeave(f) && code[pos + (|b| + 1)] == w[|b| + 1];
    assert FrameMark(code[pos + |b| + 1]);
    forall j | pos < j < pos + |b| + 1
      ensures !FrameMark(code[j])
    {
      assert code[pos + 1 + (j - pos - 1)] == b[j - pos - 1];
    }
    assert FrameMark(code[LeaveAt(code, f)]);
  }

  /** A renaming of temporaries changes no count of a program name. */
  lemma {:induction false} RenameCounts(i: Instr, r: seq<nat>, x: string)
    requires CountsName(i, x)
    ensures CountsName(RenameInstr(i, r), x)
  {
    hide Operands;
    OperandLists(i);
    OperandLists(RenameInstr(i, r));
    var ks, ks' := SizingKeys(i), SizingKeys(RenameInstr(i, r));
    var n :| 0 <= n < |ks| && ks[n] == KId(x);
    assert |ks'| == |ks| && ks'[n] == KId(x);
  }

  lemma {:induction false} RenameCounted(c: Code, r: seq<nat>, x: string)
    requires Counted(c, x)
    ensures Counted(RenameCode(c, r), x)
  {
    hide CountsName;
    var i :| 0 <= i < |c| && CountsName(c[i], x);
    RenameCounts(c[i], r, x);
    assert RenameCode(c, r)[i] == RenameInstr(c[i], r);
  }

  lemma {:induction false} RenamedAt(c: Code, r: seq<nat>, pos: nat, f: string, b: Code)
    requires At(c, pos, Wrapped(f, b)) && NoFrames(b)
    ensures At(RenameCode(c, r), pos, Wrapped(f, RenameCode(b, r))) && NoFrames(RenameCode(b, r))
  {
    var w, w' := Wrapped(f, b), Wrapped(f, RenameCode(b, r));
    forall i | 0 <= i < |w'|
      ensures RenameCode(c, r)[pos + i] == w'[i]
    {
      assert c[pos + i] == w[i];
    }
  }

  /** A body that counts every parameter is inside its method's sizing range. */
  lemma {:induction false} BodyMentioned(P: IrProgram, f: string, pos: nat, b: Code)
    requires HasMethod(P.code, f) && EnterOf(P.code, f) == pos && NoFrames(b) && At(P.code, pos, Wrapped(f, b))
    requires forall x :: x in ParamsOf(P, f) ==> Counted(b, x)
    ensures ParamsMentioned(P, f)
  {
    hide HasMethod, IndexOf, SizingRange, Counted;
    LeaveBehind(P.code, f, pos, b);
    forall x | x in ParamsOf(P, f)
      ensures KId(x) in SizingRange(P.code, pos, LeaveAt(P.code, f))
    {
      CountedInRange(P.code, pos, b, x);
    }
  }

  lemma {:induction false} CountedInRange(code: Code, pos: nat, b: Code, x: string)
    requires pos + |b| + 1 < |code| && Counted(b, x) && forall i :: 0 <= i < |b| ==> code[pos + 1 + i] == b[i]
    ensures KId(x) in SizingRange(code, pos, pos + |b| + 1)
  {
    hide SizingRange, SizingKeys;
    var i :| 0 <= i < |b| && CountsName(b[i], x);
    InSizing(code, pos, pos + |b| + 1, pos + 1 + i, KId(x));
  }

  /** A method whose statements mention every parameter has a frame that holds its slots, before and after
      the renaming of temporaries. */
  lemma {:induction false} UsedParamsFit(p: Program, opt: bool, m: Method, r: seq<nat>)
    requires DistinctMethods(p.methods) && Find(p.methods, m.name) == Some(m) && !m.isExtern && ParamsUsed(m, opt)
    requires Structured(RenameCode(Translate(p, opt).code, r))
    ensures var P := Translate(p, opt);
            HasMethod(P.code, m.name) && FrameFits(P, m.name)
    ensures var P := RenameProgram(Translate(p, opt), r);
            HasMethod(P.code, m.name) && FrameFits(P, m.name)
  {
    hide Structured, HasMethod, IndexOf, GenMethods, GenList, At, NoFrames, Counted, ParamsMentioned, RenameCode,
         FrameFits, Find;
    var P := Translate(p, opt);
    var pos, t, l := LocateMethod(p.methods, opt, m.name);
    var b := GenList(m.body, t, l, opt).code;
    ListLabelled(m.body, t, l, opt);
    ProgramClosed(p.methods, opt);
    EntersMethod(P.code, m.name, pos);
    forall x | x in ParamsOf(P, m.name)
      ensures Counted(b, x) && Counted(RenameCode(b, r), x)
    {
      ListCounted(m.body, x, t, l, opt);
      RenameCounted(b, r, x);
    }
    BodyMentioned(P, m.name, pos, b);
    MentionedFits(P, m.name);
    SameMethod(P.code, r, m.name);
    RenamedAt(P.code, r, pos, m.name, b);
    BodyMentioned(RenameProgram(P, r), m.name, pos, RenameCode(b, r));
    MentionedFits(RenameProgram(P, r), m.name);
  }

  lemma {:induction false} EntersMethod(code: Code, f: string, pos: nat)
    requires Structured(code) && IndexOf(code, IEnter(f)) == Some(pos)
    ensures HasMethod(code, f) && EnterOf(code, f) == pos
  {
    OwnsFirst(code, f);
  }
}
