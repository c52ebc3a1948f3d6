/** Where the generator puts things: labels, jumps and method bodies. */
module IrLayout {
  import opened Words
  import opened Source
  import opened Ir
  import opened IrGen

  ghost predicate At(code: Code, pc: nat, frag: Code) {
    pc + |frag| <= |code| && forall i :: 0 <= i < |frag| ==> code[pc + i] == frag[i]
  }

  lemma AtSplit(code: Code, pc: nat, a: Code, b: Code)
    requires At(code, pc, a + b)
    ensures At(code, pc, a) && At(code, pc + |a|, b)
  {
    forall i | 0 <= i < |a|
      ensures code[pc + i] == a[i]
    {
      assert (a + b)[i] == a[i];
    }
    forall i | 0 <= i < |b|
      ensures code[pc + |a| + i] == b[i]
    {
      assert (a + b)[|a| + i] == b[i];
    }
  }

  lemma AtOne(code: Code, pc: nat, i: Instr)
    requires At(code, pc, [i])
    ensures pc < |code| && code[pc] == i
  {
    assert [i][0] == i;
    assert code[pc + 0] == i;
  }

  lemma AtIf(code: Code, pc: nat, c: ExprGen, thn: Code, els: Code, l: nat)
    requires At(code, pc, IfCode(c, thn, els, l))
    ensures var q := pc + |c.code|;
            && At(code, pc, c.code)
            && q < |code| && code[q] == IJmpf(c.res, l)
            && At(code, q + 1, thn)
            && q + |thn| + 2 < |code| && code[q + |thn| + 1] == IJmp(l + 1) && code[q + |thn| + 2] == ILabel(l)
            && At(code, q + |thn| + 3, els)
            && q + |thn| + 3 + |els| < |code| && code[q + |thn| + 3 + |els|] == ILabel(l + 1)
  {
    var a := c.code + [IJmpf(c.res, l)];
    var b := a + thn;
    var d := b + [IJmp(l + 1), ILabel(l)];
    AtSplit(code, pc, d + els, [ILabel(l + 1)]);
    AtOne(code, pc + |d + els|, ILabel(l + 1));
    AtSplit(code, pc, d, els);
    AtSplit(code, pc, b, [IJmp(l + 1), ILabel(l)]);
    assert [IJmp(l + 1), ILabel(l)] == [IJmp(l + 1)] + [ILabel(l)];
    AtSplit(code, pc + |b|, [IJmp(l + 1)], [ILabel(l)]);
    AtOne(code, pc + |b|, IJmp(l + 1));
    AtOne(code, pc + |b| + 1, ILabel(l));
    AtSplit(code, pc, a, thn);
    AtSplit(code, pc, c.code, [IJmpf(c.res, l)]);
    AtOne(code, pc + |c.code|, IJmpf(c.res, l));
  }

  lemma AtWhile(code: Code, pc: nat, c: ExprGen, body: Code, l: nat)
    requires At(code, pc, WhileCode(c, body, l))
    ensures var q := pc + 1 + |c.code|;
            && pc < |code| && code[pc] == ILabel(l)
            && At(code, pc + 1, c.code)
            && q < |code| && code[q] == IJmpf(c.res, l + 1)
            && At(code, q + 1, body)
            && q + |body| + 2 < |code| && code[q + |body| + 1] == IJmp(l) && code[q + |body| + 2] == ILabel(l + 1)
  {
    var a := [ILabel(l)] + c.code;
    var b := a + [IJmpf(c.res, l + 1)];
    var d := b + body;
    AtSplit(code, pc, d, [IJmp(l), ILabel(l + 1)]);
    assert [IJmp(l), ILabel(l + 1)] == [IJmp(l)] + [ILabel(l + 1)];
    AtSplit(code, pc + |d|, [IJmp(l)], [ILabel(l + 1)]);
    AtOne(code, pc + |d|, IJmp(l));
    AtOne(code, pc + |d| + 1, ILabel(l + 1));
    AtSplit(code, pc, b, body);
    AtSplit(code, pc, a, [IJmpf(c.res, l + 1)]);
    AtOne(code, pc + |a|, IJmpf(c.res, l + 1));
    AtSplit(code, pc, [ILabel(l)], c.code);
    AtOne(code, pc, ILabel(l));
  }

  // ----- labels and jumps -----

  predicate Straight(i: Instr) {
    !i.ILabel? && !i.IJmp? && !i.IJmpf? && !i.IRet? && !i.IEnter? && !i.ILeave? && !i.IExtern?
  }

  ghost predicate AllStraight(c: Code) {
    forall i :: 0 <= i < |c| ==> Straight(c[i])
  }

  /** No method boundary inside. */
  ghost predicate NoFrames(c: Code) {
    forall i :: 0 <= i < |c| ==> !c[i].IEnter? && !c[i].ILeave? && !c[i].IExtern?
  }

  ghost predicate LabelsIn(c: Code, lo: nat, hi: nat) {
    forall i :: 0 <= i < |c| && c[i].ILabel? ==> lo <= c[i].l < hi
  }

  ghost predicate DistinctLabels(c: Code) {
    forall i, j :: 0 <= i < |c| && 0 <= j < |c| && c[i].ILabel? && c[i] == c[j] ==> i == j
  }

  /** Every jump goes to a label of the same fragment. */
  ghost predicate JumpsInside(c: Code) {
    forall i :: 0 <= i < |c| && (c[i].IJmp? || c[i].IJmpf?) ==> ILabel(c[i].l) in c
  }

  ghost predicate Labelled(c: Code, lo: nat, hi: nat) {
    lo <= hi && LabelsIn(c, lo, hi) && DistinctLabels(c) && JumpsInside(c)
  }

  lemma LabelledThen(c: Code, i: Instr, l: nat)
    requires AllStraight(c) && (Straight(i) || i.IRet?)
    ensures Labelled(c + [i], l, l) && NoFrames(c + [i])
  {
  }

  lemma LabelledAppend(c: Code, d: Code, lo: nat, mid: nat, hi: nat)
    requires Labelled(c, lo, mid) && Labelled(d, mid, hi)
    ensures Labelled(c + d, lo, hi)
  {
  }

  lemma {:induction false} ExprStraight(e: Expr, quiet: bool, t: nat, opt: bool)
    ensures AllStraight(GenExpr(e, quiet, t, opt).code)
    decreases e
  {
    hide AllStraight, ShiftFor;
    match e
    case Binary(op, l, r) =>
      var gl := GenExpr(l, false, t, opt);
      var gr := GenExpr(r, false, gl.t, opt);
      ExprStraight(l, false, t, opt);
      ExprStraight(r, false, gl.t, opt);
      StraightAppend(gl.code, gr.code);
      StraightThen(gl.code + gr.code, IBin(op, gl.res, gr.res, Tmp(gr.t)));
      if ShiftFor(op, r, opt).Some? {
        StraightThen(gl.code, IShr(gl.res, ShiftFor(op, r, opt).value, Tmp(gl.t)));
      }
    case Unary(op, a) =>
      var g := GenExpr(a, false, t, opt);
      ExprStraight(a, false, t, opt);
      StraightThen(g.code, IUn(op, g.res, Tmp(g.t)));
    case CallE(f, args) =>
      var g := GenArgs(args, t, opt);
      ArgsStraight(args, t, opt);
      StraightParams(g.res);
      StraightAppend(g.code, Params(g.res));
      StraightThen(g.code + Params(g.res), ICall(f, Tmp(g.t)));
    case _ =>
      StraightLeaf(e, quiet, t, opt);
  }

  lemma StraightLeaf(e: Expr, quiet: bool, t: nat, opt: bool)
    requires e.IntLit? || e.BoolLit? || e.Id?
    ensures AllStraight(GenExpr(e, quiet, t, opt).code)
  {
  }

  lemma StraightAppend(c: Code, d: Code)
    requires AllStraight(c) && AllStraight(d)
    ensures AllStraight(c + d)
  {
  }

  lemma StraightThen(c: Code, i: Instr)
    requires AllStraight(c) && Straight(i)
    ensures AllStraight(c + [i])
  {
  }

  lemma StraightParams(ns: seq<Name>)
    ensures AllStraight(Params(ns))
  {
  }

  lemma {:induction false} ArgsStraight(es: ExprList, t: nat, opt: bool)
    ensures AllStraight(GenArgs(es, t, opt).code)
    decreases es
  {
    match es
    case NoExpr =>
    case ExprCons(e, next) =>
      ExprStraight(e, false, t, opt);
      ArgsStraight(next, GenExpr(e, false, t, opt).t, opt);
  }

  lemma {:induction false} IfLabels(c: ExprGen, thn: Code, els: Code, l: nat, m: nat, h: nat)
    requires AllStraight(c.code) && Labelled(thn, l + 2, m) && Labelled(els, m, h)
    requires NoFrames(thn) && NoFrames(els)
    ensures var code := IfCode(c, thn, els, l); LabelsIn(code, l, h) && DistinctLabels(code) && NoFrames(code)
  {
    hide JumpsInside;
    var a := c.code + [IJmpf(c.res, l)];
    var b := [IJmp(l + 1), ILabel(l)];
    assert IfCode(c, thn, els, l) == a + thn + b + els + [ILabel(l + 1)];
  }

  lemma {:induction false} IfLabelled(c: ExprGen, thn: Code, els: Code, l: nat, m: nat, h: nat)
    requires AllStraight(c.code) && Labelled(thn, l + 2, m) && Labelled(els, m, h)
    requires NoFrames(thn) && NoFrames(els)
    ensures Labelled(IfCode(c, thn, els, l), l, h) && NoFrames(IfCode(c, thn, els, l))
  {
    IfLabels(c, thn, els, l, m, h);
    hide LabelsIn, DistinctLabels, NoFrames;
    var a := c.code + [IJmpf(c.res, l)];
    var b := [IJmp(l + 1), ILabel(l)];
    var code := IfCode(c, thn, els, l);
    assert code == a + thn + b + els + [ILabel(l + 1)];
    assert code[|a + thn| + 1] == ILabel(l);
    assert code[|code| - 1] == ILabel(l + 1);
    forall i | 0 <= i < |code| && (code[i].IJmp? || code[i].IJmpf?)
      ensures ILabel(code[i].l) in code
    {
      if |a| <= i < |a + thn| {
        assert code[i] == thn[i - |a|];
        assert ILabel(code[i].l) in thn;
      } else if |a + thn + b| <= i < |code| - 1 {
        assert code[i] == els[i - |a + thn + b|];
        assert ILabel(code[i].l) in els;
      }
    }
  }

  lemma {:induction false} WhileLabels(c: ExprGen, body: Code, l: nat, h: nat)
    requires AllStraight(c.code) && Labelled(body, l + 2, h) && NoFrames(body)
    ensures var code := WhileCode(c, body, l); LabelsIn(code, l, h) && DistinctLabels(code) && NoFrames(code)
  {
    hide JumpsInside;
    var a := [ILabel(l)] + c.code + [IJmpf(c.res, l + 1)];
    assert WhileCode(c, body, l) == a + body + [IJmp(l), ILabel(l + 1)];
  }

  lemma {:induction false} WhileLabelled(c: ExprGen, body: Code, l: nat, h: nat)
    requires AllStraight(c.code) && Labelled(body, l + 2, h) && NoFrames(body)
    ensures Labelled(WhileCode(c, body, l), l, h) && NoFrames(WhileCode(c, body, l))
  {
    WhileLabels(c, body, l, h);
    hide LabelsIn, DistinctLabels, NoFrames;
    var a := [ILabel(l)] + c.code + [IJmpf(c.res, l + 1)];
    var code := WhileCode(c, body, l);
    assert code == a + body + [IJmp(l), ILabel(l + 1)];
    assert code[0] == ILabel(l);
    assert code[|code| - 1] == ILabel(l + 1);
    forall i | 0 <= i < |code| && (code[i].IJmp? || code[i].IJmpf?)
      ensures ILabel(code[i].l) in code
    {
      if |a| <= i < |a + body| {
        assert code[i] == body[i - |a|];
        assert ILabel(code[i].l) in body;
      }
    }
  }

  lemma StoreLabelled(e: Expr, x: string, t: nat, l: nat, opt: bool)
    ensures var g := GenExpr(e, true, t, opt);
            var c := g.code + [IStore(Loc(g.res), Var(x))];
            Labelled(c, l, l) && NoFrames(c)
  {
    var g := GenExpr(e, true, t, opt);
    ExprStraight(e, true, t, opt);
    LabelledThen(g.code, IStore(Loc(g.res), Var(x)), l);
  }

  lemma {:induction false} StmtLabelled(s: Stmt, t: nat, l: nat, opt: bool)
    ensures var g := GenStmt(s, t, l, opt); Labelled(g.code, l, g.l) && NoFrames(g.code)
    decreases s
  {
    match s
    case Assign(x, _, e) =>
      StoreLabelled(e, x, t, l, opt);
    case Decl(x, _, init) => if init.Some? { StoreLabelled(init.value, x, t, l, opt); }
    case CallS(f, args) =>
      ArgsStraight(args, t, opt);
      var g := GenArgs(args, t, opt);
      LabelledThen(g.code + Params(g.res), ICall(f, Tmp(g.t)), l);
    case Return(val) =>
      if val.Some? {
        var g := GenExpr(val.value, false, t, opt);
        ExprStraight(val.value, false, t, opt);
        LabelledThen(g.code, IRet(Some(g.res)), l);
      }
    case If(cond, thn, els) =>
      var c := GenExpr(cond, false, t, opt);
      ExprStraight(cond, false, t, opt);
      ListLabelled(thn, c.t, l + 2, opt);
      var g := GenList(thn, c.t, l + 2, opt);
      ListLabelled(els, g.t, g.l, opt);
      var h := GenList(els, g.t, g.l, opt);
      IfLabelled(c, g.code, h.code, l, g.l, h.l);
    case While(cond, body) =>
      var c := GenExpr(cond, false, t, opt);
      ExprStraight(cond, false, t, opt);
      ListLabelled(body, c.t, l + 2, opt);
      var g := GenList(body, c.t, l + 2, opt);
      WhileLabelled(c, g.code, l, g.l);
    case Block(ss) => ListLabelled(ss, t, l, opt);
  }

  lemma {:induction false} ListLabelled(ss: StmtList, t: nat, l: nat, opt: bool)
    ensures var g := GenList(ss, t, l, opt); Labelled(g.code, l, g.l) && NoFrames(g.code)
    decreases ss
  {
    match ss
    case SNil =>
    case SCons(s, next) =>
      StmtLabelled(s, t, l, opt);
      var g := GenStmt(s, t, l, opt);
      if !(opt && s.Return?) {
        ListLabelled(next, g.t, g.l, opt);
        var h := GenList(next, g.t, g.l, opt);
        LabelledAppend(g.code, h.code, l, g.l, h.l);
      }
  }

  lemma MethodLabelled(m: Method, t: nat, l: nat, opt: bool)
    ensures var g := GenMethod(m, t, l, opt); Labelled(g.code, l, g.l)
  {
    if !m.isExtern {
      ListLabelled(m.body, t, l, opt);
      var g := GenList(m.body, t, l, opt);
      LabelledStraightEnds(m.name, g.code, l, g.l);
    }
  }

  lemma LabelledStraightEnds(f: string, c: Code, l: nat, h: nat)
    requires Labelled(c, l, h)
    ensures Labelled([IEnter(f)] + c + [ILeave(f)], l, h)
  {
    var code := [IEnter(f)] + c + [ILeave(f)];
    forall i | 0 <= i < |code| && (code[i].IJmp? || code[i].IJmpf?)
      ensures ILabel(code[i].l) in code
    {
      assert code[i] == c[i - 1];
      assert ILabel(code[i].l) in c;
    }
  }

  /** All labels of a program are distinct and every jump has its target. */
  lemma {:induction false} ProgramLabelled(ms: seq<Method>, opt: bool)
    ensures var g := GenMethods(ms, 0, 0, opt); Labelled(g.code, 0, g.l)
    decreases |ms|
  {
    if ms != [] {
      var ms0 := ms[..|ms| - 1];
      ProgramLabelled(ms0, opt);
      var g := GenMethods(ms0, 0, 0, opt);
      MethodLabelled(ms[|ms| - 1], g.t, g.l, opt);
      var h := GenMethod(ms[|ms| - 1], g.t, g.l, opt);
      LabelledAppend(g.code, h.code, 0, g.l, h.l);
    }
  }

  // ----- methods -----

  ghost predicate DistinctMethods(ms: seq<Method>) {
    forall i, j :: 0 <= i < |ms| && 0 <= j < |ms| && ms[i].name == ms[j].name ==> i == j
  }

  lemma {:induction false} IndexOfAppend<T>(c: seq<T>, d: seq<T>, x: T)
    ensures IndexOf(c + d, x) ==
            if x in c then IndexOf(c, x)
            else if x in d then Some(|c| + IndexOf(d, x).value)
            else None
    decreases |c|
  {
    if c == [] {
      assert c + d == d;
    } else {
      assert (c + d)[1..] == c[1..] + d;
      assert c == [c[0]] + c[1..];
      IndexOfAppend(c[1..], d, x);
    }
  }

  lemma {:induction false} FindSnoc(ms: seq<Method>, m: Method, f: string)
    ensures Find(ms + [m], f) ==
            if Find(ms, f).Some? then Find(ms, f) else if m.name == f then Some(m) else None
    decreases |ms|
  {
    if ms == [] {
      assert ms + [m] == [m];
      assert [m][1..] == [];
    } else {
      assert (ms + [m])[1..] == ms[1..] + [m];
      FindSnoc(ms[1..], m, f);
    }
  }

  lemma AtAppend(c: Code, d: Code, pos: nat, frag: Code)
    ensures At(c, pos, frag) ==> At(c + d, pos, frag)
    ensures At(c + d, |c|, d)
  {
  }

  lemma EnterInMethod(m: Method, t: nat, l: nat, opt: bool, f: string)
    ensures IEnter(f) in GenMethod(m, t, l, opt).code <==> !m.isExtern && m.name == f
    ensures !m.isExtern && m.name == f ==> IndexOf(GenMethod(m, t, l, opt).code, IEnter(f)) == Some(0)
  {
    if !m.isExtern {
      ListLabelled(m.body, t, l, opt);
      assert GenMethod(m, t, l, opt).code[0] == IEnter(m.name);
    }
  }

  lemma {:induction false} EnterOnlyIfDeclared(ms: seq<Method>, opt: bool, f: string)
    ensures IEnter(f) in GenMethods(ms, 0, 0, opt).code ==> Find(ms, f).Some?
    decreases |ms|
  {
    if ms != [] {
      var ms0, m := ms[..|ms| - 1], ms[|ms| - 1];
      assert ms == ms0 + [m];
      EnterOnlyIfDeclared(ms0, opt, f);
      var g := GenMethods(ms0, 0, 0, opt);
      EnterInMethod(m, g.t, g.l, opt, f);
      FindSnoc(ms0, m, f);
    }
  }

  /** The machine finds a method's body where the generator put it. */
  lemma {:induction false} LocateMethod(ms: seq<Method>, opt: bool, f: string) returns (pos: nat, t: nat, l: nat)
    requires DistinctMethods(ms) && Find(ms, f).Some? && !Find(ms, f).value.isExtern
    ensures IndexOf(GenMethods(ms, 0, 0, opt).code, IEnter(f)) == Some(pos)
    ensures At(GenMethods(ms, 0, 0, opt).code, pos, GenMethod(Find(ms, f).value, t, l, opt).code)
    decreases |ms|
  {
    hide IndexOf, GenMethod, Find;
    var ms0, m := ms[..|ms| - 1], ms[|ms| - 1];
    assert ms == ms0 + [m];
    FindSnoc(ms0, m, f);
    var g := GenMethods(ms0, 0, 0, opt);
    var h := GenMethod(m, g.t, g.l, opt);
    EnterInMethod(m, g.t, g.l, opt, f);
    IndexOfAppend(g.code, h.code, IEnter(f));
    if Find(ms0, f).Some? {
      pos, t, l := LocateMethod(ms0, opt, f);
      AtAppend(g.code, h.code, pos, GenMethod(Find(ms, f).value, t, l, opt).code);
    } else {
      EnterOnlyIfDeclared(ms0, opt, f);
      AtAppend(g.code, h.code, 0, []);
      pos, t, l := |g.code|, g.t, g.l;
    }
  }
}
