/** Translation of the syntax tree to three-address code: the generated code as a function of the
    tree and of the two counters, and the generator that appends it to the instruction buffer. */
module IrGen {
  import opened Words
  import opened Source
  import opened Ir

  datatype ExprGen = ExprGen(code: Code, res: Name, t: nat)
  datatype ArgsGen = ArgsGen(code: Code, res: seq<Name>, t: nat)
  datatype StmtGen = StmtGen(code: Code, t: nat, l: nat)

  /** The shift that replaces a division, when the divisor is a leaf that passes the test. */
  function ShiftFor(op: BinOp, divisor: Expr, opt: bool): (r: Option<nat>)
    ensures r.Some? ==> r.value <= 30 && opt && op == Div
  {
    match LeafBits(divisor)
    case None => None
    case Some(v) =>
      if op == Div && opt && PowerOfTwoTest(v) then (PowerOfTwoTestExact(v); Some(Ctz(v))) else None
  }

  /** quiet: the parent is an assignment or a declaration, and an identifier leaf emits nothing. */
  function GenExpr(e: Expr, quiet: bool, t: nat, opt: bool): ExprGen
    decreases e
  {
    match e
    case IntLit(n) => ExprGen([ILoadVal(n, Tmp(t))], Tmp(t), t + 1)
    case BoolLit(b) => ExprGen([ILoadVal(if b then 1 else 0, Tmp(t))], Tmp(t), t + 1)
    case Id(x, _, _) => ExprGen(if quiet then [] else [ILoad(Var(x))], Var(x), t)
    case Binary(op, l, r) =>
      var gl := GenExpr(l, false, t, opt);
      (match ShiftFor(op, r, opt)
       case Some(k) => ExprGen(gl.code + [IShr(gl.res, k, Tmp(gl.t))], Tmp(gl.t), gl.t + 1)
       case None =>
         var gr := GenExpr(r, false, gl.t, opt);
         ExprGen(gl.code + gr.code + [IBin(op, gl.res, gr.res, Tmp(gr.t))], Tmp(gr.t), gr.t + 1))
    case Unary(op, arg) =>
      var g := GenExpr(arg, false, t, opt);
      ExprGen(g.code + [IUn(op, g.res, Tmp(g.t))], Tmp(g.t), g.t + 1)
    case CallE(f, args) =>
      var g := GenArgs(args, t, opt);
      ExprGen(g.code + Params(g.res) + [ICall(f, Tmp(g.t))], Tmp(g.t), g.t + 1)
  }

  function GenArgs(es: ExprList, t: nat, opt: bool): (g: ArgsGen)
    ensures |g.res| == ListLength(es)
    decreases es
  {
    match es
    case NoExpr => ArgsGen([], [], t)
    case ExprCons(e, next) =>
      var g := GenExpr(e, false, t, opt);
      var h := GenArgs(next, g.t, opt);
      ArgsGen(g.code + h.code, [g.res] + h.res, h.t)
  }

  function Params(ns: seq<Name>): (c: Code)
    ensures |c| == |ns|
    ensures forall i :: 0 <= i < |ns| ==> c[i] == IParam(ns[i])
  {
    seq(|ns|, i requires 0 <= i < |ns| => IParam(ns[i]))
  }

  function IfCode(c: ExprGen, thn: Code, els: Code, l: nat): Code {
    c.code + [IJmpf(c.res, l)] + thn + [IJmp(l + 1), ILabel(l)] + els + [ILabel(l + 1)]
  }

  function WhileCode(c: ExprGen, body: Code, l: nat): Code {
    [ILabel(l)] + c.code + [IJmpf(c.res, l + 1)] + body + [IJmp(l), ILabel(l + 1)]
  }

  function GenStmt(s: Stmt, t: nat, l: nat, opt: bool): StmtGen
    decreases s
  {
    match s
    case Assign(x, _, e) =>
      if opt && IsLiteral(e) then StmtGen([IStore(Lit(LiteralValue(e)), Var(x))], t, l)
      else
        var g := GenExpr(e, true, t, opt);
        StmtGen(g.code + [IStore(Loc(g.res), Var(x))], g.t, l)
    case Decl(x, _, init) =>
      if init.None? then StmtGen([], t, l)
      else
        var g := GenExpr(init.value, true, t, opt);
        StmtGen(g.code + [IStore(Loc(g.res), Var(x))], g.t, l)
    case CallS(f, args) =>
      var g := GenArgs(args, t, opt);
      StmtGen(g.code + Params(g.res) + [ICall(f, Tmp(g.t))], g.t + 1, l)
    case Return(val) =>
      if val.None? then StmtGen([IRet(None)], t, l)
      else
        var g := GenExpr(val.value, false, t, opt);
        StmtGen(g.code + [IRet(Some(g.res))], g.t, l)
    case If(cond, thn, els) =>
      var c := GenExpr(cond, false, t, opt);
      var g := GenList(thn, c.t, l + 2, opt);
      var h := GenList(els, g.t, g.l, opt);
      StmtGen(IfCode(c, g.code, h.code, l), h.t, h.l)
    case While(cond, body) =>
      var c := GenExpr(cond, false, t, opt);
      var g := GenList(body, c.t, l + 2, opt);
      StmtGen(WhileCode(c, g.code, l), g.t, g.l)
    case Block(stmts) => GenList(stmts, t, l, opt)
  }

  /** With optimisation on, nothing after a return of the same block is translated. */
  function GenList(ss: StmtList, t: nat, l: nat, opt: bool): StmtGen
    decreases ss
  {
    match ss
    case SNil => StmtGen([], t, l)
    case SCons(s, next) =>
      var g := GenStmt(s, t, l, opt);
      if opt && s.Return? then g
      else
        var h := GenList(next, g.t, g.l, opt);
        StmtGen(g.code + h.code, h.t, h.l)
  }

  function GenMethod(m: Method, t: nat, l: nat, opt: bool): StmtGen {
    if m.isExtern then StmtGen([IExtern(m.name)], t, l)
    else
      var g := GenList(m.body, t, l, opt);
      StmtGen([IEnter(m.name)] + g.code + [ILeave(m.name)], g.t, g.l)
  }

  /** The code of the methods ms, in order. */
  function GenMethods(ms: seq<Method>, t: nat, l: nat, opt: bool): StmtGen {
    if ms == [] then StmtGen([], t, l)
    else
      var g := GenMethods(ms[..|ms| - 1], t, l, opt);
      var h := GenMethod(ms[|ms| - 1], g.t, g.l, opt);
      StmtGen(g.code + h.code, h.t, h.l)
  }

  function Sigs(ms: seq<Method>): (r: map<string, Sig>)
    ensures forall f :: f in r <==> Find(ms, f).Some?
    ensures forall f :: f in r ==> r[f] == SigOf(Find(ms, f).value)
  {
    if ms == [] then map[] else Sigs(ms[1..])[ms[0].name := SigOf(ms[0])]
  }

  function SigOf(m: Method): Sig {
    Sig(ParamNames(m.params), m.isExtern)
  }

  function Translate(p: Program, opt: bool): IrProgram {
    IrProgram(GenMethods(p.methods, 0, 0, opt).code, Sigs(p.methods), p.ext)
  }

  // ----- the use-count table -----

  /** The temporaries an instruction mentions, in the order var1, var2, reg. */
  function Cells(i: Instr): seq<Name> {
    match i
    case ILoadVal(_, d) => [d]
    case ILoad(a) => [a]
    case IStore(src, d) => (if src.Loc? then [src.n] else []) + [d]
    case IBin(_, a, b, d) => [a, b, d]
    case IShr(a, _, d) => [a, d]
    case IUn(_, a, d) => [a, d]
    case IRet(val) => if val.None? then [] else [val.value]
    case IJmpf(a, _) => [a]
    case IParam(a) => [a]
    case ICall(_, d) => [d]
    case _ => []
  }

  function TempsIn(ns: seq<Name>): seq<nat> {
    if ns == [] then []
    else (if ns[0].Tmp? then [ns[0].k] else []) + TempsIn(ns[1..])
  }

  function Temps(i: Instr): seq<nat> {
    TempsIn(Cells(i))
  }

  /** All occurrences of temporaries, in code order. */
  function Occurrences(code: Code): seq<nat> {
    if code == [] then [] else Occurrences(code[..|code| - 1]) + Temps(code[|code| - 1])
  }

  datatype Use = Use(temp: nat, count: nat)

  /** One more appearance of a temporary: its entry counts it, or a new entry is appended. */
  function Bump(tab: seq<Use>, k: nat): seq<Use> {
    if tab == [] then [Use(k, 1)]
    else if tab[0].temp == k then [Use(k, tab[0].count + 1)] + tab[1..]
    else [tab[0]] + Bump(tab[1..], k)
  }

  function Tally(occs: seq<nat>): seq<Use> {
    if occs == [] then [] else Bump(Tally(occs[..|occs| - 1]), occs[|occs| - 1])
  }

  lemma {:induction false} BumpAt(tab: seq<Use>, k: nat, i: nat)
    requires i <= |tab|
    requires forall j :: 0 <= j < i ==> tab[j].temp != k
    requires i < |tab| ==> tab[i].temp == k
    ensures Bump(tab, k) == if i == |tab| then tab + [Use(k, 1)] else tab[i := Use(k, tab[i].count + 1)]
  {
    if i > 0 {
      BumpAt(tab[1..], k, i - 1);
    }
  }

  lemma TallyMore(occs: seq<nat>, k: nat)
    ensures Tally(occs + [k]) == Bump(Tally(occs), k)
  {
    assert (occs + [k])[..|occs|] == occs;
  }

  lemma Assoc<T>(a: seq<T>, b: seq<T>, c: seq<T>)
    ensures (a + b) + c == a + (b + c)
  {
  }

  lemma OccurrencesSnoc(c: Code, i: Instr)
    ensures Occurrences(c + [i]) == Occurrences(c) + Temps(i)
  {
    assert (c + [i])[..|c|] == c;
  }

  lemma {:induction false} OccurrencesAppend(c: Code, d: Code)
    ensures Occurrences(c + d) == Occurrences(c) + Occurrences(d)
    decreases |d|
  {
    if d == [] {
      assert c + d == c;
    } else {
      var d0, i := d[..|d| - 1], d[|d| - 1];
      assert d == d0 + [i];
      Assoc(c, d0, [i]);
      OccurrencesSnoc(c + d0, i);
      OccurrencesAppend(c, d0);
      Assoc(Occurrences(c), Occurrences(d0), Temps(i));
    }
  }

  /** The list counts the appearances of each temporary in the buffer. */
  ghost predicate Counts(uses: seq<Use>, code: Code) {
    uses == Tally(Occurrences(code))
  }

  /** The buffer grew by c. */
  ghost predicate Wrote(before: Code, after: Code, c: Code) {
    after == before + c
  }

  lemma WroteNothing(a: Code)
    ensures Wrote(a, a, [])
  {
    assert a + [] == a;
  }

  lemma WroteBoth(a: Code, b: Code, c: Code, x: Code, y: Code)
    requires Wrote(a, b, x) && Wrote(b, c, y)
    ensures Wrote(a, c, x + y)
  {
    Assoc(a, x, y);
  }

  lemma WroteIf(b0: Code, b1: Code, b2: Code, b3: Code, b4: Code, b5: Code, b6: Code,
                c: ExprGen, thn: Code, els: Code, l: nat)
    requires Wrote(b0, b1, c.code) && Wrote(b1, b2, [IJmpf(c.res, l)]) && Wrote(b2, b3, thn)
    requires Wrote(b3, b4, [IJmp(l + 1), ILabel(l)]) && Wrote(b4, b5, els) && Wrote(b5, b6, [ILabel(l + 1)])
    ensures Wrote(b0, b6, IfCode(c, thn, els, l))
  {
    hide Wrote;
    var k2 := c.code + [IJmpf(c.res, l)];
    WroteBoth(b0, b1, b2, c.code, [IJmpf(c.res, l)]);
    WroteBoth(b0, b2, b3, k2, thn);
    WroteBoth(b0, b3, b4, k2 + thn, [IJmp(l + 1), ILabel(l)]);
    var k4 := k2 + thn + [IJmp(l + 1), ILabel(l)];
    WroteBoth(b0, b4, b5, k4, els);
    WroteBoth(b0, b5, b6, k4 + els, [ILabel(l + 1)]);
  }

  lemma WroteWhile(b0: Code, b1: Code, b2: Code, b3: Code, b4: Code, b5: Code,
                   c: ExprGen, body: Code, l: nat)
    requires Wrote(b0, b1, [ILabel(l)]) && Wrote(b1, b2, c.code) && Wrote(b2, b3, [IJmpf(c.res, l + 1)])
    requires Wrote(b3, b4, body) && Wrote(b4, b5, [IJmp(l), ILabel(l + 1)])
    ensures Wrote(b0, b5, WhileCode(c, body, l))
  {
    hide Wrote;
    WroteBoth(b0, b1, b2, [ILabel(l)], c.code);
    var k3 := [ILabel(l)] + c.code + [IJmpf(c.res, l + 1)];
    WroteBoth(b0, b2, b3, [ILabel(l)] + c.code, [IJmpf(c.res, l + 1)]);
    WroteBoth(b0, b3, b4, k3, body);
    WroteBoth(b0, b4, b5, k3 + body, [IJmp(l), ILabel(l + 1)]);
  }

  /** The code of a binary node, by what becomes of its divisor. */
  lemma BinaryGen(op: BinOp, l: Expr, r: Expr, t: nat, opt: bool)
    ensures var gl := GenExpr(l, false, t, opt);
            GenExpr(Binary(op, l, r), false, t, opt) ==
            match ShiftFor(op, r, opt)
            case Some(k) => ExprGen(gl.code + [IShr(gl.res, k, Tmp(gl.t))], Tmp(gl.t), gl.t + 1)
            case None =>
              var gr := GenExpr(r, false, gl.t, opt);
              ExprGen(gl.code + gr.code + [IBin(op, gl.res, gr.res, Tmp(gr.t))], Tmp(gr.t), gr.t + 1)
  {
    hide ShiftFor;
  }

  lemma CountsMore(uses: seq<Use>, code: Code, uses': seq<Use>, i: Instr)
    requires Counts(uses, code)
    requires uses' == Tally(Occurrences(code) + Temps(i))
    ensures Counts(uses', code + [i])
  {
    OccurrencesSnoc(code, i);
  }

  /** The generator: the instruction buffer, the two counters and the use-count list. */
  class Generator {
    var code: Code
    var tempCounter: nat
    var labelCounter: nat
    var uses: seq<Use>
    const opt: bool

    ghost predicate Valid()
      reads this
    {
      Counts(uses, code)
    }

    constructor (opt: bool)
      ensures Valid() && code == [] && tempCounter == 0 && labelCounter == 0 && this.opt == opt
    {
      this.opt := opt;
      code, tempCounter, labelCounter, uses := [], 0, 0, [];
    }

    method NewTemp() returns (n: Name)
      modifies this`tempCounter
      ensures n == Tmp(old(tempCounter)) && tempCounter == old(tempCounter) + 1
    {
      n := Tmp(tempCounter);
      tempCounter := tempCounter + 1;
    }

    method NewLabel() returns (l: nat)
      modifies this`labelCounter
      ensures l == old(labelCounter) && labelCounter == old(labelCounter) + 1
    {
      l := labelCounter;
      labelCounter := labelCounter + 1;
    }

    method IncreaseTempAp(k: nat)
      modifies this`uses
      ensures uses == Bump(old(uses), k)
    {
      var i := 0;
      while i < |uses|
        invariant 0 <= i <= |uses| && uses == old(uses)
        invariant forall j :: 0 <= j < i ==> uses[j].temp != k
      {
        if uses[i].temp == k {
          BumpAt(uses, k, i);
          uses := uses[i := Use(k, uses[i].count + 1)];
          return;
        }
        i := i + 1;
      }
      BumpAt(uses, k, i);
      uses := uses + [Use(k, 1)];
    }

    method CountCells(cells: seq<Name>, ghost occs: seq<nat>)
      requires uses == Tally(occs)
      modifies this`uses
      ensures uses == Tally(occs + TempsIn(cells))
    {
      hide Tally, Bump;
      var j := 0;
      ghost var done: seq<nat> := [];
      assert occs + done == occs;
      while j < |cells|
        invariant 0 <= j <= |cells|
        invariant done + TempsIn(cells[j..]) == TempsIn(cells)
        invariant uses == Tally(occs + done)
      {
        assert cells[j..][1..] == cells[j + 1..];
        if cells[j].Tmp? {
          IncreaseTempAp(cells[j].k);
          TallyMore(occs + done, cells[j].k);
          Assoc(occs, done, [cells[j].k]);
          done := done + [cells[j].k];
        }
        j := j + 1;
      }
      assert done == TempsIn(cells);
    }

    method Emit(i: Instr)
      requires Valid()
      modifies this`code, this`uses
      ensures Valid() && Wrote(old(code), code, [i])
    {
      ghost var before := uses;
      CountCells(Cells(i), Occurrences(code));
      CountsMore(before, code, uses, i);
      code := code + [i];
    }

    method GenExprCode(e: Expr, quiet: bool) returns (res: Name)
      requires Valid()
      modifies this
      ensures Valid() && labelCounter == old(labelCounter)
      ensures Wrote(old(code), code, GenExpr(e, quiet, old(tempCounter), opt).code)
      ensures res == GenExpr(e, quiet, old(tempCounter), opt).res
      ensures tempCounter == GenExpr(e, quiet, old(tempCounter), opt).t
      decreases e, 1
    {
      hide Counts, Wrote;
      match e
      case IntLit(n) =>
        res := NewTemp();
        Emit(ILoadVal(n, res));
      case BoolLit(b) =>
        res := NewTemp();
        Emit(ILoadVal(if b then 1 else 0, res));
      case Id(x, _, _) =>
        res := Var(x);
        WroteNothing(code);
        if !quiet {
          Emit(ILoad(res));
        }
      case Binary(op, l, r) =>
        res := GenBinaryCode(op, l, r);
      case Unary(op, arg) =>
        ghost var c0 := code;
        var a := GenExprCode(arg, false);
        ghost var c1 := code;
        res := NewTemp();
        Emit(IUn(op, a, res));
        WroteBoth(c0, c1, code, GenExpr(arg, false, old(tempCounter), opt).code, [IUn(op, a, res)]);
      case CallE(f, args) =>
        res := GenCallCode(f, args);
    }

    method GenBinaryCode(op: BinOp, l: Expr, r: Expr) returns (res: Name)
      requires Valid()
      modifies this
      ensures Valid() && labelCounter == old(labelCounter)
      ensures Wrote(old(code), code, GenExpr(Binary(op, l, r), false, old(tempCounter), opt).code)
      ensures res == GenExpr(Binary(op, l, r), false, old(tempCounter), opt).res
      ensures tempCounter == GenExpr(Binary(op, l, r), false, old(tempCounter), opt).t
      decreases Binary(op, l, r), 0
    {
      BinaryGen(op, l, r, tempCounter, opt);
      hide Counts, Wrote, GenExpr, ShiftFor;
      ghost var c0, gl := code, GenExpr(l, false, tempCounter, opt);
      var a := GenExprCode(l, false);
      ghost var c1 := code;
      match ShiftFor(op, r, opt) {
        case Some(k) =>
          res := NewTemp();
          Emit(IShr(a, k, res));
          WroteBoth(c0, c1, code, gl.code, [IShr(a, k, res)]);
        case None =>
          ghost var gr := GenExpr(r, false, tempCounter, opt);
          var b := GenExprCode(r, false);
          WroteBoth(c0, c1, code, gl.code, gr.code);
          ghost var c2 := code;
          res := NewTemp();
          Emit(IBin(op, a, b, res));
          WroteBoth(c0, c2, code, gl.code + gr.code, [IBin(op, a, b, res)]);
      }
    }

    method GenArgsCode(args: ExprList) returns (names: seq<Name>)
      requires Valid()
      modifies this
      ensures Valid() && labelCounter == old(labelCounter)
      ensures Wrote(old(code), code, GenArgs(args, old(tempCounter), opt).code)
      ensures names == GenArgs(args, old(tempCounter), opt).res
      ensures tempCounter == GenArgs(args, old(tempCounter), opt).t
      decreases args, 0
    {
      hide Counts, Wrote;
      names := [];
      var arg := args;
      ghost var g := GenArgs(args, tempCounter, opt);
      ghost var start, done: Code := code, [];
      WroteNothing(code);
      assert names + g.res == g.res && done + g.code == g.code;
      while arg.ExprCons?
        invariant Valid() && labelCounter == old(labelCounter)
        invariant arg == args || arg < args
        invariant Wrote(start, code, done)
        invariant done + GenArgs(arg, tempCounter, opt).code == g.code
        invariant names + GenArgs(arg, tempCounter, opt).res == g.res
        invariant GenArgs(arg, tempCounter, opt).t == g.t
        decreases arg
      {
        ghost var c1, h := code, GenExpr(arg.first, false, tempCounter, opt);
        ghost var rest := GenArgs(arg.next, h.t, opt);
        Assoc(done, h.code, rest.code);
        Assoc(names, [h.res], rest.res);
        var a := GenExprCode(arg.first, false);
        WroteBoth(start, c1, code, done, h.code);
        done := done + h.code;
        names := names + [a];
        arg := arg.next;
      }
      assert done == g.code;
    }

    method GenParamsCode(names: seq<Name>)
      requires Valid()
      modifies this
      ensures Valid() && labelCounter == old(labelCounter) && tempCounter == old(tempCounter)
      ensures Wrote(old(code), code, Params(names))
    {
      hide Counts, Wrote;
      var i := 0;
      WroteNothing(code);
      while i < |names|
        invariant 0 <= i <= |names|
        invariant Valid() && labelCounter == old(labelCounter) && tempCounter == old(tempCounter)
        invariant Wrote(old(code), code, Params(names)[..i])
      {
        ghost var c1 := code;
        Emit(IParam(names[i]));
        WroteBoth(old(code), c1, code, Params(names)[..i], [IParam(names[i])]);
        assert Params(names)[..i + 1] == Params(names)[..i] + [IParam(names[i])];
        i := i + 1;
      }
      assert Params(names)[..i] == Params(names);
    }

    method GenCallCode(f: string, args: ExprList) returns (res: Name)
      requires Valid()
      modifies this
      ensures Valid() && labelCounter == old(labelCounter)
      ensures Wrote(old(code), code, GenExpr(CallE(f, args), false, old(tempCounter), opt).code)
      ensures res == GenExpr(CallE(f, args), false, old(tempCounter), opt).res
      ensures tempCounter == GenExpr(CallE(f, args), false, old(tempCounter), opt).t
      decreases args, 1
    {
      hide Counts, Wrote;
      ghost var c0, g := code, GenArgs(args, tempCounter, opt);
      var names := GenArgsCode(args);
      ghost var c1 := code;
      GenParamsCode(names);
      WroteBoth(c0, c1, code, g.code, Params(names));
      ghost var c2 := code;
      res := NewTemp();
      Emit(ICall(f, res));
      WroteBoth(c0, c2, code, g.code + Params(names), [ICall(f, res)]);
    }

    method GenStmtCode(s: Stmt)
      requires Valid()
      modifies this
      ensures Valid()
      ensures Wrote(old(code), code, GenStmt(s, old(tempCounter), old(labelCounter), opt).code)
      ensures tempCounter == GenStmt(s, old(tempCounter), old(labelCounter), opt).t
      ensures labelCounter == GenStmt(s, old(tempCounter), old(labelCounter), opt).l
      decreases s, 1
    {
      hide Counts, Wrote;
      match s
      case Assign(x, _, e) =>
        if opt && IsLiteral(e) {
          Emit(IStore(Lit(LiteralValue(e)), Var(x)));
        } else {
          GenStoreCode(e, x);
        }
      case Decl(x, _, init) =>
        WroteNothing(code);
        if init.Some? {
          GenStoreCode(init.value, x);
        }
      case CallS(f, args) =>
        var _ := GenCallCode(f, args);
      case Return(val) =>
        if val.None? {
          Emit(IRet(None));
        } else {
          ghost var c0, g := code, GenExpr(val.value, false, tempCounter, opt);
          var a := GenExprCode(val.value, false);
          ghost var c1 := code;
          Emit(IRet(Some(a)));
          WroteBoth(c0, c1, code, g.code, [IRet(Some(a))]);
        }
      case If(cond, thn, els) =>
        GenIfCode(cond, thn, els);
      case While(cond, body) =>
        GenWhileCode(cond, body);
      case Block(stmts) =>
        GenBlockCode(stmts);
    }

    method GenStoreCode(e: Expr, x: string)
      requires Valid()
      modifies this
      ensures Valid() && labelCounter == old(labelCounter)
      ensures var g := GenExpr(e, true, old(tempCounter), opt);
              Wrote(old(code), code, g.code + [IStore(Loc(g.res), Var(x))]) && tempCounter == g.t
      decreases e, 2
    {
      hide Counts, Wrote;
      ghost var c0, g := code, GenExpr(e, true, tempCounter, opt);
      var a := GenExprCode(e, true);
      ghost var c1 := code;
      Emit(IStore(Loc(a), Var(x)));
      WroteBoth(c0, c1, code, g.code, [IStore(Loc(a), Var(x))]);
    }

    method EmitBoth(i: Instr, j: Instr)
      requires Valid()
      modifies this`code, this`uses
      ensures Valid() && Wrote(old(code), code, [i, j])
    {
      hide Counts, Wrote;
      ghost var c0 := code;
      Emit(i);
      ghost var c1 := code;
      Emit(j);
      WroteBoth(c0, c1, code, [i], [j]);
      assert [i] + [j] == [i, j];
    }

    method GenIfCode(cond: Expr, thn: StmtList, els: StmtList)
      requires Valid()
      modifies this
      ensures Valid()
      ensures Wrote(old(code), code, GenStmt(If(cond, thn, els), old(tempCounter), old(labelCounter), opt).code)
      ensures tempCounter == GenStmt(If(cond, thn, els), old(tempCounter), old(labelCounter), opt).t
      ensures labelCounter == GenStmt(If(cond, thn, els), old(tempCounter), old(labelCounter), opt).l
      decreases If(cond, thn, els), 0
    {
      hide Counts, Wrote;
      ghost var b0, gc := code, GenExpr(cond, false, tempCounter, opt);
      var c := GenExprCode(cond, false);
      ghost var b1 := code;
      var elseLabel := NewLabel();
      var endLabel := NewLabel();
      Emit(IJmpf(c, elseLabel));
      ghost var b2, g := code, GenList(thn, tempCounter, labelCounter, opt);
      GenBlockCode(thn);
      ghost var b3 := code;
      EmitBoth(IJmp(endLabel), ILabel(elseLabel));
      ghost var b4, h := code, GenList(els, tempCounter, labelCounter, opt);
      GenBlockCode(els);
      ghost var b5 := code;
      Emit(ILabel(endLabel));
      WroteIf(b0, b1, b2, b3, b4, b5, code, gc, g.code, h.code, elseLabel);
    }

    method GenWhileCode(cond: Expr, body: StmtList)
      requires Valid()
      modifies this
      ensures Valid()
      ensures Wrote(old(code), code, GenStmt(While(cond, body), old(tempCounter), old(labelCounter), opt).code)
      ensures tempCounter == GenStmt(While(cond, body), old(tempCounter), old(labelCounter), opt).t
      ensures labelCounter == GenStmt(While(cond, body), old(tempCounter), old(labelCounter), opt).l
      decreases While(cond, body), 0
    {
      hide Counts, Wrote;
      ghost var b0 := code;
      var startLabel := NewLabel();
      var endLabel := NewLabel();
      Emit(ILabel(startLabel));
      ghost var b1, gc := code, GenExpr(cond, false, tempCounter, opt);
      var c := GenExprCode(cond, false);
      ghost var b2 := code;
      Emit(IJmpf(c, endLabel));
      ghost var b3, g := code, GenList(body, tempCounter, labelCounter, opt);
      GenBlockCode(body);
      ghost var b4 := code;
      EmitBoth(IJmp(startLabel), ILabel(endLabel));
      WroteWhile(b0, b1, b2, b3, b4, code, gc, g.code, startLabel);
    }

    method GenBlockCode(ss: StmtList)
      requires Valid()
      modifies this
      ensures Valid()
      ensures Wrote(old(code), code, GenList(ss, old(tempCounter), old(labelCounter), opt).code)
      ensures tempCounter == GenList(ss, old(tempCounter), old(labelCounter), opt).t
      ensures labelCounter == GenList(ss, old(tempCounter), old(labelCounter), opt).l
      decreases ss, 1
    {
      hide Counts, Wrote;
      var cur := ss;
      ghost var g := GenList(ss, tempCounter, labelCounter, opt);
      ghost var start, done: Code := code, [];
      WroteNothing(code);
      assert done + g.code == g.code;
      while cur.SCons?
        invariant Valid()
        invariant cur == ss || cur == SNil || cur < ss
        invariant Wrote(start, code, done)
        invariant done + GenList(cur, tempCounter, labelCounter, opt).code == g.code
        invariant GenList(cur, tempCounter, labelCounter, opt).t == g.t
        invariant GenList(cur, tempCounter, labelCounter, opt).l == g.l
        decreases cur.SCons?, cur
      {
        ghost var c1, h := code, GenStmt(cur.first, tempCounter, labelCounter, opt);
        ghost var rest := GenList(cur.next, h.t, h.l, opt);
        Assoc(done, h.code, rest.code);
        GenStmtCode(cur.first);
        WroteBoth(start, c1, code, done, h.code);
        done := done + h.code;
        if cur.first.Return? && opt {
          assert done + [] == done;
          cur := SNil;
        } else {
          cur := cur.next;
        }
      }
      assert done == g.code;
    }

    method GenMethodCode(m: Method)
      requires Valid()
      modifies this
      ensures Valid()
      ensures Wrote(old(code), code, GenMethod(m, old(tempCounter), old(labelCounter), opt).code)
      ensures tempCounter == GenMethod(m, old(tempCounter), old(labelCounter), opt).t
      ensures labelCounter == GenMethod(m, old(tempCounter), old(labelCounter), opt).l
    {
      hide Counts, Wrote;
      if m.isExtern {
        Emit(IExtern(m.name));
      } else {
        ghost var c0, g := code, GenList(m.body, tempCounter, labelCounter, opt);
        Emit(IEnter(m.name));
        ghost var c1 := code;
        GenBlockCode(m.body);
        WroteBoth(c0, c1, code, [IEnter(m.name)], g.code);
        ghost var c2 := code;
        Emit(ILeave(m.name));
        WroteBoth(c0, c2, code, [IEnter(m.name)] + g.code, [ILeave(m.name)]);
      }
    }

    method GenMethodsCode(ms: seq<Method>)
      requires Valid() && code == [] && tempCounter == 0 && labelCounter == 0
      modifies this
      ensures Valid()
      ensures Wrote([], code, GenMethods(ms, 0, 0, opt).code)
      ensures tempCounter == GenMethods(ms, 0, 0, opt).t
    {
      hide Counts, Wrote;
      var i := 0;
      WroteNothing(code);
      while i < |ms|
        invariant 0 <= i <= |ms| && Valid()
        invariant Wrote([], code, GenMethods(ms[..i], 0, 0, opt).code)
        invariant tempCounter == GenMethods(ms[..i], 0, 0, opt).t
        invariant labelCounter == GenMethods(ms[..i], 0, 0, opt).l
      {
        ghost var c1, g := code, GenMethods(ms[..i], 0, 0, opt);
        assert ms[..i + 1][..i] == ms[..i];
        GenMethodCode(ms[i]);
        WroteBoth([], c1, code, g.code, GenMethod(ms[i], g.t, g.l, opt).code);
        i := i + 1;
      }
      assert ms[..i] == ms;
    }

    /** A fresh generator leaves in its buffer the translation of the whole program, and in its list
        the number of appearances of each temporary. */
    method GenProgramCode(p: Program)
      requires Valid() && code == [] && tempCounter == 0 && labelCounter == 0
      modifies this
      ensures code == Translate(p, opt).code && uses == Tally(Occurrences(code))
      ensures tempCounter == GenMethods(p.methods, 0, 0, opt).t
    {
      hide GenMethods, Tally, Occurrences;
      GenMethodsCode(p.methods);
      assert [] + GenMethods(p.methods, 0, 0, opt).code == GenMethods(p.methods, 0, 0, opt).code;
    }
  }
}
