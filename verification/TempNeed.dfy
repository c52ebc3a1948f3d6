/** How many names the reused temporaries of a program need: the largest need of one of its
    expressions, by a recursion over the tree. */
module TempNeed {
  import opened Words
  import opened Source
  import opened Ir
  import opened IrGen
  import opened TempFlow
  import opened TempReuse
  import opened ReuseOptimal
  import opened Optimizer

  // ----- the need of a tree -----

  function Max(a: nat, b: nat): (m: nat)
    ensures m == a || m == b
    ensures m >= a && m >= b
  {
    if a >= b then a else b
  }

  /** Temporaries an expression's result occupies. */
  function Hold(e: Expr): nat {
    if e.Id? then 0 else 1
  }

  function Need(e: Expr, opt: bool): nat
    decreases e
  {
    match e
    case IntLit(_) => 1
    case BoolLit(_) => 1
    case Id(_, _, _) => 0
    case Binary(op, l, r) =>
      if ShiftFor(op, r, opt).Some? then Max(Need(l, opt), 1)
      else Max(Max(Need(l, opt), Hold(l) + Need(r, opt)), 1)
    case Unary(_, a) => Max(Need(a, opt), 1)
    case CallE(_, args) => Max(ArgsNeed(args, opt), 1)
  }

  /** Each argument's need on top of the results held before it. */
  function ArgsNeed(es: ExprList, opt: bool): nat
    decreases es
  {
    match es
    case NoExpr => 0
    case ExprCons(e, next) => Max(Need(e, opt), Hold(e) + ArgsNeed(next, opt))
  }

  function StmtNeed(s: Stmt, opt: bool): nat
    decreases s
  {
    match s
    case Assign(_, _, e) => if opt && IsLiteral(e) then 0 else Need(e, opt)
    case Decl(_, _, init) => if init.None? then 0 else Need(init.value, opt)
    case CallS(_, args) => Max(ArgsNeed(args, opt), 1)
    case Return(val) => if val.None? then 0 else Need(val.value, opt)
    case If(c, thn, els) => Max(Need(c, opt), Max(ListNeed(thn, opt), ListNeed(els, opt)))
    case While(c, body) => Max(Need(c, opt), ListNeed(body, opt))
    case Block(ss) => ListNeed(ss, opt)
  }

  function ListNeed(ss: StmtList, opt: bool): nat
    decreases ss
  {
    match ss
    case SNil => 0
    case SCons(s, next) => if opt && s.Return? then StmtNeed(s, opt) else Max(StmtNeed(s, opt), ListNeed(next, opt))
  }

  function MethodsNeed(ms: seq<Method>, opt: bool): nat {
    if ms == [] then 0
    else
      var m := ms[|ms| - 1];
      Max(MethodsNeed(ms[..|ms| - 1], opt), if m.isExtern then 0 else ListNeed(m.body, opt))
  }

  // ----- live sets of a piece of the code -----

  function Elems(o: seq<nat>): set<nat> {
    set x | x in o
  }

  /** In use at position k of o, when the temporaries of later are still to come after o. */
  function LiveIn(o: seq<nat>, later: set<nat>, k: nat): set<nat>
    requires k < |o|
  {
    set t | t in o[..k + 1] && (t in o[k..] || t in later)
  }

  /** m is the largest number in use at one of the positions from lo to hi. */
  ghost predicate IsMax(o: seq<nat>, later: set<nat>, lo: nat, hi: nat, m: nat)
    requires lo <= hi <= |o|
  {
    && (forall k :: lo <= k < hi ==> |LiveIn(o, later, k)| <= m)
    && (m > 0 ==> exists k :: lo <= k < hi && |LiveIn(o, later, k)| == m)
  }

  lemma {:induction false} MaxOfTwo(o: seq<nat>, later: set<nat>, lo: nat, mid: nat, hi: nat, m: nat, n: nat)
    requires lo <= mid <= hi <= |o| && IsMax(o, later, lo, mid, m) && IsMax(o, later, mid, hi, n)
    ensures IsMax(o, later, lo, hi, Max(m, n))
  {
    hide LiveIn;
  }

  lemma {:induction false} LiveFirst(a: seq<nat>, b: seq<nat>, later: set<nat>, k: nat)
    requires k < |a|
    ensures LiveIn(a + b, later, k) == LiveIn(a, later + Elems(b), k)
  {
    assert (a + b)[..k + 1] == a[..k + 1];
    assert (a + b)[k..] == a[k..] + b;
  }

  lemma {:induction false} LiveSecond(a: seq<nat>, b: seq<nat>, later: set<nat>, k: nat)
    requires k < |b|
    ensures LiveIn(a + b, later, |a| + k) == LiveIn(b, later, k) + Elems(a) * (Elems(b[k..]) + later)
  {
    assert (a + b)[..|a| + k + 1] == a + b[..k + 1];
    assert (a + b)[|a| + k..] == b[k..];
  }

  /** Only what comes back of o's own temporaries matters. */
  lemma {:induction false} LiveSame(o: seq<nat>, later: set<nat>, other: set<nat>, k: nat)
    requires k < |o| && Elems(o) * later == Elems(o) * other
    ensures LiveIn(o, later, k) == LiveIn(o, other, k)
  {
    forall t | t in o
      ensures t in later <==> t in other
    {
      assert t in Elems(o) * later <==> t in Elems(o) * other;
    }
    assert forall t :: t in o[..k + 1] ==> t in o;
  }

  /** The first part of a concatenation. */
  lemma {:induction false} MaxFirst(a: seq<nat>, b: seq<nat>, later: set<nat>, m: nat)
    requires IsMax(a, later + Elems(b), 0, |a|, m)
    ensures IsMax(a + b, later, 0, |a|, m)
  {
    hide LiveIn;
    forall k | 0 <= k < |a|
      ensures LiveIn(a + b, later, k) == LiveIn(a, later + Elems(b), k)
    {
      LiveFirst(a, b, later, k);
    }
    if m > 0 {
      var k :| 0 <= k < |a| && |LiveIn(a, later + Elems(b), k)| == m;
      assert |LiveIn(a + b, later, k)| == m;
    }
  }

  /** The second part, on top of what the first leaves in use throughout. */
  lemma {:induction false} MaxSecond(a: seq<nat>, b: seq<nat>, c: seq<nat>, later: set<nat>, held: set<nat>, m: nat)
    requires |b| > 0 && IsMax(b, later + Elems(c), 0, |b|, m)
    requires Elems(a) * (Elems(c) + later) == held && Elems(a) !! Elems(b)
    ensures IsMax(a + (b + c), later, |a|, |a| + |b|, |held| + m)
  {
    hide LiveIn;
    var o := a + (b + c);
    forall k | 0 <= k < |b|
      ensures |LiveIn(o, later, |a| + k)| == |held| + |LiveIn(b, later + Elems(c), k)|
    {
      SecondSize(a, b, c, later, held, k);
    }
    forall j | |a| <= j < |a| + |b|
      ensures |LiveIn(o, later, j)| <= |held| + m
    {
      var k := j - |a|;
      assert |LiveIn(o, later, |a| + k)| == |held| + |LiveIn(b, later + Elems(c), k)|;
    }
    var k := 0;
    if m > 0 {
      k := FindMax(b, later + Elems(c), m);
    }
    assert |LiveIn(b, later + Elems(c), k)| == m;
    assert |LiveIn(o, later, |a| + k)| == |held| + m;
  }

  lemma {:induction false} FindMax(o: seq<nat>, later: set<nat>, m: nat) returns (k: nat)
    requires m > 0 && IsMax(o, later, 0, |o|, m)
    ensures k < |o| && |LiveIn(o, later, k)| == m
  {
    k :| 0 <= k < |o| && |LiveIn(o, later, k)| == m;
  }

  lemma {:induction false} NotBoth(a: seq<nat>, b: seq<nat>)
    requires Elems(a) !! Elems(b)
    ensures forall t :: t in a ==> t !in b
  {
    assert forall t :: t in a && t in b ==> t in Elems(a) * Elems(b);
  }

  lemma {:induction false} SecondSize(a: seq<nat>, b: seq<nat>, c: seq<nat>, later: set<nat>, held: set<nat>, k: nat)
    requires k < |b| && Elems(a) * (Elems(c) + later) == held && Elems(a) !! Elems(b)
    ensures |LiveIn(a + (b + c), later, |a| + k)| == |held| + |LiveIn(b, later + Elems(c), k)|
  {
    LiveSecond(a, b + c, later, k);
    LiveFirst(b, c, later, k);
    assert (b + c)[k..] == b[k..] + c;
    var x := LiveIn(b, later + Elems(c), k);
    NotBoth(a, b);
    assert forall t :: t in b[k..] || t in b[..k + 1] ==> t in b;
    assert Elems(a) * (Elems((b + c)[k..]) + later) == held;
    assert held !! x;
    assert LiveIn(a + (b + c), later, |a| + k) == x + held;
  }

  /** Operands then, when there is one, a result that did not occur before: at most as many are in use as
      there are operands, and one at the result. */
  lemma {:induction false} MaxTail(p: seq<nat>, tl: seq<nat>, d: nat, later: set<nat>, m: nat)
    requires d !in p && d !in tl && |tl| <= Max(m, 1) && later <= {d} && IsMax(p + (tl + [d]), later, 0, |p|, m)
    ensures IsMax(p + (tl + [d]), later, 0, |p| + |tl| + 1, Max(m, 1))
  {
    hide LiveIn;
    var o := p + (tl + [d]);
    forall k | |p| <= k < |p| + |tl|
      ensures |LiveIn(o, later, k)| <= |tl|
    {
      TailLive(p, tl, [d], later, k);
    }
    DefLive(p, tl, d, later);
    assert |LiveIn(o, later, |p| + |tl|)| == 1;
    if m > 1 {
      var k :| 0 <= k < |p| && |LiveIn(o, later, k)| == m;
      assert |LiveIn(o, later, k)| == Max(m, 1);
    }
  }

  lemma {:induction false} TailLive(p: seq<nat>, tl: seq<nat>, d: seq<nat>, later: set<nat>, k: nat)
    requires |p| <= k < |p| + |tl| && later <= Elems(d) && (forall x :: x in d ==> x !in p && x !in tl)
    ensures |LiveIn(p + (tl + d), later, k)| <= |tl|
  {
    var o := p + (tl + d);
    assert o[k..] == tl[k - |p|..] + d;
    assert o[..k + 1] == p + tl[..k + 1 - |p|];
    assert LiveIn(o, later, k) <= Elems(tl);
    ElemsSize(tl);
    SubsetSize(LiveIn(o, later, k), Elems(tl));
  }

  lemma {:induction false} DefLive(p: seq<nat>, tl: seq<nat>, d: nat, later: set<nat>)
    requires later <= {d}
    ensures LiveIn(p + (tl + [d]), later, |p| + |tl|) == {d}
  {
    var o := p + (tl + [d]);
    assert o[|p| + |tl|..] == [d] && o[..|p| + |tl| + 1] == o;
    assert o[|p| + |tl|] == d;
  }

  lemma {:induction false} ElemsSize(o: seq<nat>)
    ensures |Elems(o)| <= |o|
    decreases |o|
  {
    if o != [] {
      ElemsSize(o[1..]);
      assert Elems(o) == Elems(o[1..]) + {o[0]};
    }
  }

  /** Operands with nothing after them. */
  lemma {:induction false} MaxUses(p: seq<nat>, tl: seq<nat>, later: set<nat>, m: nat)
    requires later == {} && |tl| <= m && IsMax(p + tl, later, 0, |p|, m)
    ensures IsMax(p + tl, later, 0, |p| + |tl|, m)
  {
    hide LiveIn;
    assert tl + [] == tl;
    forall k | |p| <= k < |p| + |tl|
      ensures |LiveIn(p + tl, later, k)| <= m
    {
      TailLive(p, tl, [], later, k);
    }
  }

  lemma {:induction false} IsMaxSame(o: seq<nat>, later: set<nat>, other: set<nat>, m: nat)
    requires Elems(o) * later == Elems(o) * other && IsMax(o, later, 0, |o|, m)
    ensures IsMax(o, other, 0, |o|, m)
  {
    hide LiveIn, Elems;
    forall k | 0 <= k < |o|
      ensures LiveIn(o, later, k) == LiveIn(o, other, k)
    {
      LiveSame(o, later, other, k);
    }
    if m > 0 {
      var k := FindMax(o, later, m);
      assert |LiveIn(o, other, k)| == m;
    }
  }

  // ----- occurrences of the generated code -----

  function OccOf(g: ExprGen): seq<nat> {
    Occurrences(g.code)
  }

  function ResultOf(n: Name): seq<nat> {
    if n.Tmp? then [n.k] else []
  }

  function ResultsOf(ns: seq<Name>): seq<nat> {
    if ns == [] then [] else ResultsOf(ns[..|ns| - 1]) + ResultOf(ns[|ns| - 1])
  }

  lemma {:induction false} TempsInPair(a: Name, b: Name, d: nat)
    ensures TempsIn([a, Tmp(d)]) == ResultOf(a) + [d]
    ensures TempsIn([a, b, Tmp(d)]) == (ResultOf(a) + ResultOf(b)) + [d]
    ensures TempsIn([a]) == ResultOf(a) && TempsIn([Tmp(d)]) == [d]
  {
    assert [a, b, Tmp(d)][1..] == [b, Tmp(d)] && [b, Tmp(d)][1..] == [Tmp(d)] && [Tmp(d)][1..] == [];
    assert [a, Tmp(d)][1..] == [Tmp(d)] && [a][1..] == [];
    assert TempsIn([Tmp(d)]) == [d];
    assert TempsIn([b, Tmp(d)]) == ResultOf(b) + [d];
    assert TempsIn([a, b, Tmp(d)]) == ResultOf(a) + (ResultOf(b) + [d]);
  }

  lemma {:induction false} OccOne(i: Instr)
    ensures Occurrences([i]) == Temps(i)
  {
    assert [i][..0] == [];
    assert [] + Temps(i) == Temps(i);
  }

  lemma {:induction false} ResultsSnoc(ns: seq<Name>, n: Name)
    ensures ResultsOf(ns + [n]) == ResultsOf(ns) + ResultOf(n)
  {
    assert (ns + [n])[..|ns|] == ns;
  }

  lemma {:induction false} NoResults()
    ensures ResultsOf([]) == [] && Occurrences([]) == [] && Params([]) == []
  {
  }

  lemma {:induction false} ParamsSnoc(ns: seq<Name>, n: Name)
    ensures Params(ns + [n]) == Params(ns) + [IParam(n)]
  {
  }

  lemma {:induction false} OccParams(ns: seq<Name>)
    ensures Occurrences(Params(ns)) == ResultsOf(ns)
    decreases |ns|
  {
    hide ResultsOf, Occurrences, TempsIn, Params;
    if ns == [] {
      NoResults();
    } else {
      var n0, n := ns[..|ns| - 1], ns[|ns| - 1];
      assert ns == n0 + [n];
      OccParams(n0);
      ParamsSnoc(n0, n);
      ResultsSnoc(n0, n);
      OccurrencesSnoc(Params(n0), IParam(n));
      TempsInPair(n, n, 0);
    }
  }

  lemma {:induction false} ResultsFirst(n: Name, ns: seq<Name>)
    ensures ResultsOf([n] + ns) == ResultOf(n) + ResultsOf(ns)
    decreases |ns|
  {
    hide ResultsOf, ResultOf;
    NoResults();
    if ns == [] {
      assert [n] + [] == [] + [n];
      ResultsSnoc([], n);
      assert [] + ResultOf(n) == ResultOf(n) + [];
    } else {
      var n0, m := ns[..|ns| - 1], ns[|ns| - 1];
      assert ns == n0 + [m] && [n] + ns == ([n] + n0) + [m];
      ResultsFirst(n, n0);
      ResultsSnoc(n0, m);
      ResultsSnoc([n] + n0, m);
      assert ResultOf(n) + (ResultsOf(n0) + ResultOf(m)) == (ResultOf(n) + ResultsOf(n0)) + ResultOf(m);
    }
  }

  lemma {:induction false} OccBinary(op: BinOp, l: Expr, r: Expr, t: nat, opt: bool)
    requires ShiftFor(op, r, opt).None?
    ensures var gl := GenExpr(l, false, t, opt);
            var gr := GenExpr(r, false, gl.t, opt);
            OccOf(GenExpr(Binary(op, l, r), false, t, opt))
            == OccOf(gl) + (OccOf(gr) + ((ResultOf(gl.res) + ResultOf(gr.res)) + [gr.t]))
  {
    hide Occurrences, TempsIn;
    var gl := GenExpr(l, false, t, opt);
    var gr := GenExpr(r, false, gl.t, opt);
    var i := IBin(op, gl.res, gr.res, Tmp(gr.t));
    OccurrencesSnoc(gl.code + gr.code, i);
    OccurrencesAppend(gl.code, gr.code);
    TempsInPair(gl.res, gr.res, gr.t);
    var tl := (ResultOf(gl.res) + ResultOf(gr.res)) + [gr.t];
    assert (OccOf(gl) + OccOf(gr)) + tl == OccOf(gl) + (OccOf(gr) + tl);
  }

  /** A unary node, or a division by shift: the operand, then the result. */
  lemma {:induction false} OccUnary(g: ExprGen, i: Instr, d: nat)
    requires Cells(i) == [g.res, Tmp(d)]
    ensures Occurrences(g.code + [i]) == OccOf(g) + (ResultOf(g.res) + [d])
  {
    hide Occurrences, TempsIn;
    OccurrencesSnoc(g.code, i);
    TempsInPair(g.res, g.res, d);
  }

  lemma {:induction false} OccCall(c: Code, ns: seq<Name>, f: string, d: nat)
    ensures Occurrences(c + Params(ns) + [ICall(f, Tmp(d))]) == Occurrences(c) + (ResultsOf(ns) + [d])
  {
    hide Occurrences, TempsIn;
    OccurrencesSnoc(c + Params(ns), ICall(f, Tmp(d)));
    OccurrencesAppend(c, Params(ns));
    OccParams(ns);
    TempsInPair(Tmp(d), Tmp(d), d);
    assert (Occurrences(c) + ResultsOf(ns)) + [d] == Occurrences(c) + (ResultsOf(ns) + [d]);
  }

  lemma {:induction false} OccLeaf(e: Expr, quiet: bool, t: nat, opt: bool)
    requires e.IntLit? || e.BoolLit? || e.Id?
    ensures OccOf(GenExpr(e, quiet, t, opt)) == if e.Id? then [] else [t]
  {
    hide Occurrences, TempsIn;
    var g := GenExpr(e, quiet, t, opt);
    OccNothing();
    if g.code != [] {
      OccOne(g.code[0]);
      assert g.code == [g.code[0]];
      TempsInPair(if e.Id? then Var(e.x) else Tmp(t), Tmp(t), t);
    }
  }

  lemma {:induction false} OccNothing()
    ensures Occurrences([]) == []
  {
  }

  // ----- where the temporaries of a piece lie -----

  ghost predicate Ranged(o: seq<nat>, lo: nat, hi: nat) {
    lo <= hi && forall x :: x in o ==> lo <= x < hi
  }

  ghost predicate ExprPiece(e: Expr, g: ExprGen, t: nat, opt: bool) {
    && Ranged(OccOf(g), t, g.t) && |ResultOf(g.res)| == Hold(e) <= Need(e, opt)
    && (forall x :: x in ResultOf(g.res) ==> x in OccOf(g))
    && (OccOf(g) == [] ==> e.Id?) && (e.Id? ==> OccOf(g) == [])
  }

  lemma {:induction false} Ends(p: seq<nat>, d: nat)
    ensures d in p + [d] && p + [d] != []
  {
    assert (p + [d])[|p|] == d;
  }

  lemma {:induction false} UnaryPiece(e: Expr, a: Expr, g: ExprGen, i: Instr, t: nat, opt: bool)
    requires ExprPiece(a, g, t, opt) && Cells(i) == [g.res, Tmp(g.t)] && Need(e, opt) == Max(Need(a, opt), 1) && !e.Id?
    ensures ExprPiece(e, ExprGen(g.code + [i], Tmp(g.t), g.t + 1), t, opt)
  {
    hide Occurrences, Need;
    OccUnary(g, i, g.t);
    Ends(OccOf(g) + ResultOf(g.res), g.t);
    assert OccOf(g) + (ResultOf(g.res) + [g.t]) == (OccOf(g) + ResultOf(g.res)) + [g.t];
  }

  lemma {:induction false} BinaryPiece(op: BinOp, l: Expr, r: Expr, t: nat, opt: bool)
    requires ShiftFor(op, r, opt).None? && ExprPiece(l, GenExpr(l, false, t, opt), t, opt)
    requires var gl := GenExpr(l, false, t, opt); ExprPiece(r, GenExpr(r, false, gl.t, opt), gl.t, opt)
    ensures ExprPiece(Binary(op, l, r), GenExpr(Binary(op, l, r), false, t, opt), t, opt)
  {
    var gl := GenExpr(l, false, t, opt);
    var gr := GenExpr(r, false, gl.t, opt);
    hide Occurrences, Need, GenExpr, ShiftFor, Hold;
    BinaryShape(op, l, r, t, opt);
    OccBinary(op, l, r, t, opt);
    var tl := ResultOf(gl.res) + ResultOf(gr.res);
    Ends(OccOf(gl) + OccOf(gr) + tl, gr.t);
    assert OccOf(gl) + (OccOf(gr) + (tl + [gr.t])) == (OccOf(gl) + OccOf(gr) + tl) + [gr.t];
  }

  lemma {:induction false} ExprPieces(e: Expr, quiet: bool, t: nat, opt: bool)
    ensures ExprPiece(e, GenExpr(e, quiet, t, opt), t, opt)
    decreases e
  {
    hide Occurrences, ShiftFor;
    QuietOnlyIds(e, quiet, t, opt);
    match e
    case Binary(op, l, r) =>
      var gl := GenExpr(l, false, t, opt);
      ExprPieces(l, false, t, opt);
      if ShiftFor(op, r, opt).Some? {
        UnaryPiece(e, l, gl, IShr(gl.res, ShiftFor(op, r, opt).value, Tmp(gl.t)), t, opt);
      } else {
        ExprPieces(r, false, gl.t, opt);
        BinaryPiece(op, l, r, t, opt);
      }
    case Unary(op, a) =>
      var g := GenExpr(a, false, t, opt);
      ExprPieces(a, false, t, opt);
      UnaryPiece(e, a, g, IUn(op, g.res, Tmp(g.t)), t, opt);
    case CallE(f, args) =>
      ArgsPieces(args, t, opt);
      CallPiece(f, args, t, opt);
    case _ => OccLeaf(e, quiet, t, opt);
  }

  lemma {:induction false} CallPiece(f: string, args: ExprList, t: nat, opt: bool)
    requires ArgsPiece(args, GenArgs(args, t, opt), t, opt)
    ensures ExprPiece(CallE(f, args), GenExpr(CallE(f, args), false, t, opt), t, opt)
  {
    hide Occurrences, ResultsOf, ArgsNeed, GenArgs;
    var g := GenArgs(args, t, opt);
    OccCall(g.code, g.res, f, g.t);
    Ends(Occurrences(g.code) + ResultsOf(g.res), g.t);
    assert Occurrences(g.code) + (ResultsOf(g.res) + [g.t]) == (Occurrences(g.code) + ResultsOf(g.res)) + [g.t];
  }

  ghost predicate ArgsPiece(es: ExprList, g: ArgsGen, t: nat, opt: bool) {
    && Ranged(Occurrences(g.code), t, g.t) && |ResultsOf(g.res)| <= ArgsNeed(es, opt)
    && (forall x :: x in ResultsOf(g.res) ==> x in Occurrences(g.code))
  }

  lemma {:induction false} ArgsPieces(es: ExprList, t: nat, opt: bool)
    ensures ArgsPiece(es, GenArgs(es, t, opt), t, opt)
    decreases es
  {
    hide Occurrences, GenExpr, Need, ExprPiece, ArgsPiece, ResultsOf;
    match es
    case NoExpr => NoArgsPiece(t, opt);
    case ExprCons(e, next) =>
      var g := GenExpr(e, false, t, opt);
      ExprPieces(e, false, t, opt);
      ArgsPieces(next, g.t, opt);
      MoreArgsPiece(e, next, g, GenArgs(next, g.t, opt), t, opt);
  }

  lemma NoArgsPiece(t: nat, opt: bool)
    ensures ArgsPiece(NoExpr, ArgsGen([], [], t), t, opt)
  {
    OccNothing();
  }

  lemma {:induction false} MoreArgsPiece(e: Expr, next: ExprList, g: ExprGen, h: ArgsGen, t: nat, opt: bool)
    requires ExprPiece(e, g, t, opt) && ArgsPiece(next, h, g.t, opt)
    ensures ArgsPiece(ExprCons(e, next), ArgsGen(g.code + h.code, [g.res] + h.res, h.t), t, opt)
  {
    hide Occurrences, Need, ResultsOf, ResultOf, OccOf;
    PieceOcc(e, g, t, opt);
    OccurrencesAppend(g.code, h.code);
    ResultsFirst(g.res, h.res);
  }

  lemma PieceOcc(e: Expr, g: ExprGen, t: nat, opt: bool)
    requires ExprPiece(e, g, t, opt)
    ensures OccOf(g) == Occurrences(g.code)
  {
    hide Occurrences, Need;
  }

  // ----- expressions -----

  /** While e is computed, no more than its need is in use, and as much at some moment, as long as none of
      its temporaries but the result comes back later. */
  ghost predicate ExprMax(e: Expr, g: ExprGen, later: set<nat>, opt: bool) {
    Elems(OccOf(g)) * later <= Elems(ResultOf(g.res)) ==> IsMax(OccOf(g), later, 0, |OccOf(g)|, Need(e, opt))
  }

  /** Operands p, their uses tl and the result d. */
  lemma {:induction false} NodeMax(p: seq<nat>, tl: seq<nat>, d: nat, later: set<nat>, m: nat)
    requires d !in p && d !in tl && |tl| <= Max(m, 1) && Elems(p + (tl + [d])) * later <= {d}
    requires IsMax(p + (tl + [d]), later * {d}, 0, |p|, m)
    ensures IsMax(p + (tl + [d]), later, 0, |p + (tl + [d])|, Max(m, 1))
  {
    hide IsMax;
    var o := p + (tl + [d]);
    MaxTail(p, tl, d, later * {d}, m);
    assert Elems(o) * (later * {d}) == Elems(o) * later;
    IsMaxSame(o, later * {d}, later, Max(m, 1));
  }

  lemma {:induction false} UnaryMax(a: seq<nat>, h: seq<nat>, d: nat, later: set<nat>, m: nat)
    requires d !in a && Elems(h) <= Elems(a) && |h| <= 1 && Elems(a + (h + [d])) * later <= {d}
    requires forall z: set<nat> :: Elems(a) * z <= Elems(h) ==> IsMax(a, z, 0, |a|, m)
    ensures IsMax(a + (h + [d]), later, 0, |a + (h + [d])|, Max(m, 1))
  {
    hide IsMax;
    var z := later * {d} + Elems(h + [d]);
    assert Elems(a) * z <= Elems(h) by {
      assert forall x :: x in h + [d] ==> x in h || x == d;
    }
    assert d !in h by {
      assert forall x :: x in h ==> x in Elems(h);
    }
    MaxFirst(a, h + [d], later * {d}, m);
    NodeMax(a, h, d, later, m);
  }

  lemma {:induction false} RangedMember(o: seq<nat>, lo: nat, hi: nat, x: nat)
    requires Ranged(o, lo, hi) && !(lo <= x < hi)
    ensures x !in o
  {
  }

  lemma {:induction false} RangesApart(a: seq<nat>, b: seq<nat>, lo: nat, mid: nat, hi: nat)
    requires Ranged(a, lo, mid) && Ranged(b, mid, hi)
    ensures Elems(a) !! Elems(b)
  {
  }

  /** Two operands a and b, the first's result held while the second is computed. */
  lemma {:induction false} BinaryMax(a: seq<nat>, b: seq<nat>, ha: seq<nat>, hb: seq<nat>, lo: nat, mid: nat, d: nat,
                                     later: set<nat>, m: nat, n: nat)
    requires Ranged(a, lo, mid) && Ranged(b, mid, d) && Elems(ha) <= Elems(a) && Elems(hb) <= Elems(b)
    requires |ha| <= 1 && |hb| <= n && (b == [] ==> n == 0)
    requires Elems(a + (b + ((ha + hb) + [d]))) * later <= {d}
    requires forall z: set<nat> :: Elems(a) * z <= Elems(ha) ==> IsMax(a, z, 0, |a|, m)
    requires forall z: set<nat> :: Elems(b) * z <= Elems(hb) ==> IsMax(b, z, 0, |b|, n)
    ensures var o := a + (b + ((ha + hb) + [d])); IsMax(o, later, 0, |o|, Max(Max(m, |ha| + n), 1))
  {
    assert mid <= d;
    hide IsMax, Ranged;
    var tl := ha + hb;
    var o, z := a + (b + (tl + [d])), later * {d};
    assert o == (a + b) + (tl + [d]);
    RangedMember(a, lo, mid, d);
    RangedMember(b, mid, d, d);
    RangesApart(a, b, lo, mid, d);
    PartSets(a, b, ha, hb, d, z);
    MaxFirst(a, b + (tl + [d]), z, m);
    if b == [] {
      NothingMax(o, z, |a|);
      MaxOfTwo(o, z, 0, |a|, |a|, m, 0);
      assert a + b == a;
      NodeMax(a, tl, d, later, Max(m, 0));
    } else {
      MaxSecond(a, b, tl + [d], z, Elems(ha), n);
      OneElem(ha);
      MaxOfTwo(o, z, 0, |a|, |a| + |b|, m, |ha| + n);
      NodeMax(a + b, tl, d, later, Max(m, |ha| + n));
    }
  }

  lemma {:induction false} NothingMax(o: seq<nat>, later: set<nat>, k: nat)
    requires k <= |o|
    ensures IsMax(o, later, k, k, 0)
  {
  }

  lemma {:induction false} OneElem(h: seq<nat>)
    requires |h| <= 1
    ensures |Elems(h)| == |h|
  {
    assert |h| == 1 ==> Elems(h) == {h[0]};
    assert |h| == 0 ==> Elems(h) == {};
  }

  lemma {:induction false} PartSets(a: seq<nat>, b: seq<nat>, ha: seq<nat>, hb: seq<nat>, d: nat, z: set<nat>)
    requires Elems(a) !! Elems(b) && d !in a && d !in b && Elems(ha) <= Elems(a) && Elems(hb) <= Elems(b) && z <= {d}
    ensures var tl := ha + hb;
            && Elems(a) * (z + Elems(b + (tl + [d]))) <= Elems(ha)
            && Elems(b) * (z + Elems(tl + [d])) <= Elems(hb)
            && Elems(a) * (Elems(tl + [d]) + z) == Elems(ha)
            && d !in tl && d !in a + b
  {
    NotBoth(a, b);
    var tl := ha + hb;
    assert forall x :: x in tl <==> x in ha || x in hb;
    assert forall x :: x in tl + [d] <==> x in tl || x == d;
    assert forall x :: x in b + (tl + [d]) <==> x in b || x in tl + [d];
    assert forall x :: x in ha ==> x in Elems(ha);
    assert forall x :: x in hb ==> x in Elems(hb);
  }

  lemma {:induction false} LeafMax(t: nat, later: set<nat>)
    ensures IsMax([t], later, 0, 1, 1) && IsMax([], later, 0, 0, 0)
  {
    assert [t][..1] == [t] && [t][0..] == [t];
    assert LiveIn([t], later, 0) == {t};
  }

  lemma {:induction false} QuietOnlyIds(e: Expr, quiet: bool, t: nat, opt: bool)
    ensures !e.Id? ==> GenExpr(e, quiet, t, opt) == GenExpr(e, false, t, opt)
  {
    hide ShiftFor;
  }

  lemma {:induction false} ExprNeeds(e: Expr, quiet: bool, t: nat, opt: bool)
    ensures forall z: set<nat> :: ExprMax(e, GenExpr(e, quiet, t, opt), z, opt)
    decreases e
  {
    hide Occurrences, IsMax, ShiftFor, LiveIn;
    QuietOnlyIds(e, quiet, t, opt);
    match e
    case Binary(op, l, r) =>
      ExprNeeds(l, false, t, opt);
      if ShiftFor(op, r, opt).Some? {
        var gl := GenExpr(l, false, t, opt);
        UnaryNeeds(e, l, gl, IShr(gl.res, ShiftFor(op, r, opt).value, Tmp(gl.t)), t, opt);
      } else {
        ExprNeeds(r, false, GenExpr(l, false, t, opt).t, opt);
        BinaryNeeds(op, l, r, t, opt);
      }
    case Unary(op, a) =>
      ExprNeeds(a, false, t, opt);
      var g := GenExpr(a, false, t, opt);
      UnaryNeeds(e, a, g, IUn(op, g.res, Tmp(g.t)), t, opt);
    case CallE(f, args) =>
      ArgsNeeds(args, t, opt);
      CallNeeds(f, args, t, opt);
    case _ =>
      OccLeaf(e, quiet, t, opt);
      forall z: set<nat>
        ensures ExprMax(e, GenExpr(e, quiet, t, opt), z, opt)
      {
        LeafMax(t, z);
      }
  }

  lemma {:induction false} UnaryNeeds(e: Expr, a: Expr, g: ExprGen, i: Instr, t: nat, opt: bool)
    requires g == GenExpr(a, false, t, opt) && Cells(i) == [g.res, Tmp(g.t)] && Need(e, opt) == Max(Need(a, opt), 1)
    requires GenExpr(e, false, t, opt) == ExprGen(g.code + [i], Tmp(g.t), g.t + 1)
    requires forall z: set<nat> :: ExprMax(a, g, z, opt)
    ensures forall z: set<nat> :: ExprMax(e, GenExpr(e, false, t, opt), z, opt)
  {
    hide Occurrences, IsMax, LiveIn, GenExpr, Need, Elems;
    ExprPieces(a, false, t, opt);
    OccUnary(g, i, g.t);
    var o, h := OccOf(g), ResultOf(g.res);
    RangedMember(o, t, g.t, g.t);
    ElemsWithin(h, o);
    forall z: set<nat> | Elems(o) * z <= Elems(h)
      ensures IsMax(o, z, 0, |o|, Need(a, opt))
    {
      assert ExprMax(a, g, z, opt);
    }
    ElemsOne(g.t);
    forall z: set<nat> | Elems(o + (h + [g.t])) * z <= Elems([g.t])
      ensures IsMax(o + (h + [g.t]), z, 0, |o + (h + [g.t])|, Need(e, opt))
    {
      UnaryMax(o, h, g.t, z, Need(a, opt));
    }
  }

  lemma {:induction false} ElemsWithin(h: seq<nat>, o: seq<nat>)
    requires forall x :: x in h ==> x in o
    ensures Elems(h) <= Elems(o)
  {
  }

  lemma {:induction false} ElemsOne(d: nat)
    ensures Elems([d]) == {d}
  {
  }

  lemma {:induction false} BinaryNeeds(op: BinOp, l: Expr, r: Expr, t: nat, opt: bool)
    requires ShiftFor(op, r, opt).None?
    requires forall z: set<nat> :: ExprMax(l, GenExpr(l, false, t, opt), z, opt)
    requires forall z: set<nat> :: ExprMax(r, GenExpr(r, false, GenExpr(l, false, t, opt).t, opt), z, opt)
    ensures forall z: set<nat> :: ExprMax(Binary(op, l, r), GenExpr(Binary(op, l, r), false, t, opt), z, opt)
  {
    var e := Binary(op, l, r);
    var gl := GenExpr(l, false, t, opt);
    var gr := GenExpr(r, false, gl.t, opt);
    BinaryShape(op, l, r, t, opt);
    hide Occurrences, IsMax, LiveIn, GenExpr, Need, Elems, ShiftFor;
    ExprPieces(l, false, t, opt);
    ExprPieces(r, false, gl.t, opt);
    OccBinary(op, l, r, t, opt);
    var a, b, ha, hb := OccOf(gl), OccOf(gr), ResultOf(gl.res), ResultOf(gr.res);
    ElemsWithin(ha, a);
    ElemsWithin(hb, b);
    forall z: set<nat> | Elems(a) * z <= Elems(ha)
      ensures IsMax(a, z, 0, |a|, Need(l, opt))
    {
      assert ExprMax(l, gl, z, opt);
    }
    forall z: set<nat> | Elems(b) * z <= Elems(hb)
      ensures IsMax(b, z, 0, |b|, Need(r, opt))
    {
      assert ExprMax(r, gr, z, opt);
    }
    ElemsOne(gr.t);
    var o := a + (b + ((ha + hb) + [gr.t]));
    forall z: set<nat> | Elems(o) * z <= Elems([gr.t])
      ensures IsMax(o, z, 0, |o|, Need(e, opt))
    {
      BinaryMax(a, b, ha, hb, t, gl.t, gr.t, z, Need(l, opt), Need(r, opt));
    }
  }

  lemma {:induction false} BinaryShape(op: BinOp, l: Expr, r: Expr, t: nat, opt: bool)
    requires ShiftFor(op, r, opt).None?
    ensures var gl := GenExpr(l, false, t, opt);
            var gr := GenExpr(r, false, gl.t, opt);
            && GenExpr(Binary(op, l, r), false, t, opt).res == Tmp(gr.t)
            && GenExpr(Binary(op, l, r), false, t, opt).t == gr.t + 1
    ensures Need(Binary(op, l, r), opt) == Max(Max(Need(l, opt), Hold(l) + Need(r, opt)), 1)
    ensures (r.Id? ==> Need(r, opt) == 0) && Hold(Binary(op, l, r)) == 1
  {
  }

  // ----- arguments and calls -----

  ghost predicate ArgsMax(es: ExprList, g: ArgsGen, later: set<nat>, opt: bool) {
    var o := Occurrences(g.code);
    Elems(o) * later == Elems(ResultsOf(g.res)) ==> IsMax(o, later, 0, |o|, ArgsNeed(es, opt))
  }

  /** A first argument, then the others with its result held. */
  lemma {:induction false} MoreArgs(a: seq<nat>, b: seq<nat>, ha: seq<nat>, hb: seq<nat>, lo: nat, mid: nat, hi: nat,
                                    later: set<nat>, m: nat, n: nat)
    requires Ranged(a, lo, mid) && Ranged(b, mid, hi) && Elems(ha) <= Elems(a) && Elems(hb) <= Elems(b)
    requires |ha| <= 1 && |ha| <= m && (b == [] ==> n == 0) && Elems(a + b) * later == Elems(ha + hb)
    requires forall z: set<nat> :: Elems(a) * z <= Elems(ha) ==> IsMax(a, z, 0, |a|, m)
    requires forall z: set<nat> :: Elems(b) * z == Elems(hb) ==> IsMax(b, z, 0, |b|, n)
    ensures IsMax(a + b, later, 0, |a + b|, Max(m, |ha| + n))
  {
    hide IsMax, Ranged;
    RangesApart(a, b, lo, mid, hi);
    ArgSets(a, b, ha, hb, later);
    MaxFirst(a, b, later, m);
    if b == [] {
      assert a + b == a;
    } else {
      assert later + Elems([]) == later && b + [] == b;
      MaxSecond(a, b, [], later, Elems(ha), n);
      OneElem(ha);
      MaxOfTwo(a + b, later, 0, |a|, |a| + |b|, m, |ha| + n);
    }
  }

  lemma {:induction false} ArgSets(a: seq<nat>, b: seq<nat>, ha: seq<nat>, hb: seq<nat>, later: set<nat>)
    requires Elems(a) !! Elems(b) && Elems(ha) <= Elems(a) && Elems(hb) <= Elems(b)
    requires Elems(a + b) * later == Elems(ha + hb)
    ensures Elems(a) * (later + Elems(b)) == Elems(ha) && Elems(b) * later == Elems(hb)
    ensures Elems(a) * (Elems([]) + later) == Elems(ha)
  {
    NotBoth(a, b);
    assert forall x :: x in ha ==> x in Elems(ha);
    assert forall x :: x in hb ==> x in Elems(hb);
    assert forall x :: x in a + b <==> x in a || x in b;
    assert forall x :: x in ha + hb <==> x in ha || x in hb;
    forall x
      ensures x in Elems(a) * later <==> x in Elems(ha)
      ensures x in Elems(b) * later <==> x in Elems(hb)
    {
      assert x in Elems(a + b) * later <==> x in Elems(ha + hb);
    }
  }

  lemma {:induction false} ArgsNeeds(es: ExprList, t: nat, opt: bool)
    ensures forall z: set<nat> :: ArgsMax(es, GenArgs(es, t, opt), z, opt)
    decreases es
  {
    hide Occurrences, IsMax, LiveIn, Need, GenExpr, Elems;
    match es
    case NoExpr =>
      OccNothing();
      forall z: set<nat>
        ensures ArgsMax(es, GenArgs(es, t, opt), z, opt)
      {
        LeafMax(0, z);
      }
    case ExprCons(e, next) =>
      ExprNeeds(e, false, t, opt);
      ArgsNeeds(next, GenExpr(e, false, t, opt).t, opt);
      ConsNeeds(e, next, t, opt);
  }

  lemma {:induction false} ConsNeeds(e: Expr, next: ExprList, t: nat, opt: bool)
    requires forall z: set<nat> :: ExprMax(e, GenExpr(e, false, t, opt), z, opt)
    requires forall z: set<nat> :: ArgsMax(next, GenArgs(next, GenExpr(e, false, t, opt).t, opt), z, opt)
    ensures forall z: set<nat> :: ArgsMax(ExprCons(e, next), GenArgs(ExprCons(e, next), t, opt), z, opt)
  {
    hide Occurrences, IsMax, LiveIn, Need, GenExpr, Elems;
    var g := GenExpr(e, false, t, opt);
    var h := GenArgs(next, g.t, opt);
    ExprPieces(e, false, t, opt);
    ArgsPieces(next, g.t, opt);
    OccurrencesAppend(g.code, h.code);
    ResultsFirst(g.res, h.res);
    var a, b, ha, hb := OccOf(g), Occurrences(h.code), ResultOf(g.res), ResultsOf(h.res);
    ElemsWithin(ha, a);
    ElemsWithin(hb, b);
    if b == [] {
      NoArgsNoNeed(next, g.t, opt);
    }
    forall z: set<nat> | Elems(a) * z <= Elems(ha)
      ensures IsMax(a, z, 0, |a|, Need(e, opt))
    {
      assert ExprMax(e, g, z, opt);
    }
    forall z: set<nat> | Elems(b) * z == Elems(hb)
      ensures IsMax(b, z, 0, |b|, ArgsNeed(next, opt))
    {
      assert ArgsMax(next, h, z, opt);
    }
    forall z: set<nat> | Elems(a + b) * z == Elems(ha + hb)
      ensures IsMax(a + b, z, 0, |a + b|, ArgsNeed(ExprCons(e, next), opt))
    {
      MoreArgs(a, b, ha, hb, t, g.t, h.t, z, Need(e, opt), ArgsNeed(next, opt));
    }
  }

  /** Arguments that leave no occurrence are identifiers. */
  lemma {:induction false} NoArgsNoNeed(es: ExprList, t: nat, opt: bool)
    requires Occurrences(GenArgs(es, t, opt).code) == []
    ensures ArgsNeed(es, opt) == 0
    decreases es
  {
    hide Occurrences;
    if es.ExprCons? {
      var g := GenExpr(es.first, false, t, opt);
      ExprPieces(es.first, false, t, opt);
      OccurrencesAppend(g.code, GenArgs(es.next, g.t, opt).code);
      NoArgsNoNeed(es.next, g.t, opt);
    }
  }

  /** A call, as an expression or as a statement. */
  lemma {:induction false} CallMax(args: ExprList, f: string, t: nat, opt: bool, later: set<nat>)
    requires forall z: set<nat> :: ArgsMax(args, GenArgs(args, t, opt), z, opt)
    requires var g := GenArgs(args, t, opt);
             Elems(Occurrences(g.code + Params(g.res) + [ICall(f, Tmp(g.t))])) * later <= {g.t}
    ensures var g := GenArgs(args, t, opt);
            var o := Occurrences(g.code + Params(g.res) + [ICall(f, Tmp(g.t))]);
            IsMax(o, later, 0, |o|, Max(ArgsNeed(args, opt), 1))
  {
    hide Occurrences, IsMax, LiveIn, GenArgs, ArgsNeed;
    var g := GenArgs(args, t, opt);
    ArgsPieces(args, t, opt);
    OccCall(g.code, g.res, f, g.t);
    var a, h, z := Occurrences(g.code), ResultsOf(g.res), later * {g.t};
    RangedMember(a, t, g.t, g.t);
    CallSets(a, h, g.t, z);
    assert ArgsMax(args, g, z + Elems(h + [g.t]), opt);
    MaxFirst(a, h + [g.t], z, ArgsNeed(args, opt));
    NodeMax(a, h, g.t, later, ArgsNeed(args, opt));
  }

  lemma {:induction false} CallSets(a: seq<nat>, h: seq<nat>, d: nat, z: set<nat>)
    requires d !in a && z <= {d} && forall x :: x in h ==> x in a
    ensures Elems(a) * (z + Elems(h + [d])) == Elems(h) && d !in h
  {
    assert forall x :: x in h + [d] <==> x in h || x == d;
  }

  lemma {:induction false} CallNeeds(f: string, args: ExprList, t: nat, opt: bool)
    requires forall z: set<nat> :: ArgsMax(args, GenArgs(args, t, opt), z, opt)
    ensures forall z: set<nat> :: ExprMax(CallE(f, args), GenExpr(CallE(f, args), false, t, opt), z, opt)
  {
    hide Occurrences, IsMax, LiveIn, GenArgs, ArgsNeed, Elems, ArgsMax;
    var g := GenArgs(args, t, opt);
    ElemsOne(g.t);
    var o := Occurrences(g.code + Params(g.res) + [ICall(f, Tmp(g.t))]);
    forall z: set<nat> | Elems(o) * z <= Elems([g.t])
      ensures IsMax(o, z, 0, |o|, Max(ArgsNeed(args, opt), 1))
    {
      CallMax(args, f, t, opt, z);
    }
  }

  // ----- statements -----

  /** A piece of code whose temporaries are its own, with the largest number in use. */
  ghost predicate Whole(o: seq<nat>, lo: nat, hi: nat, m: nat) {
    Ranged(o, lo, hi) && IsMax(o, {}, 0, |o|, m)
  }

  lemma {:induction false} WholeAppend(a: seq<nat>, b: seq<nat>, lo: nat, mid: nat, hi: nat, m: nat, n: nat)
    requires Whole(a, lo, mid, m) && Whole(b, mid, hi, n)
    ensures Whole(a + b, lo, hi, Max(m, n))
  {
    hide IsMax;
    RangesApart(a, b, lo, mid, hi);
    assert Elems(a) * {} == Elems(a) * Elems(b) && {} + Elems(b) == Elems(b);
    IsMaxSame(a, {}, Elems(b), m);
    MaxFirst(a, b, {}, m);
    if b == [] {
      assert a + b == a;
      NothingNeeds(n);
    } else {
      assert {} + Elems([]) == {} && b + [] == b;
      MaxSecond(a, b, [], {}, {}, n);
      MaxOfTwo(a + b, {}, 0, |a|, |a| + |b|, m, n);
    }
  }

  lemma {:induction false} NothingNeeds(n: nat)
    requires IsMax([], {}, 0, 0, n)
    ensures n == 0
  {
  }

  lemma {:induction false} WholeNothing(t: nat)
    ensures Whole([], t, t, 0)
  {
  }

  /** An expression and the instruction that uses its value. */
  lemma {:induction false} UsedWhole(e: Expr, quiet: bool, t: nat, opt: bool)
    ensures var g := GenExpr(e, quiet, t, opt); Whole(OccOf(g) + ResultOf(g.res), t, g.t, Need(e, opt))
  {
    hide Occurrences, IsMax, LiveIn, GenExpr, Need, Elems;
    var g := GenExpr(e, quiet, t, opt);
    ExprPieces(e, quiet, t, opt);
    ExprNeeds(e, quiet, t, opt);
    var a, h := OccOf(g), ResultOf(g.res);
    UsedSets(a, h);
    assert ExprMax(e, g, {} + Elems(h), opt);
    MaxFirst(a, h, {}, Need(e, opt));
    MaxUses(a, h, {}, Need(e, opt));
    assert forall x :: x in a + h ==> x in a || x in h;
  }

  lemma {:induction false} UsedSets(a: seq<nat>, h: seq<nat>)
    ensures Elems(a) * ({} + Elems(h)) <= Elems(h)
  {
  }

  lemma {:induction false} OccUsed(g: ExprGen, i: Instr)
    requires Temps(i) == ResultOf(g.res)
    ensures Occurrences(g.code + [i]) == OccOf(g) + ResultOf(g.res)
  {
    OccurrencesSnoc(g.code, i);
  }

  lemma {:induction false} HeldIs(n: Name, x: string, l: nat)
    ensures Temps(IStore(Loc(n), Var(x))) == ResultOf(n)
    ensures Temps(IRet(Some(n))) == ResultOf(n) && Temps(IJmpf(n, l)) == ResultOf(n)
  {
    assert Cells(IStore(Loc(n), Var(x))) == [n, Var(x)];
    assert [n, Var(x)][1..] == [Var(x)] && [Var(x)][1..] == [];
    assert TempsIn([Var(x)]) == [];
    assert ResultOf(n) + [] == ResultOf(n);
    TempsInPair(n, n, 0);
    assert Cells(IRet(Some(n))) == [n] && Cells(IJmpf(n, l)) == [n];
  }

  lemma {:induction false} LiteralStore(v: CInt, x: string)
    ensures Temps(IStore(Lit(v), Var(x))) == []
  {
    assert [] + [Var(x)] == [Var(x)] && [Var(x)][1..] == [];
    assert TempsIn([Var(x)]) == [];
  }

  /** Labels, jumps, boundaries and stores of literals mention no temporary. */
  lemma {:induction false} OccSkip(c: Code, i: Instr)
    requires Temps(i) == []
    ensures Occurrences(c + [i]) == Occurrences(c) && Occurrences([i] + c) == Occurrences(c) && Occurrences([i]) == []
  {
    hide Occurrences, Temps;
    OccurrencesSnoc(c, i);
    OccurrencesAppend([i], c);
    OccOne(i);
  }

  lemma {:induction false} OccIf(c: ExprGen, thn: Code, els: Code, l: nat)
    ensures Occurrences(IfCode(c, thn, els, l))
         == ((OccOf(c) + ResultOf(c.res)) + Occurrences(thn)) + Occurrences(els)
  {
    hide Occurrences;
    HeldIs(c.res, "", l);
    OccUsed(c, IJmpf(c.res, l));
    var b := c.code + [IJmpf(c.res, l)];
    OccurrencesAppend(b, thn);
    OccSkip(b + thn, IJmp(l + 1));
    OccSkip(b + thn + [IJmp(l + 1)], ILabel(l));
    assert b + thn + [IJmp(l + 1), ILabel(l)] == b + thn + [IJmp(l + 1)] + [ILabel(l)];
    OccurrencesAppend(b + thn + [IJmp(l + 1), ILabel(l)], els);
    OccSkip(b + thn + [IJmp(l + 1), ILabel(l)] + els, ILabel(l + 1));
  }

  lemma {:induction false} OccWhile(c: ExprGen, body: Code, l: nat)
    ensures Occurrences(WhileCode(c, body, l)) == (OccOf(c) + ResultOf(c.res)) + Occurrences(body)
  {
    hide Occurrences;
    HeldIs(c.res, "", l + 1);
    OccUsed(c, IJmpf(c.res, l + 1));
    var b := c.code + [IJmpf(c.res, l + 1)];
    assert [ILabel(l)] + c.code + [IJmpf(c.res, l + 1)] == [ILabel(l)] + b;
    OccSkip(b, ILabel(l));
    OccurrencesAppend([ILabel(l)] + b, body);
    OccSkip([ILabel(l)] + b + body, IJmp(l));
    OccSkip([ILabel(l)] + b + body + [IJmp(l)], ILabel(l + 1));
    assert [ILabel(l)] + b + body + [IJmp(l), ILabel(l + 1)] == [ILabel(l)] + b + body + [IJmp(l)] + [ILabel(l + 1)];
  }

  lemma {:induction false} CallWhole(f: string, args: ExprList, t: nat, opt: bool)
    ensures var g := GenArgs(args, t, opt);
            Whole(Occurrences(g.code + Params(g.res) + [ICall(f, Tmp(g.t))]), t, g.t + 1, Max(ArgsNeed(args, opt), 1))
  {
    hide Occurrences, IsMax, GenArgs, ArgsNeed, ArgsMax;
    var g := GenArgs(args, t, opt);
    ArgsPieces(args, t, opt);
    ArgsNeeds(args, t, opt);
    OccCall(g.code, g.res, f, g.t);
    CallMax(args, f, t, opt, {});
  }

  lemma {:induction false} StoreWhole(e: Expr, x: string, t: nat, opt: bool)
    ensures var g := GenExpr(e, true, t, opt);
            Whole(Occurrences(g.code + [IStore(Loc(g.res), Var(x))]), t, g.t, Need(e, opt))
  {
    hide Occurrences, Whole, GenExpr, Need;
    var g := GenExpr(e, true, t, opt);
    UsedWhole(e, true, t, opt);
    HeldIs(g.res, x, 0);
    OccUsed(g, IStore(Loc(g.res), Var(x)));
  }

  lemma {:induction false} StmtWhole(s: Stmt, t: nat, l: nat, opt: bool)
    ensures var g := GenStmt(s, t, l, opt); Whole(Occurrences(g.code), t, g.t, StmtNeed(s, opt))
    decreases s
  {
    hide Occurrences, Whole, GenExpr, GenArgs, Need, ArgsNeed, IfCode, WhileCode;
    WholeNothing(t);
    OccNothing();
    match s
    case Assign(x, _, e) =>
      if opt && IsLiteral(e) {
        LiteralStore(LiteralValue(e), x);
        OccSkip([], IStore(Lit(LiteralValue(e)), Var(x)));
      } else {
        StoreWhole(e, x, t, opt);
      }
    case Decl(x, _, init) => if init.Some? { StoreWhole(init.value, x, t, opt); }
    case CallS(f, args) => CallWhole(f, args, t, opt);
    case Return(val) =>
      if val.None? {
        OccSkip([], IRet(None));
      } else {
        var g := GenExpr(val.value, false, t, opt);
        UsedWhole(val.value, false, t, opt);
        HeldIs(g.res, "", 0);
        OccUsed(g, IRet(Some(g.res)));
      }
    case If(cond, thn, els) =>
      var c := GenExpr(cond, false, t, opt);
      var g := GenList(thn, c.t, l + 2, opt);
      var h := GenList(els, g.t, g.l, opt);
      UsedWhole(cond, false, t, opt);
      ListWhole(thn, c.t, l + 2, opt);
      ListWhole(els, g.t, g.l, opt);
      OccIf(c, g.code, h.code, l);
      WholeAppend(OccOf(c) + ResultOf(c.res), Occurrences(g.code), t, c.t, g.t, Need(cond, opt), ListNeed(thn, opt));
      WholeAppend((OccOf(c) + ResultOf(c.res)) + Occurrences(g.code), Occurrences(h.code), t, g.t, h.t,
                  Max(Need(cond, opt), ListNeed(thn, opt)), ListNeed(els, opt));
    case While(cond, body) =>
      var c := GenExpr(cond, false, t, opt);
      var g := GenList(body, c.t, l + 2, opt);
      UsedWhole(cond, false, t, opt);
      ListWhole(body, c.t, l + 2, opt);
      OccWhile(c, g.code, l);
      WholeAppend(OccOf(c) + ResultOf(c.res), Occurrences(g.code), t, c.t, g.t, Need(cond, opt), ListNeed(body, opt));
    case Block(ss) => ListWhole(ss, t, l, opt);
  }

  lemma {:induction false} ListWhole(ss: StmtList, t: nat, l: nat, opt: bool)
    ensures var g := GenList(ss, t, l, opt); Whole(Occurrences(g.code), t, g.t, ListNeed(ss, opt))
    decreases ss
  {
    hide Occurrences, Whole, GenStmt, StmtNeed;
    match ss
    case SNil =>
      OccNothing();
      WholeNothing(t);
    case SCons(s, next) =>
      StmtWhole(s, t, l, opt);
      var g := GenStmt(s, t, l, opt);
      if !(opt && s.Return?) {
        ListWhole(next, g.t, g.l, opt);
        var h := GenList(next, g.t, g.l, opt);
        OccurrencesAppend(g.code, h.code);
        WholeAppend(Occurrences(g.code), Occurrences(h.code), t, g.t, h.t, StmtNeed(s, opt), ListNeed(next, opt));
      }
  }

  lemma {:induction false} MethodWhole(m: Method, t: nat, l: nat, opt: bool)
    ensures var g := GenMethod(m, t, l, opt);
            Whole(Occurrences(g.code), t, g.t, if m.isExtern then 0 else ListNeed(m.body, opt))
  {
    hide Occurrences, Whole, GenList, ListNeed;
    if m.isExtern {
      OccSkip([], IExtern(m.name));
      WholeNothing(t);
    } else {
      var g := GenList(m.body, t, l, opt);
      ListWhole(m.body, t, l, opt);
      OccSkip(g.code, IEnter(m.name));
      OccSkip([IEnter(m.name)] + g.code, ILeave(m.name));
    }
  }

  lemma {:induction false} MethodsWhole(ms: seq<Method>, opt: bool)
    ensures var g := GenMethods(ms, 0, 0, opt); Whole(Occurrences(g.code), 0, g.t, MethodsNeed(ms, opt))
    decreases |ms|
  {
    hide Occurrences, Whole, GenMethod;
    if ms == [] {
      OccNothing();
      WholeNothing(0);
    } else {
      var ms0, m := ms[..|ms| - 1], ms[|ms| - 1];
      var g := GenMethods(ms0, 0, 0, opt);
      var h := GenMethod(m, g.t, g.l, opt);
      MethodsWhole(ms0, opt);
      MethodWhole(m, g.t, g.l, opt);
      OccurrencesAppend(g.code, h.code);
      WholeAppend(Occurrences(g.code), Occurrences(h.code), 0, g.t, h.t, MethodsNeed(ms0, opt),
                  if m.isExtern then 0 else ListNeed(m.body, opt));
    }
  }

  // ----- the peak is the need -----

  lemma {:induction false} LiveIsIn(o: seq<nat>, k: nat)
    requires k < |o|
    ensures LiveAt(o, k) == LiveIn(o, {}, k)
  {
    forall t
      ensures t in LiveAt(o, k) <==> t in LiveIn(o, {}, k)
    {
      if t in LiveAt(o, k) {
        var i, j :| 0 <= i <= k <= j < |o| && o[i] == t && o[j] == t;
        assert o[..k + 1][i] == t && o[k..][j - k] == t;
      }
      if t in LiveIn(o, {}, k) {
        var i :| 0 <= i < k + 1 && o[..k + 1][i] == t;
        var j :| 0 <= j < |o| - k && o[k..][j] == t;
        assert o[i] == t && o[k + j] == t;
        assert Covers(o, k, t);
      }
    }
  }

  lemma {:induction false} PeakIsMax(o: seq<nat>, m: nat)
    requires IsMax(o, {}, 0, |o|, m)
    ensures Peak(o) == m
  {
    hide LiveIn, LiveAt;
    var j := PeakReached(o, |o|);
    if m > 0 {
      var k := FindMax(o, {}, m);
      LiveIsIn(o, k);
      PeakBounds(o, |o|, k);
    }
    if Peak(o) > 0 {
      LiveIsIn(o, j);
    }
  }

  /** After reuse a program uses exactly the names below the largest need of its expressions, however
      many statements it has. */
  lemma {:induction false} ReuseUsesNeed(p: Program, opt: bool)
    ensures var code := Translate(p, opt).code;
            var n := GenMethods(p.methods, 0, 0, opt).t;
            && Bounded(Occurrences(code), n)
            && Peak(Occurrences(code)) == MethodsNeed(p.methods, opt)
            && NamesUsed(FinalCells(Occurrences(code), n)) == UpTo(MethodsNeed(p.methods, opt))
  {
    hide Occurrences, FinalCells, GenMethods, Peak, IsMax, NamesUsed;
    var code := Translate(p, opt).code;
    MethodsWhole(p.methods, opt);
    PeakIsMax(Occurrences(code), MethodsNeed(p.methods, opt));
    ProgramFlow(p.methods, opt);
    FlowInOrder(code);
    var n := GenMethods(p.methods, 0, 0, opt).t;
    ReuseIsOptimal(Occurrences(code), n, FinalCells(Occurrences(code), n));
  }
}
