/** Source programs on which what the compiler emits is wrong, or rests on more than it guarantees. */
module Witnesses {
  import opened Words
  import opened Source
  import opened Analyzer
  import opened AnalyzerCorrect
  import opened TypeSoundness
  import opened Ir
  import opened IrGen
  import opened IrLayout
  import opened IrGenCorrect
  import opened IrGenExact
  import opened Runs
  import opened X86
  import opened Lowering
  import opened Frames
  import opened LoweringCorrect
  import opened Alignment
  import opened LoweringExact
  import opened Mentions
  import opened EndToEnd

  function Silent(tr: Trace): Option<Word> {
    None
  }

  // ----- a frame that does not hold its slots -----

  const UNMENTIONED_SOURCE :=
    Program([Method("main", [Param("a", TInt), Param("b", TInt), Param("c", TInt)], RVoid, false,
                    SCons(Return(None), SNil))], Silent)

  lemma {:induction false} OneMethod(m: Method, opt: bool)
    ensures CheckMethods([m], [m], opt) == match CheckMethod([m], m, opt) case None => None case Some(m1) => Some([m1])
    ensures GenMethods([m], 0, 0, opt).code == GenMethod(m, 0, 0, opt).code
    ensures Find([m], m.name) == Some(m)
  {
    hide CheckMethod, GenMethod;
    var ms := [m];
    assert ms[1..] == [] && ms[..|ms| - 1] == [];
    assert CheckMethods(ms, [], opt) == Some([]);
    if CheckMethod(ms, m, opt).Some? {
      var m1 := CheckMethod(ms, m, opt).value;
      assert [m1] + [] == [m1];
    }
    var c := GenMethod(m, 0, 0, opt).code;
    assert GenMethods(ms, 0, 0, opt).code == [] + c == c;
  }

  lemma {:induction false} UnmentionedAccepted()
    ensures Analyze(UNMENTIONED_SOURCE, false) == Some(UNMENTIONED_SOURCE)
  {
    var m := UNMENTIONED_SOURCE.methods[0];
    OneMethod(m, false);
    assert CheckMethod([m], m, false) == Some(m);
  }

  lemma {:induction false} UnmentionedTranslated()
    ensures var P := Translate(UNMENTIONED_SOURCE, false); P.code == UNMENTIONED.code && P.sigs == UNMENTIONED.sigs
  {
    var m := UNMENTIONED_SOURCE.methods[0];
    OneMethod(m, false);
    assert GenMethod(m, 0, 0, false).code == UNMENTIONED.code;
    hide GenMethods;
    assert ParamNames(m.params) == ["a", "b", "c"];
    assert [m][1..] == [];
  }

  /** The analyzer accepts it, and its frame has room for two of its three parameters. */
  lemma {:induction false} FrameOverflows()
    ensures Analyze(UNMENTIONED_SOURCE, false) == Some(UNMENTIONED_SOURCE)
    ensures !FramesFit(Intermediate(UNMENTIONED_SOURCE, false))
  {
    hide Translate, Analyze, FrameFits, HasMethod, Structured, Intermediate;
    UnmentionedAccepted();
    UnmentionedTranslated();
    PlainIntermediate(UNMENTIONED_SOURCE);
    UnmentionedOverflows();
    SameFrame(Translate(UNMENTIONED_SOURCE, false), UNMENTIONED, "main");
  }

  lemma {:induction false} SameFrame(P: IrProgram, Q: IrProgram, f: string)
    requires P.code == Q.code && P.sigs == Q.sigs && HasMethod(P.code, f)
    ensures FrameFits(P, f) <==> FrameFits(Q, f)
  {
    SameTable(P, Q, LeaveAt(P.code, f));
  }

  lemma {:induction false} SameTable(P: IrProgram, Q: IrProgram, i: nat)
    requires P.code == Q.code && P.sigs == Q.sigs && i <= |P.code|
    ensures Table(P, i) == Table(Q, i)
    decreases i
  {
    hide AddKeys, ParamKeys, KeysOf, Operands;
    if i > 0 {
      SameTable(P, Q, i - 1);
    }
  }

  // ----- a name with two types -----

  /** boolean main() { integer a = 2; { boolean a; return a; } } */
  const SHARED_INNER := SCons(Decl("a", TBool, None), SCons(Return(Some(Id("a", TBool, 0))), SNil))
  const SHARED_METHOD :=
    Method("main", [], RBool, false, SCons(Decl("a", TInt, Some(IntLit(2))), SCons(Block(SHARED_INNER), SNil)))
  const SHARED := Program([SHARED_METHOD], Silent)

  /** The analyzer accepts it, and it returns 2 as a boolean: the two variables are one cell. */
  lemma {:induction false} SharedCell(tr: Trace)
    ensures Analyze(SHARED, false) == Some(SHARED)
    ensures CallMethod(SHARED, "main", [], tr, 0) == Value(Some(2), tr + [Event("main", [])])
  {
    var m, ms := SHARED_METHOD, SHARED.methods;
    OneMethod(m, false);
    assert CheckList(ms, SHARED_INNER, RBool, false) == TypedList(SHARED_INNER);
    assert CheckMethod(ms, m, false) == Some(m);
    var env: Env := map["a" := 2];
    var tr1 := tr + [Event("main", [])];
    assert ExecList(SHARED, SHARED_INNER, env, tr1, 0) == Returned(Some(2), tr1);
    assert ExecList(SHARED, m.body, map[], tr1, 0) == Returned(Some(2), tr1);
  }

  // ----- a branch nobody checks -----

  /** void main() { integer x; if (false) { x = true; } else { return; } } */
  const UNCHECKED_BRANCH := SCons(Assign("x", TInt, BoolLit(true)), SNil)
  const UNCHECKED_IF := If(BoolLit(false), UNCHECKED_BRANCH, SCons(Return(None), SNil))
  const UNCHECKED :=
    Program([Method("main", [], RVoid, false, SCons(Decl("x", TInt, None), SCons(UNCHECKED_IF, SNil)))], Silent)

  /** The branch that the optimising analysis drops is not type-checked: it accepts a program that the
      analysis without optimisation rejects. */
  lemma {:induction false} UncheckedBranch()
    ensures Analyze(UNCHECKED, true).Some? && Analyze(UNCHECKED, false).None?
  {
    UncheckedMethod();
    hide CheckMethod, GenMethods, GenMethod;
    OneMethod(UNCHECKED.methods[0], true);
    OneMethod(UNCHECKED.methods[0], false);
  }

  lemma {:induction false} UncheckedMethod()
    ensures var m := UNCHECKED.methods[0]; CheckMethod([m], m, true).Some? && CheckMethod([m], m, false).None?
  {
    var ms := UNCHECKED.methods;
    assert CheckList(ms, UNCHECKED_BRANCH, RVoid, false) == BadList;
    assert CheckStmt(ms, UNCHECKED_IF, RVoid, false) == BadStmt;
    assert CheckStmt(ms, UNCHECKED_IF, RVoid, true) == TypedStmt(Block(SCons(Return(None), SNil)));
  }

  // ----- a misaligned stack -----

  function IntParams(xs: seq<string>): (ps: seq<Param>)
    ensures |ps| == |xs| && forall i :: 0 <= i < |xs| ==> ps[i] == Param(xs[i], TInt)
  {
    seq(|xs|, i requires 0 <= i < |xs| => Param(xs[i], TInt))
  }

  function IdArgs(xs: seq<string>): (es: ExprList)
    ensures ListLength(es) == |xs|
  {
    if xs == [] then NoExpr else ExprCons(Id(xs[0], TInt, 0), IdArgs(xs[1..]))
  }

  function LitArgs(vs: seq<CInt>): (es: ExprList)
    ensures ListLength(es) == |vs|
  {
    if vs == [] then NoExpr else ExprCons(IntLit(vs[0]), LitArgs(vs[1..]))
  }

  const NAMES := ["a", "b", "c", "d", "x", "y", "z"]
  const NUMBERS: seq<CInt> := [1, 2, 3, 4, 5, 6, 7]
  const E := Method("e", [], RVoid, true, SNil)
  const H := Method("h", IntParams(NAMES), RVoid, true, SNil)
  const CALL_H := SCons(CallS("h", IdArgs(NAMES)), SNil)
  const F := Method("f", IntParams(NAMES), RVoid, false, SCons(CallS("e", NoExpr), CALL_H))
  const CALL_F := SCons(CallS("f", LitArgs(NUMBERS)), SNil)
  const MAIN := Method("main", [], RVoid, false, CALL_F)

  /** extern void e(); extern void h(seven integers);
      void f(seven integers) { e(); h(its parameters); }
      void main() { f(1, 2, 3, 4, 5, 6, 7); } */
  const SEVEN := Program([E, H, F, MAIN], Silent)

  lemma NamesApart(ms: seq<Method>)
    requires |ms| == 4 && ms[0].name == "e" && ms[1].name == "h" && ms[2].name == "f" && ms[3].name == "main"
    ensures DistinctMethods(ms)
  {
    assert "e"[0] == 'e' && "h"[0] == 'h' && "f"[0] == 'f' && "main"[0] == 'm';
  }

  lemma {:induction false} SevenFinds()
    ensures Find(SEVEN.methods, "e") == Some(E) && Find(SEVEN.methods, "h") == Some(H)
    ensures Find(SEVEN.methods, "f") == Some(F) && Find(SEVEN.methods, "main") == Some(MAIN)
    ensures forall m :: m in SEVEN.methods <==> m in {E, H, F, MAIN}
    ensures DistinctMethods(SEVEN.methods)
  {
    hide Find;
    var ms := SEVEN.methods;
    NamesApart(ms);
    FindSelf(ms, 0);
    FindSelf(ms, 1);
    FindSelf(ms, 2);
    FindSelf(ms, 3);
  }

  // checking and evaluating lists of literals and of identifiers

  lemma {:induction false} LitArgsCheck(ms: seq<Method>, vs: seq<CInt>, ps: seq<Param>)
    requires |vs| == |ps| && forall i :: 0 <= i < |ps| ==> ps[i].ty == TInt
    ensures CheckArgs(ms, LitArgs(vs), ps, false) == TypedArgs(LitArgs(vs))
    decreases |vs|
  {
    if vs != [] {
      LitArgsCheck(ms, vs[1..], ps[1..]);
    }
  }

  lemma {:induction false} IdArgsCheck(ms: seq<Method>, xs: seq<string>, ps: seq<Param>)
    requires |xs| == |ps| && forall i :: 0 <= i < |ps| ==> ps[i].ty == TInt
    ensures CheckArgs(ms, IdArgs(xs), ps, false) == TypedArgs(IdArgs(xs))
    decreases |xs|
  {
    if xs != [] {
      IdArgsCheck(ms, xs[1..], ps[1..]);
    }
  }

  lemma {:induction false} LitArgsEvaluate(p: Program, vs: seq<CInt>, env: Env, tr: Trace, fuel: nat)
    ensures EvalArgs(p, LitArgs(vs), env, tr, fuel).Args? && EvalArgs(p, LitArgs(vs), env, tr, fuel).tr == tr
    decreases |vs|
  {
    if vs != [] {
      LitArgsEvaluate(p, vs[1..], env, tr, fuel);
    }
  }

  lemma {:induction false} IdArgsEvaluate(p: Program, xs: seq<string>, env: Env, tr: Trace, fuel: nat)
    requires forall i :: 0 <= i < |xs| ==> xs[i] in env
    ensures EvalArgs(p, IdArgs(xs), env, tr, fuel).Args? && EvalArgs(p, IdArgs(xs), env, tr, fuel).tr == tr
    decreases |xs|
  {
    if xs != [] {
      IdArgsEvaluate(p, xs[1..], env, tr, fuel);
    }
  }

  lemma {:induction false} BindsAll(xs: seq<string>, vs: seq<Word>)
    requires |xs| == |vs|
    ensures forall i :: 0 <= i < |xs| ==> xs[i] in Bind(xs, vs)
    decreases |xs|
  {
    if xs != [] {
      BindsAll(xs[..|xs| - 1], vs[..|vs| - 1]);
    }
  }

  lemma {:induction false} IdArgsNames(ts: Types, xs: seq<string>)
    requires forall i :: 0 <= i < |xs| ==> xs[i] in ts && ts[xs[i]] == TInt
    ensures ArgsNames(ts, IdArgs(xs))
    decreases |xs|
  {
    if xs != [] {
      IdArgsNames(ts, xs[1..]);
    }
  }

  lemma {:induction false} LitArgsNames(ts: Types, vs: seq<CInt>)
    ensures ArgsNames(ts, LitArgs(vs))
    decreases |vs|
  {
    if vs != [] {
      LitArgsNames(ts, vs[1..]);
    }
  }

  lemma {:induction false} IdArgsMention(xs: seq<string>, i: nat)
    requires i < |xs|
    ensures ArgsMention(IdArgs(xs), xs[i], false)
    decreases |xs|
  {
    if i > 0 {
      IdArgsMention(xs[1..], i - 1);
    }
  }

  // the program is accepted, and its call of main terminates

  lemma {:induction false} CheckAll(ms: seq<Method>, todo: seq<Method>, opt: bool)
    requires forall m :: m in todo ==> CheckMethod(ms, m, opt) == Some(m)
    ensures CheckMethods(ms, todo, opt) == Some(todo)
    decreases |todo|
  {
    hide CheckMethod;
    if todo != [] {
      CheckAll(ms, todo[1..], opt);
      assert todo == [todo[0]] + todo[1..];
    }
  }

  lemma {:induction false} SevenBodies()
    ensures CheckMethod(SEVEN.methods, F, false) == Some(F) && CheckMethod(SEVEN.methods, MAIN, false) == Some(MAIN)
  {
    hide Find, CheckArgs, IdArgs, LitArgs;
    SevenFinds();
    var ms := SEVEN.methods;
    IdArgsCheck(ms, NAMES, H.params);
    LitArgsCheck(ms, NUMBERS, F.params);
    assert CheckArgs(ms, NoExpr, [], false) == TypedArgs(NoExpr) by { NoArgsCheck(ms); }
    assert CheckList(ms, CALL_H, RVoid, false) == TypedList(CALL_H);
    assert CheckList(ms, CALL_F, RVoid, false) == TypedList(CALL_F);
    assert CheckList(ms, F.body, RVoid, false) == TypedList(F.body);
  }

  lemma NoArgsCheck(ms: seq<Method>)
    ensures CheckArgs(ms, NoExpr, [], false) == TypedArgs(NoExpr)
  {
  }

  lemma ExternChecked(ms: seq<Method>, m: Method)
    requires m.isExtern
    ensures CheckMethod(ms, m, false) == Some(m)
  {
  }

  lemma {:induction false} SevenAccepted()
    ensures Analyze(SEVEN, false) == Some(SEVEN)
  {
    hide CheckMethods, Find, CheckMethod;
    SevenFinds();
    SevenBodies();
    ExternChecked(SEVEN.methods, E);
    ExternChecked(SEVEN.methods, H);
    CheckAll(SEVEN.methods, SEVEN.methods, false);
  }

  lemma {:induction false} SevenRegular() returns (g: map<string, Types>)
    ensures Compiled(g, SEVEN, false, "main", [])
  {
    hide Analyze, Find, ArgsNames, IdArgs, LitArgs, DistinctMethods;
    SevenFinds();
    SevenAccepted();
    var ts: Types := map x | x in NAMES :: TInt;
    g := map["f" := ts, "main" := map[]];
    SevenNames(ts);
  }

  lemma {:induction false} SevenNames(ts: Types)
    requires forall i :: 0 <= i < |NAMES| ==> NAMES[i] in ts && ts[NAMES[i]] == TInt
    ensures MethodNames(ts, F) && MethodNames(map[], MAIN)
  {
    hide IdArgs, LitArgs;
    IdArgsNames(ts, NAMES);
    var none: Types := map[];
    LitArgsNames(none, NUMBERS);
    forall q | q in F.params
      ensures q.name in ts && ts[q.name] == q.ty
    {
      var i :| 0 <= i < |F.params| && F.params[i] == q;
    }
    hide ArgsNames;
    assert ArgsNames(ts, NoExpr) by { NoNames(ts); }
    assert ListNames(ts, CALL_H);
    assert StmtNames(none, CALL_F.first);
    assert ListNames(none, CALL_F);
    assert ListNames(ts, F.body);
  }

  lemma NoNames(ts: Types)
    ensures ArgsNames(ts, NoExpr)
  {
  }

  lemma {:induction false} SevenTerminates(tr: Trace) returns (v: Option<Word>, tr': Trace)
    ensures Terminates(SEVEN, "main", [], tr, v, tr')
    ensures |tr'| > |tr| + 1 && tr'[|tr| + 1].f == "f"
  {
    var none: Env, tr1 := map[], tr + [Event("main", [])];
    SevenFinds();
    LitArgsEvaluate(SEVEN, NUMBERS, none, tr1, 2);
    hide Find, LitArgs, EvalArgs, Terminates, ExecList, CallMethod, Exec, Bind;
    var vs := EvalArgs(SEVEN, LitArgs(NUMBERS), none, tr1, 2).vs;
    var tr2 := SevenCallsF(vs, tr1);
    InternalCall(SEVEN, "f", LitArgs(NUMBERS), none, tr1, 1, tr2);
    ListOfOne(SEVEN, CallS("f", LitArgs(NUMBERS)), none, tr1, 2, none, tr2);
    NoParamsBound();
    CallEnds(SEVEN, "main", MAIN, [], tr, 2, none, tr2);
    v, tr' := None, tr2;
    TerminatesIn(SEVEN, "main", [], tr, 2);
  }

  lemma NoParamsBound()
    ensures ParamNames([]) == [] && Bind([], []) == map[]
  {
  }

  lemma TerminatesIn(p: Program, f: string, vs: seq<Word>, tr: Trace, fuel: nat)
    requires CallMethod(p, f, vs, tr, fuel).Value?
    ensures Terminates(p, f, vs, tr, CallMethod(p, f, vs, tr, fuel).v, CallMethod(p, f, vs, tr, fuel).tr)
  {
    hide CallMethod;
  }

  lemma ExternCallEnds(p: Program, f: string, m: Method, args: ExprList, env: Env, tr: Trace)
    requires Find(p.methods, f) == Some(m) && m.isExtern && |m.params| == ListLength(args)
    requires EvalArgs(p, args, env, tr, 1).Args?
    ensures var a := EvalArgs(p, args, env, tr, 1);
            Exec(p, CallS(f, args), env, tr, 1) == Normal(env, a.tr + [Event(f, a.vs)])
  {
    hide Find, EvalArgs;
  }

  lemma InternalCall(p: Program, f: string, args: ExprList, env: Env, tr: Trace, fuel: nat, tr': Trace)
    requires EvalArgs(p, args, env, tr, fuel + 1).Args?
    requires var a := EvalArgs(p, args, env, tr, fuel + 1); CallMethod(p, f, a.vs, a.tr, fuel) == Value(None, tr')
    ensures Exec(p, CallS(f, args), env, tr, fuel + 1) == Normal(env, tr')
  {
    hide EvalArgs, CallMethod;
  }

  lemma CallEnds(p: Program, f: string, m: Method, vs: seq<Word>, tr: Trace, fuel: nat, env': Env, tr': Trace)
    requires Find(p.methods, f) == Some(m) && !m.isExtern && |m.params| == |vs|
    requires ExecList(p, m.body, Bind(ParamNames(m.params), vs), tr + [Event(f, vs)], fuel) == Normal(env', tr')
    ensures CallMethod(p, f, vs, tr, fuel) == Value(None, tr')
  {
    hide Find, ExecList, Bind;
  }

  lemma ListOfOne(p: Program, s: Stmt, env: Env, tr: Trace, fuel: nat, env': Env, tr': Trace)
    requires Exec(p, s, env, tr, fuel) == Normal(env', tr')
    ensures ExecList(p, SCons(s, SNil), env, tr, fuel) == Normal(env', tr')
  {
    hide Exec;
  }

  lemma ListOfMore(p: Program, s: Stmt, next: StmtList, env: Env, tr: Trace, fuel: nat, env': Env, tr': Trace)
    requires Exec(p, s, env, tr, fuel) == Normal(env', tr')
    ensures ExecList(p, SCons(s, next), env, tr, fuel) == ExecList(p, next, env', tr', fuel)
  {
    hide Exec;
  }

  lemma NoArgsEvaluate(p: Program, env: Env, tr: Trace, fuel: nat)
    ensures EvalArgs(p, NoExpr, env, tr, fuel) == Args([], tr)
  {
  }

  /** A method that makes two extern calls, the first without arguments. */
  lemma {:induction false} TwoExternCalls(p: Program, f: string, m: Method, e: string, em: Method, h: string,
                                          hm: Method, args: ExprList, vs: seq<Word>, tr: Trace) returns (tr': Trace)
    requires Find(p.methods, f) == Some(m) && !m.isExtern && |m.params| == |vs|
    requires m.body == SCons(CallS(e, NoExpr), SCons(CallS(h, args), SNil))
    requires Find(p.methods, e) == Some(em) && em.isExtern && em.params == []
    requires Find(p.methods, h) == Some(hm) && hm.isExtern && |hm.params| == ListLength(args)
    requires var tr2 := tr + [Event(f, vs)] + [Event(e, [])];
             var a := EvalArgs(p, args, Bind(ParamNames(m.params), vs), tr2, 1);
             a.Args? && a.tr == tr2
    ensures CallMethod(p, f, vs, tr, 1) == Value(None, tr') && tr + [Event(f, vs)] <= tr'
  {
    var env, tr1 := Bind(ParamNames(m.params), vs), tr + [Event(f, vs)];
    var tr2 := tr1 + [Event(e, [])];
    NoArgsEvaluate(p, env, tr1, 1);
    hide Find, EvalArgs, Exec, ExecList, CallMethod, Bind;
    var a := EvalArgs(p, args, env, tr2, 1);
    ExternCallEnds(p, e, em, NoExpr, env, tr1);
    ListOfMore(p, CallS(e, NoExpr), SCons(CallS(h, args), SNil), env, tr1, 1, env, tr2);
    ExternCallEnds(p, h, hm, args, env, tr2);
    tr' := a.tr + [Event(h, a.vs)];
    ListOfOne(p, CallS(h, args), env, tr2, 1, env, tr');
    CallEnds(p, f, m, vs, tr, 1, env, tr');
  }

  lemma {:induction false} SevenCallsF(vs: seq<Word>, tr: Trace) returns (tr': Trace)
    requires |vs| == 7
    ensures CallMethod(SEVEN, "f", vs, tr, 1) == Value(None, tr') && tr + [Event("f", vs)] <= tr'
  {
    hide Find, EvalArgs, IdArgs, CallMethod, Bind;
    assert ParamNames(F.params) == NAMES;
    BindsAll(NAMES, vs);
    SevenFinds();
    IdArgsEvaluate(SEVEN, NAMES, Bind(NAMES, vs), tr + [Event("f", vs)] + [Event("e", [])], 1);
    tr' := TwoExternCalls(SEVEN, "f", F, "e", E, "h", H, IdArgs(NAMES), vs, tr);
  }

  // its assembly

  lemma {:induction false} SevenUsed()
    ensures AllParamsUsed(SEVEN.methods, false)
  {
    hide Find, IdArgs, LitArgs, ArgsMention;
    SevenFinds();
    forall x | x in ParamNames(F.params)
      ensures ListMentions(F.body, x, false)
    {
      var i :| 0 <= i < |ParamNames(F.params)| && ParamNames(F.params)[i] == x;
      assert NAMES[i] == x;
      IdArgsMention(NAMES, i);
      assert ListMentions(CALL_H, x, false);
    }
  }

  /** No call has been made before s: the events are those of st. */
  lemma {:induction false} QuietBefore(P: IrProgram, st: State, s: State, k: nat, top: int)
    requires Run(Machine(P), st, s, k) && s.tr == st.tr && CallArrives(P, s, top)
    ensures EvenBefore(P, st, k) && ArriveWithin(P, st, k + 1, top)
    decreases k
  {
    hide Step, OnStack, AtCallOf, Received, EvenArgs;
    if k > 0 {
      StepTrace(P, st);
      TraceGrows(P, Step(P, st).value, s, k - 1);
      QuietBefore(P, Step(P, st).value, s, k - 1, top);
    }
  }

  lemma {:induction false} OneMoreStep(P: IrProgram, st: State, s: State, k: nat)
    requires Run(Machine(P), st, s, k) && Step(P, s).Some?
    ensures Run(Machine(P), st, Step(P, s).value, k + 1)
    decreases k
  {
    hide Step;
    if k > 0 {
      OneMoreStep(P, Step(P, st).value, s, k - 1);
    }
  }

  /** The first instruction of f's code calls e. */
  lemma {:induction false} FirstCall(q: nat) returns (d: Name)
    requires IndexOf(Translate(SEVEN, false).code, IEnter("f")) == Some(q)
    ensures q + 1 < |Translate(SEVEN, false).code| && Translate(SEVEN, false).code[q + 1] == ICall("e", d)
  {
    hide GenMethods, Find, IdArgs, IndexOf;
    SevenFinds();
    var pos, t, l := LocateMethod(SEVEN.methods, false, "f");
    var c := GenMethod(F, t, l, false).code;
    d := Tmp(t);
    BeginsWithCall(F, CALL_H, t, l, c);
    assert At(Translate(SEVEN, false).code, q, c);
    assert Translate(SEVEN, false).code[q + 1] == c[1];
  }

  lemma BeginsWithCall(m: Method, next: StmtList, t: nat, l: nat, c: Code)
    requires !m.isExtern && m.body == SCons(CallS("e", NoExpr), next) && c == GenMethod(m, t, l, false).code
    ensures |c| > 1 && c[1] == ICall("e", Tmp(t))
  {
    var g := GenList(m.body, t, l, false).code;
    assert Params([]) == [];
    assert GenStmt(CallS("e", NoExpr), t, l, false).code == [ICall("e", Tmp(t))];
    assert g[0] == ICall("e", Tmp(t));
    assert c == [IEnter(m.name)] + (g + [ILeave(m.name)]);
  }

  lemma Enters(P: IrProgram, s: State, q: nat)
    requires AtCallOf(P, s) && !P.sigs[P.code[s.pc].f].isExtern
    requires IndexOf(P.code, IEnter(P.code[s.pc].f)) == Some(q)
    ensures var i := P.code[s.pc];
            Step(P, s) == Some(Running(i.f, q + 1, BindParams(P.sigs[i.f].params, s.pend), [],
                                       Push(Frame(s.f, s.pc + 1, s.store, i.reg), s.stack),
                                       s.tr + [CallEvent(P, s)]))
    ensures var fr := Frame(s.f, s.pc + 1, s.store, P.code[s.pc].reg);
            Stacked(P, Push(fr, s.stack)) == StackArgs(|s.pend|) + Stacked(P, s.stack)
  {
    hide IndexOf, BindParams;
  }

  lemma CallsOut(P: IrProgram, s: State, g: string, d: Name)
    requires s.Running? && s.pc < |P.code| && P.code[s.pc] == ICall(g, d) && s.pend == []
    requires g in P.sigs && P.sigs[g] == Sig([], true)
    ensures AtCallOf(P, s) && OnStack(P, s) == Stacked(P, s.stack)
  {
    hide Stacked;
  }

  lemma CalleeEntered(P: IrProgram, s: State) returns (q: nat)
    requires AtCallOf(P, s) && !P.sigs[P.code[s.pc].f].isExtern
    ensures IndexOf(P.code, IEnter(P.code[s.pc].f)) == Some(q)
  {
    q := IndexOf(P.code, IEnter(P.code[s.pc].f)).value;
  }

  lemma {:induction false} SevenSigs()
    ensures var sigs := Translate(SEVEN, false).sigs;
            "e" in sigs && sigs["e"] == Sig([], true) && "f" in sigs && |sigs["f"].params| == 7 && !sigs["f"].isExtern
  {
    hide GenMethods, Find;
    SevenFinds();
    assert ParamNames(E.params) == [];
  }

  /** From a call of f with seven arguments, the machine comes to a call of e, with one argument on the
      stack. */
  lemma {:induction false} AtInnerCall(P: IrProgram, s: State) returns (s1: State)
    requires P == Translate(SEVEN, false) && AtCallOf(P, s) && P.code[s.pc].f == "f"
    ensures |s.pend| == 7 && !P.sigs["f"].isExtern
    ensures Step(P, s) == Some(s1) && AtCallOf(P, s1) && P.code[s1.pc].f == "e" && P.sigs["e"].isExtern
    ensures s1.pend == [] && OnStack(P, s1) == 1 + Stacked(P, s.stack)
  {
    SevenSigs();
    hide Translate, Step, Stacked, IndexOf, OnStack;
    var q := CalleeEntered(P, s);
    var d := FirstCall(q);
    Enters(P, s, q);
    s1 := Step(P, s).value;
    CallsOut(P, s1, "e", d);
  }

  lemma {:induction false} SevenCompiles() returns (g: map<string, Types>)
    ensures Compiled(g, SEVEN, false, "main", []) && CodeOf(SEVEN, false) == Translate(SEVEN, false)
    ensures Compile(SEVEN, false) == Some(Lower(Translate(SEVEN, false))) && Lowerable(Translate(SEVEN, false))
  {
    g := SevenRegular();
    hide Lowerable, FramesFit, Analyze, Translate, AllParamsUsed, Intermediate, Regular, Find, ArgsOk, Lower;
    SevenAccepted();
    SevenUsed();
    UsedCodeFits(g, SEVEN, false, "main", []);
    CodeLowerable(g, SEVEN, false, "main", []);
    PlainIntermediate(SEVEN);
  }

  lemma {:induction false} ExternNotEntered(P: IrProgram, f: string)
    requires Lowerable(P) && f in P.sigs && P.sigs[f].isExtern
    ensures IEnter(f) !in P.code
  {
    hide Structured, JumpsLocal, ParamRuns, HasMethod, FrameFits;
  }

  /** Calling f from main, the machine comes to f's call of e with an odd number of arguments on the stack. */
  lemma {:induction false} SevenRuns(P: IrProgram, tr: Trace, top: int) returns (st: State, s1: State, k: nat)
    requires P == Translate(SEVEN, false)
    ensures Start(P, "main", [], tr + [Event("main", [])]) == Some(st) && Run(Machine(P), st, s1, k)
    ensures AtCallOf(P, s1) && P.code[s1.pc].f == "e" && P.sigs["e"].isExtern && s1.pend == []
    ensures ArriveWithin(P, st, k, top) && OnStack(P, s1) % 2 == 1
  {
    var v, tr', n;
    st, v, tr', n := SevenHalts(P, tr);
    hide Translate, Start, Step, AtCallOf, OnStack, CallArrives, Received, Run, ArriveWithin;
    var s;
    s, k := EventIsCall(P, st, Halted(v, tr'), n, |tr| + 1);
    CalledName(P, s, tr'[|tr| + 1]);
    s1 := SevenReaches(P, st, s, k, top);
    k := k + 1;
  }

  lemma {:induction false} SevenHalts(P: IrProgram, tr: Trace)
    returns (st: State, v: Option<Word>, tr': Trace, n: nat)
    requires P == Translate(SEVEN, false)
    ensures Start(P, "main", [], tr + [Event("main", [])]) == Some(st) && Run(Machine(P), st, Halted(v, tr'), n)
    ensures st.Running? && st.stack == NoFrame && |st.tr| == |tr| + 1
    ensures |tr'| > |tr| + 1 && tr'[|tr| + 1].f == "f"
  {
    var g := SevenCompiles();
    v, tr' := SevenTerminates(tr);
    hide Translate, Terminates, Compiled, Start, Step, Reaches, CodeOf, Lowerable, Compile;
    var tr1 := tr + [Event("main", [])];
    ModesAgree(g, SEVEN, false, "main", [], tr, v, tr');
    st := Start(P, "main", [], tr1).value;
    StartIs(P, "main", [], tr1);
    n := ReachedIn(P, st, Halted(v, tr'));
  }

  lemma CalledName(P: IrProgram, s: State, e: Event)
    requires AtCallOf(P, s) && e == CallEvent(P, s)
    ensures P.code[s.pc].f == e.f
  {
    hide Step;
  }

  /** The analyzer accepts the program and its call of main terminates; but called with an aligned stack its
      assembly comes to the call of e, which passes no argument, with rsp not a multiple of 16. */
  lemma {:induction false} MisalignedCall(x: XState, ret: int, tr: Trace) returns (x': XState)
    requires Called(Translate(SEVEN, false), "main", [], x, ret)
    requires x.tr == tr + [Event("main", [])] && RSP in x.regs && (x.regs[RSP] + 8) % 16 == 0
    ensures exists v, tr' :: Terminates(SEVEN, "main", [], tr, v, tr')
    ensures Compile(SEVEN, false) == Some(Lower(Translate(SEVEN, false)))
    ensures var X := Lower(Translate(SEVEN, false));
            && Reaches(XMachine(X), x, x') && 0 <= x'.pc < |X.code| && X.code[x'.pc] == XCall("e")
            && RSP in x'.regs && x'.regs[RSP] % 16 != 0 && XStep(X, x').None?
  {
    var g := SevenCompiles();
    var v, tr' := SevenTerminates(tr);
    hide Translate, Terminates, Compiled, Lowerable, Start, Step, OnStack, CallArrives, Reaches, CodeOf, XStep, Lower,
         Received, ArgsPassed, ArriveWithin, ArgValues, Compile;
    var P := Translate(SEVEN, false);
    var st, s1, k := SevenRuns(P, tr, x.regs[RSP] + 8);
    x' := CallsAligned(P, "main", [], x, ret, s1, k);
    ExternNotEntered(P, "e");
    StuckCall(P, "e", x', 0);
  }

  lemma {:induction false} SevenArrives(P: IrProgram, s: State, top: int)
    requires AtCallOf(P, s) && |s.pend| == 7 && !P.sigs[P.code[s.pc].f].isExtern
    ensures CallArrives(P, s, top)
  {
    hide Step, Received;
    ReceivedExactly(7);
  }

  lemma {:induction false} SevenReaches(P: IrProgram, st: State, s: State, k: nat, top: int) returns (s1: State)
    requires P == Translate(SEVEN, false) && st.Running? && st.stack == NoFrame
    requires Run(Machine(P), st, s, k) && |s.tr| == |st.tr| && AtCallOf(P, s) && P.code[s.pc].f == "f"
    ensures Run(Machine(P), st, s1, k + 1) && AtCallOf(P, s1) && P.code[s1.pc].f == "e" && s1.pend == []
    ensures ArriveWithin(P, st, k + 1, top) && OnStack(P, s1) % 2 == 1
  {
    hide Step, Translate, Received, EvenBefore, Stacked, StackedBy, OnStack, ArriveWithin, CallArrives, EvenArgs;
    s1 := AtInnerCall(P, s);
    TraceGrows(P, st, s, k);
    SevenArrives(P, s, top);
    QuietBefore(P, st, s, k, top);
    EvenReached(P, st, s, k);
    EvenSum(P, s.stack);
    OneMoreStep(P, st, s, k);
  }
}
