/** The passes in sequence, as main runs them, and what the assembly does for the source program. */
module EndToEnd {
  import opened Words
  import opened Source
  import opened Analyzer
  import opened TypeSoundness
  import opened AnalyzerCorrect
  import opened AnalyzerExact
  import opened Ir
  import opened IrGen
  import opened IrLayout
  import opened IrGenCorrect
  import opened Runs
  import opened TempFlow
  import opened TempReuse
  import opened ReuseOptimal
  import opened Optimizer
  import opened ReuseCorrect
  import opened X86
  import opened Lowering
  import opened ObjectCode
  import opened Frames
  import opened LoweringCorrect
  import opened IrGenExact
  import opened Alignment
  import opened LoweringExact
  import opened GeneratedShape
  import opened Mentions
  import opened TempNeed
  import opened CodeNames
  import opened CodeSize

  /** Generation, then reuse of temporaries when optimisations are on. */
  function Intermediate(p: Program, opt: bool): IrProgram {
    var P := Translate(p, opt);
    ProgramFlow(p.methods, opt);
    if opt then P.(code := Reused(P.code)) else P
  }

  /** The whole compiler; None when the analyzer rejects. */
  function Compile(p: Program, opt: bool): Option<XProgram> {
    match Analyze(p, opt)
    case None => None
    case Some(p1) => Some(Lower(Intermediate(p1, opt)))
  }

  /** What is compiled, told without the analyzer: a well typed program with a main method in which,
      optimising, no fold traps, as the code of what it reduces to. */
  lemma {:induction false} CompiledExactly(p: Program, opt: bool)
    ensures Compile(p, opt).Some? <==> ProgramOk(p, opt) && (opt ==> ProgramNoTrap(p))
    ensures Compile(p, opt).Some? ==> Compile(p, opt).value == Lower(Intermediate(ProgramReduced(p, opt), opt))
  {
    hide Analyze, Intermediate, Lower, ProgramOk, ProgramNoTrap, ProgramReduced;
    AcceptedExactly(p, opt);
  }

  /** Every frame holds its slots. */
  ghost predicate FramesFit(P: IrProgram) {
    forall f :: HasMethod(P.code, f) ==> FrameFits(P, f)
  }

  lemma {:induction false} IntermediateIsRenamed(p: Program, opt: bool) returns (r: seq<nat>)
    ensures Disciplined(Translate(p, opt).code)
    ensures opt ==> Fits(Translate(p, opt).code, r) && Intermediate(p, opt) == RenameProgram(Translate(p, opt), r)
  {
    hide Renaming, FinalCells, GenMethods;
    ProgramFlow(p.methods, opt);
    var code := Translate(p, opt).code;
    FlowInOrder(code);
    r := FinalCells(Occurrences(code), FlowRun(code, START).value.next);
    ReusedFits(code);
  }

  /** Optimising, the code handed on mentions exactly the temporaries below the largest need of an
      expression; otherwise one for each that was generated. */
  lemma {:induction false} IntermediateNames(p: Program, opt: bool)
    ensures MentionsFirst(Intermediate(p, opt).code,
                          if opt then MethodsNeed(p.methods, true) else GenMethods(p.methods, 0, 0, false).t)
  {
    hide MentionsFirst, MethodsNeed, Reused, GenMethods, Translate;
    if opt {
      ReusedNames(p);
    } else {
      TranslatedNames(p, false);
    }
  }

  /** Whatever the analyzer hands on, the lowering can rely on its shape. */
  lemma {:induction false} IntermediateShape(p: Program, opt: bool)
    requires DistinctMethods(p.methods)
    ensures var c := Intermediate(p, opt).code; Structured(c) && JumpsLocal(c) && ParamRuns(c)
    ensures Intermediate(p, opt).sigs == Sigs(p.methods)
    ensures forall f :: IEnter(f) in Intermediate(p, opt).code ==>
      Find(p.methods, f).Some? && !Find(p.methods, f).value.isExtern
  {
    hide Structured, JumpsLocal, ParamRuns, Fits, GenMethods, RenameCode, Disciplined, Within, IndexOf, Find, Reused;
    var r := IntermediateIsRenamed(p, opt);
    var code := Translate(p, opt).code;
    ProgramClosed(p.methods, opt);
    DisciplinedRuns(code);
    RenamedShape(code, r);
    forall f | IEnter(f) in Intermediate(p, opt).code
      ensures Find(p.methods, f).Some? && !Find(p.methods, f).value.isExtern
    {
      MarkSame(code, r, IEnter(f));
      EnterMeansMethod(p.methods, opt, f);
    }
  }

  lemma {:induction false} EnterMeansMethod(ms: seq<Method>, opt: bool, f: string)
    requires DistinctMethods(ms) && IEnter(f) in GenMethods(ms, 0, 0, opt).code
    ensures Find(ms, f).Some? && !Find(ms, f).value.isExtern
    decreases |ms|
  {
    if ms != [] {
      hide GenMethod;
      var ms0, m := ms[..|ms| - 1], ms[|ms| - 1];
      assert ms == ms0 + [m];
      var g := GenMethods(ms0, 0, 0, opt);
      EnterInMethod(m, g.t, g.l, opt, f);
      FindSnoc(ms0, m, f);
      NotDeclared(ms0, m);
      if IEnter(f) in g.code {
        EnterMeansMethod(ms0, opt, f);
      }
    }
  }

  lemma {:induction false} IntermediateLowerable(p: Program, opt: bool)
    requires DistinctMethods(p.methods) && FramesFit(Intermediate(p, opt))
    ensures Lowerable(Intermediate(p, opt))
  {
    hide Intermediate, Structured, JumpsLocal, ParamRuns, FrameFits, HasMethod, Find, Sigs;
    var P := Intermediate(p, opt);
    IntermediateShape(p, opt);
    forall f | IEnter(f) in P.code
      ensures HasMethod(P.code, f)
    {
      EnterHas(P.code, f);
    }
  }

  lemma {:induction false} EnterHas(code: Code, f: string)
    requires Structured(code) && IEnter(f) in code
    ensures HasMethod(code, f)
  {
    OwnsFirst(code, f);
  }

  /** Generation and reuse together give the source meaning, and no other. */
  lemma {:induction false} IntermediateExact(g: map<string, Types>, p: Program, opt: bool, f: string, vs: seq<Word>,
                                             tr: Trace, v: Option<Word>, tr': Trace)
    requires Translatable(g, p, opt) && Find(p.methods, f).Some? && !Find(p.methods, f).value.isExtern
    requires ArgsOk(Find(p.methods, f).value.params, vs)
    ensures var start := Start(Intermediate(p, opt), f, vs, tr + [Event(f, vs)]);
            && start.Some?
            && (Terminates(p, f, vs, tr, v, tr')
                <==> Reaches(Machine(Intermediate(p, opt)), start.value, Halted(v, tr')))
  {
    hide Translatable, Terminates, ArgsOk, Start, Reaches, Machine, Fits, GenMethods, Reused, RenameProgram,
         Translate, Find;
    TranslationExact(g, p, opt, f, vs, tr, v, tr');
    if opt {
      var cells := IntermediateIsRenamed(p, opt);
      RenamingCorrect(Translate(p, opt), cells, f, vs, tr + [Event(f, vs)], Halted(v, tr'));
    } else {
      PlainIntermediate(p);
    }
  }

  lemma {:induction false} PlainIntermediate(p: Program)
    ensures Intermediate(p, false) == Translate(p, false)
  {
    hide GenMethods;
  }

  /** What every statement about compiled methods starts from: an accepted program and a call of one of its
      methods with arguments of their types. */
  ghost predicate Compiled(g: map<string, Types>, p: Program, opt: bool, f: string, vs: seq<Word>) {
    && Regular(g, p, opt) && Analyze(p, opt).Some?
    && Find(p.methods, f).Some? && !Find(p.methods, f).value.isExtern && ArgsOk(Find(p.methods, f).value.params, vs)
  }

  function CodeOf(p: Program, opt: bool): IrProgram
    requires Analyze(p, opt).Some?
  {
    Intermediate(Analyze(p, opt).value, opt)
  }

  lemma {:induction false} SameCalls(g: map<string, Types>, p: Program, opt: bool, f: string, vs: seq<Word>, tr: Trace,
                                     v: Option<Word>, tr': Trace)
    requires Compiled(g, p, opt, f, vs)
    ensures var p1 := Analyze(p, opt).value;
            && Translatable(g, p1, opt) && Find(p1.methods, f).Some? && !Find(p1.methods, f).value.isExtern
            && ArgsOk(Find(p1.methods, f).value.params, vs)
            && (Terminates(p1, f, vs, tr, v, tr') <==> Terminates(p, f, vs, tr, v, tr'))
  {
    hide Analyze, Find, Regular, Translatable, CallMethod;
    AnalysisCorrect(g, p, opt);
    var p1 := Analyze(p, opt).value;
    forall fuel: nat
      ensures CallMethod(p1, f, vs, tr, fuel) == CallMethod(p, f, vs, tr, fuel)
    {
    }
  }

  /** With optimisations on or off, the intermediate code of an accepted program halts with a value and
      calls exactly when the source terminates with them; hence the two modes agree. */
  lemma {:induction false} ModesAgree(g: map<string, Types>, p: Program, opt: bool, f: string, vs: seq<Word>, tr: Trace,
                                      v: Option<Word>, tr': Trace)
    requires Compiled(g, p, opt, f, vs)
    ensures var start := Start(CodeOf(p, opt), f, vs, tr + [Event(f, vs)]);
            && start.Some?
            && (Terminates(p, f, vs, tr, v, tr')
                <==> Reaches(Machine(CodeOf(p, opt)), start.value, Halted(v, tr')))
  {
    hide Translatable, Terminates, ArgsOk, Start, Reaches, Machine, Intermediate, Analyze, Find, Regular;
    SameCalls(g, p, opt, f, vs, tr, v, tr');
    IntermediateExact(g, Analyze(p, opt).value, opt, f, vs, tr, v, tr');
  }

  lemma {:induction false} CodeLowerable(g: map<string, Types>, p: Program, opt: bool, f: string, vs: seq<Word>)
    requires Compiled(g, p, opt, f, vs) && FramesFit(CodeOf(p, opt))
    ensures Lowerable(CodeOf(p, opt)) && Compile(p, opt) == Some(Lower(CodeOf(p, opt)))
  {
    hide Intermediate, Analyze, Find, Regular, Lowerable, FramesFit, Lower, ArgsOk;
    AnalysisCorrect(g, p, opt);
    IntermediateLowerable(Analyze(p, opt).value, opt);
  }

  /** The compiler is correct: for every accepted program, with optimisations or without, a method whose
      source execution terminates does the same as assembly, provided frames hold their slots and the
      calls it makes go through. Called under the calling convention it returns the same value in rax, has
      made the same calls in the same order, and leaves its caller's frame intact. */
  lemma {:induction false} CompilerCorrect(g: map<string, Types>, p: Program, opt: bool, f: string, vs: seq<Word>,
                                           tr: Trace, v: Option<Word>, tr': Trace, x: XState, ret: int)
    returns (x': XState)
    requires Compiled(g, p, opt, f, vs) && Terminates(p, f, vs, tr, v, tr') && FramesFit(CodeOf(p, opt))
    requires Called(CodeOf(p, opt), f, vs, x, ret) && x.tr == tr + [Event(f, vs)] && RSP in x.regs
    requires var start := Start(CodeOf(p, opt), f, vs, x.tr);
             start.Some? ==> CallsArrive(CodeOf(p, opt), start.value, x.regs[RSP] + 8)
    ensures Compile(p, opt).Some? && Reaches(XMachine(Compile(p, opt).value), x, x') && Back(x, x', ret, v, tr')
  {
    hide Compiled, Terminates, Start, Reaches, Machine, XMachine, Called, Back, Lower, Lowerable, FramesFit,
         CallsArrive, CodeOf;
    ModesAgree(g, p, opt, f, vs, tr, v, tr');
    CodeLowerable(g, p, opt, f, vs);
    x' := LoweringPreservesMeaning(CodeOf(p, opt), f, vs, x, ret, v, tr');
  }

  /** Nothing else happens: when the assembly comes back to a return address outside the program, the source
      call terminates with the value returned and the calls made, and every call on the way went through.
      The run may not use an undefined value, which the assembly would find in some stack cell. */
  lemma {:induction false} CompilerExact(g: map<string, Types>, p: Program, opt: bool, f: string, vs: seq<Word>,
                                         tr: Trace, x: XState, ret: int, x': XState)
    returns (v: Option<Word>, tr': Trace)
    requires Compiled(g, p, opt, f, vs) && FramesFit(CodeOf(p, opt))
    requires Called(CodeOf(p, opt), f, vs, x, ret) && x.tr == tr + [Event(f, vs)] && RSP in x.regs
    requires var start := Start(CodeOf(p, opt), f, vs, x.tr);
             start.Some? ==> NeverStuck(CodeOf(p, opt), start.value) && ReadInOrder(CodeOf(p, opt), start.value)
    requires Reaches(XMachine(Lower(CodeOf(p, opt))), x, x')
    requires x'.pc == ret && !(0 <= ret < |Lower(CodeOf(p, opt)).code|)
    ensures Terminates(p, f, vs, tr, v, tr') && Back(x, x', ret, v, tr')
    ensures var start := Start(CodeOf(p, opt), f, vs, x.tr);
            start.Some? && CallsArrive(CodeOf(p, opt), start.value, x.regs[RSP] + 8)
  {
    hide Compiled, Terminates, Start, Reaches, Machine, XMachine, Called, Back, Lower, Lowerable, FramesFit,
         CallsArrive, CodeOf, NeverStuck, ReadInOrder;
    ModesAgree(g, p, opt, f, vs, tr, None, []);
    CodeLowerable(g, p, opt, f, vs);
    v, tr' := ReturnsOnlyIfHalted(CodeOf(p, opt), f, vs, x, ret, x');
    ModesAgree(g, p, opt, f, vs, tr, v, tr');
  }

  // ----- the conditions, told from the source -----

  /** Every method's translated statements mention all its parameters. */
  ghost predicate AllParamsUsed(ms: seq<Method>, opt: bool) {
    forall m :: m in ms && !m.isExtern ==> ParamsUsed(m, opt)
  }

  lemma {:induction false} UsedFramesFit(p: Program, opt: bool)
    requires DistinctMethods(p.methods) && AllParamsUsed(p.methods, opt)
    ensures FramesFit(Intermediate(p, opt))
  {
    hide Intermediate, Structured, JumpsLocal, ParamRuns, FrameFits, HasMethod, Find, Sigs, ParamsUsed;
    var P := Intermediate(p, opt);
    IntermediateShape(p, opt);
    forall f | HasMethod(P.code, f)
      ensures FrameFits(P, f)
    {
      EntersIts(P.code, f);
      MethodFrame(p, opt, Find(p.methods, f).value);
    }
  }

  lemma {:induction false} EntersIts(code: Code, f: string)
    requires HasMethod(code, f)
    ensures IEnter(f) in code
  {
  }

  lemma {:induction false} MethodFrame(p: Program, opt: bool, m: Method)
    requires DistinctMethods(p.methods) && Find(p.methods, m.name) == Some(m) && !m.isExtern && ParamsUsed(m, opt)
    ensures HasMethod(Intermediate(p, opt).code, m.name) && FrameFits(Intermediate(p, opt), m.name)
  {
    hide Structured, JumpsLocal, ParamRuns, FrameFits, HasMethod, Find, ParamsUsed, Translate, RenameCode, Fits;
    var r := IntermediateIsRenamed(p, opt);
    ProgramClosed(p.methods, opt);
    DisciplinedRuns(Translate(p, opt).code);
    ClosedIsStructured(p, opt);
    RenamedShape(Translate(p, opt).code, r);
    UsedParamsFit(p, opt, m, r);
    if !opt {
      PlainIntermediate(p);
    }
  }

  lemma {:induction false} ClosedIsStructured(p: Program, opt: bool)
    requires Closed(GenMethods(p.methods, 0, 0, opt).code)
    ensures Structured(Translate(p, opt).code) && JumpsLocal(Translate(p, opt).code)
  {
    hide Structured, JumpsLocal, GenMethods;
  }

  /** The calls a method has made, its own call not counted. */
  function Made(tr: Trace, tr': Trace): Trace {
    if |tr| < |tr'| then tr'[|tr| + 1..] else []
  }

  /** Calls no one of which passes more than seven arguments, and either none passes seven and the stack
      was aligned at the start, or none leaves the program. */
  predicate EasyCalls(ms: seq<Method>, evs: Trace, top: int) {
    && (forall i :: 0 <= i < |evs| ==> |evs[i].args| <= 7)
    && (|| (top % 16 == 0 && forall i :: 0 <= i < |evs| ==> |evs[i].args| <= 6)
        || (forall i :: 0 <= i < |evs| ==> Find(ms, evs[i].f).Some? && !Find(ms, evs[i].f).value.isExtern))
  }

  lemma {:induction false} EasyInCode(g: map<string, Types>, p: Program, opt: bool, f: string, vs: seq<Word>,
                                      evs: Trace, top: int)
    requires Compiled(g, p, opt, f, vs) && EasyCalls(p.methods, evs, top)
    ensures EasyEvents(CodeOf(p, opt), evs, top)
  {
    hide Intermediate, Analyze, Find, Regular, Structured, JumpsLocal, ParamRuns, Sigs, ArgsOk, Translatable;
    AnalysisCorrect(g, p, opt);
    TranslatableDistinct(g, Analyze(p, opt).value, opt);
    IntermediateShape(Analyze(p, opt).value, opt);
    var ms, ms1 := p.methods, Analyze(p, opt).value.methods;
    forall i | 0 <= i < |evs| && Find(ms, evs[i].f).Some? && !Find(ms, evs[i].f).value.isExtern
      ensures evs[i].f !in Externs(CodeOf(p, opt))
    {
      assert Sigs(ms1)[evs[i].f] == SigOf(Find(ms1, evs[i].f).value);
    }
  }

  lemma TranslatableDistinct(g: map<string, Types>, p: Program, opt: bool)
    requires Translatable(g, p, opt)
    ensures DistinctMethods(p.methods)
  {
  }

  lemma {:induction false} UsedCodeFits(g: map<string, Types>, p: Program, opt: bool, f: string, vs: seq<Word>)
    requires Compiled(g, p, opt, f, vs) && AllParamsUsed(Analyze(p, opt).value.methods, opt)
    ensures FramesFit(CodeOf(p, opt))
  {
    hide Regular, Analyze, Find, ArgsOk, AllParamsUsed, FramesFit, Intermediate, Sound;
    AnalysisCorrect(g, p, opt);
    UsedFramesFit(Analyze(p, opt).value, opt);
  }

  /** The compiler is correct under conditions that can be read off the source and its calls: parameters are
      mentioned, and calls are easy. */
  lemma {:induction false} EasyProgramsCorrect(g: map<string, Types>, p: Program, opt: bool, f: string, vs: seq<Word>,
                                               tr: Trace, v: Option<Word>, tr': Trace, x: XState, ret: int)
    returns (x': XState)
    requires Compiled(g, p, opt, f, vs) && Terminates(p, f, vs, tr, v, tr')
    requires AllParamsUsed(Analyze(p, opt).value.methods, opt)
    requires Called(CodeOf(p, opt), f, vs, x, ret) && x.tr == tr + [Event(f, vs)] && RSP in x.regs
    requires EasyCalls(p.methods, Made(tr, tr'), x.regs[RSP] + 8)
    ensures Compile(p, opt).Some? && Reaches(XMachine(Compile(p, opt).value), x, x') && Back(x, x', ret, v, tr')
  {
    hide Regular, Find, ArgsOk, Terminates, Start, Reaches, Machine, XMachine, Called, Back, Lower, FramesFit,
         EasyEvents, CallsArrive, EasyCalls, Analyze, Intermediate, AllParamsUsed;
    ModesAgree(g, p, opt, f, vs, tr, v, tr');
    UsedCodeFits(g, p, opt, f, vs);
    var P, st := CodeOf(p, opt), Start(CodeOf(p, opt), f, vs, x.tr).value;
    StartIs(P, f, vs, x.tr);
    AlignedByEvents(P, st, Halted(v, tr'));
    EasyInCode(g, p, opt, f, vs, Made(tr, tr'), x.regs[RSP] + 8);
    EasyArrive(P, st, Halted(v, tr'), x.regs[RSP] + 8);
    x' := CompilerCorrect(g, p, opt, f, vs, tr, v, tr', x, ret);
  }

  /** With optimisations on, the code of an accepted program is never longer than with them off. */
  lemma {:induction false} OptimisedCodeNotLonger(p: Program)
    requires Analyze(p, false).Some? && Analyze(p, true).Some?
    ensures |CodeOf(p, true).code| <= |CodeOf(p, false).code|
  {
    hide Analyze, Translate, ProgramOk, ProgramNoTrap, Reused;
    AcceptedExactly(p, false);
    AcceptedExactly(p, true);
    OptimisedNotLonger(p);
    var cells := IntermediateIsRenamed(ProgramReduced(p, true), true);
  }

  /** The generator class emits exactly the compiled code. */
  lemma {:induction false} GeneratorApplies(p: Program, opt: bool)
    requires DistinctMethods(p.methods)
    ensures Shaped(Intermediate(p, opt).code)
  {
    hide Intermediate, Structured, JumpsLocal, ParamRuns, Shaped;
    IntermediateShape(p, opt);
    StructuredIsShaped(Intermediate(p, opt).code);
  }

  /** The passes as they run, after the analysis: the generator fills its buffer and its use-count list, the
      optimiser overwrites the name cells, and the object code generator emits the assembly. */
  method GenerateCode(p: Program, opt: bool) returns (asm: seq<XInstr>)
    requires DistinctMethods(p.methods)
    ensures asm == Lower(Intermediate(p, opt)).code
  {
    var code := GenerateIntermediate(p, opt);
    hide Intermediate, Shaped, Lower;
    GeneratorApplies(p, opt);
    var g := new ObjectGenerator(Intermediate(p, opt).(code := code));
    g.GenerateObjectCode();
    asm := g.out;
  }

  method GenerateIntermediate(p: Program, opt: bool) returns (code: Code)
    ensures code == Intermediate(p, opt).code
    ensures opt ==> MentionsFirst(code, MethodsNeed(p.methods, true))
  {
    hide MentionsFirst;
    ProgramFlow(p.methods, opt);
    var g := new Generator(opt);
    g.GenProgramCode(p);
    code := g.code;
    if opt {
      FlowInOrder(code);
      ListReady(code, g.uses);
      var list := new TempList(g.uses, Occurrences(code));
      list.OptimizeMemory(code);
      code := RenameCode(code, list.cells[..]);
    }
    IntermediateNames(p, opt);
  }

  lemma ListReady(code: Code, uses: seq<Use>)
    requires Disciplined(code) && uses == Tally(Occurrences(code))
    ensures |uses| == FlowRun(code, START).value.next && Ready(Occurrences(code), |uses|)
  {
    FlowInOrder(code);
    TallyInOrder(Occurrences(code), FlowRun(code, START).value.next);
  }
}
