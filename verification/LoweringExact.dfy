/** The assembly adds no behaviour: when it returns to its caller, the three-address code halts. */
module LoweringExact {
  import opened Words
  import opened Source
  import opened Ir
  import opened Runs
  import opened X86
  import opened Lowering
  import opened Frames
  import opened XRuns
  import opened LoweringCorrect
  import opened Alignment

  /** A run from st never stops before it halts: it uses no undefined value and no quotient that does not
      exist. */
  ghost predicate NeverStuck(P: IrProgram, st: State) {
    forall s :: Reaches(Machine(P), st, s) && s.Running? ==> Step(P, s).Some?
  }

  /** The calls of a run from st are read in the order in which their arguments are given. */
  ghost predicate ReadInOrder(P: IrProgram, st: State) {
    forall s :: Reaches(Machine(P), st, s) && AtCallOf(P, s) ==> Received(s.pend) == s.pend
  }

  lemma {:induction false} NextSafe(P: IrProgram, st: State, st1: State)
    requires Step(P, st) == Some(st1) && NeverStuck(P, st) && ReadInOrder(P, st)
    ensures NeverStuck(P, st1) && ReadInOrder(P, st1)
  {
    hide Step, AtCallOf, Reaches, Received;
    forall s | Reaches(Machine(P), st1, s)
      ensures Reaches(Machine(P), st, s)
    {
      ReachStep(Machine(P), st, st1);
      ReachTrans(Machine(P), st, st1, s);
    }
  }

  lemma {:induction false} HereSafe(P: IrProgram, st: State)
    requires NeverStuck(P, st) && ReadInOrder(P, st) && st.Running?
    ensures Step(P, st).Some? && (AtCallOf(P, st) ==> Received(st.pend) == st.pend)
  {
    hide Step, AtCallOf, Reaches, Received;
    ReachSelf(Machine(P), st);
  }

  lemma {:induction false} ArriveHere(P: IrProgram, st: State, top: int)
    requires CallArrives(P, st, top)
    requires Step(P, st).Some? ==> CallsArrive(P, Step(P, st).value, top)
    ensures CallsArrive(P, st, top)
  {
    hide Step, CallArrives;
    forall s | Reaches(Machine(P), st, s)
      ensures CallArrives(P, s, top)
    {
      var n: nat :| Run(Machine(P), st, s, n);
      if n > 0 {
        ReachedBy(P, Step(P, st).value, s, n - 1);
      }
    }
  }

  // ----- every step of the three-address machine moves the assembly -----

  /** A stack of frames lies in one place. */
  lemma {:induction false} StackPlace(P: IrProgram, base: Base, stk: Stack, B: int, B': int, mem: Memory)
    requires StackMatch(P, base, stk, B, mem) && StackMatch(P, base, stk, B', mem)
    ensures B == B'
    decreases stk
  {
    hide Suspended, Holds, Final, Reserved, ParamCount, Address, StackedBy;
    if stk.Push? {
      StackPlace(P, base, stk.rest, mem[B], mem[B'], mem);
    }
  }

  lemma {:induction false} Returning(P: IrProgram, base: Base, fr: Frame, rest: Stack, B: int, mem: Memory)
    requires StackMatch(P, base, Push(fr, rest), B, mem)
    ensures !StackMatch(P, base, rest, B, mem)
  {
    hide Suspended, Holds, Final, Reserved, ParamCount, Address, StackedBy, StackMatch;
    var B1 := CallerBase(P, base, fr, rest, B, mem);
    if StackMatch(P, base, rest, B, mem) {
      StackPlace(P, base, rest, B, B1, mem);
    }
  }

  lemma {:induction false} CallerBase(P: IrProgram, base: Base, fr: Frame, rest: Stack, B: int, mem: Memory)
    returns (B1: int)
    requires StackMatch(P, base, Push(fr, rest), B, mem)
    ensures B < B1 && StackMatch(P, base, rest, B1, mem)
  {
    hide Holds, Final, Reserved, ParamCount, Address, StackedBy;
    B1 := mem[B];
  }

  lemma {:induction false} AddressGrows(P: IrProgram, i: nat, j: nat)
    requires i <= j <= |P.code|
    ensures Address(P, i) <= Address(P, j)
    decreases j
  {
    hide Emitted;
    if i < j {
      AddressGrows(P, i, j - 1);
    }
  }

  /** A jump goes to another place of the assembly. */
  lemma {:induction false} JumpMoves(P: IrProgram, f: string, pc: nat)
    requires Lowerable(P) && Owns(P.code, f, pc) && (P.code[pc].IJmp? || P.code[pc].IJmpf?)
    ensures var q := IndexOf(P.code, ILabel(P.code[pc].l));
            q.Some? && Address(P, q.value) != Address(P, pc)
  {
    hide Lowerable, Address, HasMethod, Within, IndexOf, ParamCount, Lower;
    Target(P, f, pc, P.code[pc].l);
    var q := IndexOf(P.code, ILabel(P.code[pc].l)).value;
    TakesRoom(P, f, pc);
    TakesRoom(P, f, q);
    AddressesApart(P, pc, q);
  }

  lemma {:induction false} AddressesApart(P: IrProgram, i: nat, j: nat)
    requires i < |P.code| && j < |P.code| && i != j
    requires Address(P, i + 1) > Address(P, i) && Address(P, j + 1) > Address(P, j)
    ensures Address(P, i) != Address(P, j)
  {
    hide Address;
    if j < i {
      AddressGrows(P, j + 1, i);
    } else {
      AddressGrows(P, i + 1, j);
    }
  }

  lemma {:induction false} TakesRoom(P: IrProgram, f: string, pc: nat)
    requires Lowerable(P) && Owns(P.code, f, pc) && (P.code[pc].IJmp? || P.code[pc].IJmpf? || P.code[pc].ILabel?)
    ensures Address(P, pc + 1) > Address(P, pc)
  {
    hide Lowerable, Address, HasMethod, Within, Final, XAt, InstrCode, ParamCount, Operands;
    AtInstruction(P, f, pc);
    SomeCode(P.code[pc], Final(P, f), f, ParamCount(P.code, pc));
  }

  lemma {:induction false} SomeCode(i: Instr, m: seq<Key>, f: string, n: nat)
    requires i.IJmp? || i.IJmpf? || i.ILabel?
    ensures |InstrCode(i, m, f, n, 0, [])| > 0
  {
    hide SlotOf, KeyOf;
  }

  /** Where a running state's successor is. */
  lemma {:induction false} StepKind(P: IrProgram, st: State)
    requires st.Running? && Step(P, st).Some?
    ensures var st1 := Step(P, st).value;
            || AtCallOf(P, st)
            || (st1.Running? && st1.pc == st.pc + 1)
            || (exists v :: st1 == PopFrame(v, st.stack, st.tr))
            || (st.pc < |P.code| && (P.code[st.pc].IJmp? || P.code[st.pc].IJmpf?) && st1.Running?
                && IndexOf(P.code, ILabel(P.code[st.pc].l)) == Some(st1.pc))
  {
    hide IrApply, ShiftDivide, ApplyUn, IndexOf, BindParams, PopFrame;
  }

  lemma {:induction false} PopLower(P: IrProgram, base: Base, st: State, v: Option<Word>, x: XState)
    requires st.Running? && Match(P, base, st, x)
    ensures !Match(P, base, PopFrame(v, st.stack, st.tr), x)
  {
    hide Holds, SameAbove, Final, Reserved, Address, ParamCount, ArgsSet, Within, StackMatch, Suspended;
    StackOf(P, base, st, x);
    var B := x.regs[RBP];
    if st.stack.Push? {
      Returning(P, base, st.stack.top, st.stack.rest, B, x.mem);
    } else {
      StackBelow(P, base, st.stack, B, x.mem);
    }
  }

  /** A step that leaves the assembly where it is goes on to the next instruction. */
  lemma {:induction false} Progress(P: IrProgram, base: Base, st: State, x: XState)
    requires Lowerable(P) && Match(P, base, st, x) && st.Running? && Step(P, st).Some?
    requires Match(P, base, Step(P, st).value, x)
    ensures Step(P, st).value.Running? && Step(P, st).value.pc == st.pc + 1
  {
    hide Step, Lowerable, MatchRunning, Match, AtCallOf, PopFrame;
    StepKind(P, st);
    var st1 := Step(P, st).value;
    StepTrace(P, st);
    TracesOf(P, base, st, x);
    TracesOf(P, base, st1, x);
    forall v | st1 == PopFrame(v, st.stack, st.tr)
      ensures false
    {
      PopLower(P, base, st, v, x);
    }
    if st1.Running? && st1.pc != st.pc + 1 && !AtCallOf(P, st) {
      PlaceOf(P, base, st, x);
      PlaceOf(P, base, st1, x);
      JumpMoves(P, st.f, st.pc);
    }
  }

  lemma {:induction false} TracesOf(P: IrProgram, base: Base, st: State, x: XState)
    requires Match(P, base, st, x)
    ensures x.tr == st.tr
  {
    hide Holds, SameAbove, Final, Reserved, Address, ParamCount, ArgsSet, Within, StackMatch, Owns;
  }

  lemma {:induction false} PlaceOf(P: IrProgram, base: Base, st: State, x: XState)
    requires st.Running? && Match(P, base, st, x)
    ensures Owns(P.code, st.f, st.pc) && x.pc == Address(P, st.pc)
  {
    hide Holds, SameAbove, Final, Reserved, Address, ParamCount, ArgsSet, Within, StackMatch, Owns;
  }

  // ----- calls that do not go through -----

  /** A call out of the program on a misaligned stack has no meaning. */
  lemma {:induction false} MisalignedStuck(P: IrProgram, base: Base, st: State, x: XState)
    requires Lowerable(P) && Match(P, base, st, x) && AtCallOf(P, st)
    requires P.sigs[P.code[st.pc].f].isExtern && (base.top - 8 * OnStack(P, st)) % 16 != 0
    ensures 0 <= x.pc < |Lower(P).code| && XStep(Lower(P), x).None?
  {
    hide Match, Lower, Step, OnStack, XAt, MatchRunning, RspOf, ArgsSet, ArgValues, HasMethod;
    var g := P.code[st.pc].f;
    AtCall(P, base, st, x);
    FirstOf(Lower(P), x.pc, XCall(g));
    CallParity(P, base, st, x);
    hide Lowerable;
    StuckCall(P, g, x, |st.pend|);
  }

  lemma {:induction false} StuckCall(P: IrProgram, g: string, x: XState, n: nat)
    requires IEnter(g) !in P.code && 0 <= x.pc < |Lower(P).code| && Lower(P).code[x.pc] == XCall(g)
    requires RSP in x.regs && x.regs[RSP] % 16 != 0
    ensures XStep(Lower(P), x).None?
  {
    hide Assembly, Address, ArgValues;
    FindLabel(P, LFun(g));
  }

  // ----- returning means halting -----

  /** From matched states: when the assembly comes to its return address, the three-address machine halts,
      and every call on the way went through. */
  lemma {:induction false} ReturnedHalts(P: IrProgram, base: Base, st: State, x: XState, x': XState, n: nat)
    returns (v: Option<Word>, tr: Trace)
    requires Lowerable(P) && Match(P, base, st, x) && NeverStuck(P, st) && ReadInOrder(P, st)
    requires Run(XMachine(Lower(P)), x, x', n) && x'.pc == base.ret && !(0 <= base.ret < |Lower(P).code|)
    ensures Reaches(Machine(P), st, Halted(v, tr)) && Match(P, base, Halted(v, tr), x')
    ensures CallsArrive(P, st, base.top)
    decreases n, if st.Running? then |P.code| + 1 - st.pc else 0
  {
    hide Lowerable, Match, Step, NeverStuck, ReadInOrder, Lower, XStep, CallArrives, CallsArrive, Reaches;
    var X := Lower(P);
    if st.Halted? {
      v, tr := st.v, st.tr;
      HaltedThere(P, base, st, x);
      EndsHere(X, x, x', n);
      ReachSelf(Machine(P), st);
      HaltedArrives(P, st, base.top);
    } else {
      HereSafe(P, st);
      GoesThrough(P, base, st, x, x', n);
      var st1 := Step(P, st).value;
      var x1 := SimulateStep(P, base, st, x);
      var k := ReachedRest(X, x, x1, x', n);
      if k == 0 {
        Progress(P, base, st, x);
        InCode(P, st);
      }
      NextSafe(P, st, st1);
      v, tr := ReturnedHalts(P, base, st1, x1, x', n - k);
      ReachStep(Machine(P), st, st1);
      ReachTrans(Machine(P), st, st1, Halted(v, tr));
      ArriveHere(P, st, base.top);
    }
  }

  lemma {:induction false} InCode(P: IrProgram, st: State)
    requires st.Running? && Step(P, st).Some?
    ensures st.pc < |P.code|
  {
    hide IrApply, ShiftDivide, ApplyUn, IndexOf, BindParams;
  }

  lemma {:induction false} OffCode(X: XProgram, x: XState)
    requires !(0 <= x.pc < |X.code|)
    ensures XStep(X, x).None?
  {
  }

  lemma {:induction false} EndsHere(X: XProgram, x: XState, x': XState, n: nat)
    requires !(0 <= x.pc < |X.code|) && Run(XMachine(X), x, x', n)
    ensures x' == x
  {
    OffCode(X, x);
    hide XStep;
  }

  lemma {:induction false} ReachedRest(X: XProgram, x: XState, x1: XState, x': XState, n: nat) returns (k: nat)
    requires Reaches(XMachine(X), x, x1) && Run(XMachine(X), x, x', n) && !(0 <= x'.pc < |X.code|)
    ensures k <= n && Run(XMachine(X), x1, x', n - k) && (k == 0 ==> x1 == x)
  {
    hide XStep;
    k :| Run(XMachine(X), x, x1, k);
    OffCode(X, x');
    RunRest(XMachine(X), x, x1, x', k, n);
  }

  lemma {:induction false} HaltedThere(P: IrProgram, base: Base, st: State, x: XState)
    requires st.Halted? && Match(P, base, st, x)
    ensures x.pc == base.ret
  {
    hide SameAbove;
  }

  lemma {:induction false} HaltedArrives(P: IrProgram, st: State, top: int)
    requires st.Halted?
    ensures CallsArrive(P, st, top) && Step(P, st).None?
  {
    assert Step(P, st).None?;
    hide Step, CallArrives;
    forall s | Reaches(Machine(P), st, s)
      ensures CallArrives(P, s, top)
    {
      NotAtCall(P, st, top);
    }
  }

  lemma {:induction false} NotAtCall(P: IrProgram, st: State, top: int)
    requires st.Halted?
    ensures CallArrives(P, st, top)
  {
  }

  /** A call the assembly gets past went through. */
  lemma {:induction false} GoesThrough(P: IrProgram, base: Base, st: State, x: XState, x': XState, n: nat)
    requires Lowerable(P) && Match(P, base, st, x) && st.Running?
    requires AtCallOf(P, st) ==> Received(st.pend) == st.pend
    requires Run(XMachine(Lower(P)), x, x', n) && x'.pc == base.ret && !(0 <= base.ret < |Lower(P).code|)
    ensures CallArrives(P, st, base.top)
  {
    hide Lowerable, Match, Step, Lower, XStep, OnStack;
    if !CallArrives(P, st, base.top) {
      MisalignedStuck(P, base, st, x);
    }
  }

  /** When the assembly of a method comes back to its return address, its three-address code halts, with
      the value the assembly returns and the calls it made. */
  lemma {:induction false} ReturnsOnlyIfHalted(P: IrProgram, f: string, vs: seq<Word>, x: XState, ret: int, x': XState)
    returns (v: Option<Word>, tr: Trace)
    requires Lowerable(P) && Start(P, f, vs, x.tr).Some? && Called(P, f, vs, x, ret) && RSP in x.regs
    requires NeverStuck(P, Start(P, f, vs, x.tr).value) && ReadInOrder(P, Start(P, f, vs, x.tr).value)
    requires Reaches(XMachine(Lower(P)), x, x') && x'.pc == ret && !(0 <= ret < |Lower(P).code|)
    ensures Reaches(Machine(P), Start(P, f, vs, x.tr).value, Halted(v, tr)) && Back(x, x', ret, v, tr)
    ensures CallsArrive(P, Start(P, f, vs, x.tr).value, x.regs[RSP] + 8)
  {
    hide Lowerable, Start, Lower, Step, Match, Back, Machine, XStep, CallsArrive, NeverStuck, ReadInOrder, ArgsPassed;
    var base, x1 := StartMatches(P, f, vs, x, ret);
    var n: nat :| Run(XMachine(Lower(P)), x, x', n);
    var k := ReachedRest(Lower(P), x, x1, x', n);
    v, tr := ReturnedHalts(P, base, Start(P, f, vs, x.tr).value, x1, x', n - k);
    MatchedBack(P, f, vs, base, x, x', ret, v, tr);
  }
}
